/**
 * The lifecycle-callback registry used by module tests: for each module id
 * and each of the six lifecycle phases it keeps how many times the phase
 * fired and when it last fired.
 *
 * The state is, per phase, a call-count map and a last-call-time map keyed
 * by module id, updated in place. The ghost field `Log` is the sequence of
 * state-changing calls made so far; `Valid()` says that every count and time
 * the maps give is the one `Lifecycle.CountAfter` and `Lifecycle.TimeAfter`
 * prescribe for that history.
 */
module ModuleRegistry {
  import opened Lifecycle

  /** The two maps the registry keeps for one phase: the number of calls
      and the time of the latest call, each keyed by module id. */
  datatype PhaseCalls = PhaseCalls(callCount: map<string, nat>, callTime: map<string, int>)

  /** A count read the way the registry reads it: no entry means 0. */
  function CountOf(calls: PhaseCalls, m: string): nat
  {
    if m in calls.callCount then calls.callCount[m] else 0
  }

  /** A time read the way the registry reads it: no entry means null. */
  function TimeOf(calls: PhaseCalls, m: string): Option<int>
  {
    if m in calls.callTime then Some(calls.callTime[m]) else None
  }

  /** The maps of phase `p` answer, for every module, what the history `h`
      prescribes. */
  ghost predicate Tracks(calls: PhaseCalls, h: seq<Event>, p: Phase)
  {
    forall m: string {:trigger CountAfter(h, p, m)} {:trigger TimeAfter(h, p, m)} ::
      CountOf(calls, m) == CountAfter(h, p, m) && TimeOf(calls, m) == TimeAfter(h, p, m)
  }

  /** What event `e` does to the maps of phase `p`: `Init(m)` puts 0 into
      both at `m`; a recording of `p` for `m` puts the clock reading into the
      time map and the old count (0 if none) plus one into the count map;
      anything else leaves them as they are. */
  function AfterEvent(calls: PhaseCalls, e: Event, p: Phase): PhaseCalls
  {
    match e
    case Init(m) => PhaseCalls(calls.callCount[m := 0], calls.callTime[m := 0])
    case Record(q, m, now) =>
      if q == p then PhaseCalls(calls.callCount[m := CountOf(calls, m) + 1], calls.callTime[m := now])
      else calls
  }

  /** Updating one phase's maps in place, put by put, keeps them in step
      with the history extended by the event. */
  lemma TracksStep(calls: PhaseCalls, h: seq<Event>, p: Phase, e: Event)
    requires Tracks(calls, h, p)
    ensures Tracks(AfterEvent(calls, e, p), h + [e], p)
  {
    var h' := h + [e];
    assert h'[..|h'| - 1] == h;
    forall m: string
      ensures CountOf(AfterEvent(calls, e, p), m) == CountAfter(h', p, m)
      ensures TimeOf(AfterEvent(calls, e, p), m) == TimeAfter(h', p, m)
    {
      assert CountOf(calls, m) == CountAfter(h, p, m);
      assert TimeOf(calls, m) == TimeAfter(h, p, m);
    }
  }

  class ModuleTestData {
    var willRefreshContext: PhaseCalls
    var contextRefreshed: PhaseCalls
    var willStart: PhaseCalls
    var started: PhaseCalls
    var willStop: PhaseCalls
    var stopped: PhaseCalls

    /** Every `init` and recorder call made so far, oldest first. */
    ghost var Log: seq<Event>

    /** The maps that belong to phase `p`. */
    ghost function Calls(p: Phase): PhaseCalls
      reads this
    {
      match p
      case WillRefreshContext => willRefreshContext
      case ContextRefreshed => contextRefreshed
      case WillStart => willStart
      case Started => started
      case WillStop => willStop
      case Stopped => stopped
    }

    /** The maps hold exactly what the history of calls prescribes. */
    ghost predicate Valid()
      reads this
    {
      && Tracks(willRefreshContext, Log, Phase.WillRefreshContext)
      && Tracks(contextRefreshed, Log, Phase.ContextRefreshed)
      && Tracks(willStart, Log, Phase.WillStart)
      && Tracks(started, Log, Phase.Started)
      && Tracks(willStop, Log, Phase.WillStop)
      && Tracks(stopped, Log, Phase.Stopped)
    }

    /** A fresh registry: every map empty, nothing recorded yet. */
    constructor ()
      ensures Valid() && Log == []
      ensures forall p: Phase :: Calls(p) == PhaseCalls(map[], map[])
    {
      willRefreshContext := PhaseCalls(map[], map[]);
      contextRefreshed := PhaseCalls(map[], map[]);
      willStart := PhaseCalls(map[], map[]);
      started := PhaseCalls(map[], map[]);
      willStop := PhaseCalls(map[], map[]);
      stopped := PhaseCalls(map[], map[]);
      Log := [];
    }

    /** Applying one event to the maps of every phase and appending it to
        the history keeps `Valid()`. */
    twostate lemma StepKeepsValid(e: Event)
      requires old(Valid())
      requires Log == old(Log) + [e]
      requires willRefreshContext == AfterEvent(old(willRefreshContext), e, Phase.WillRefreshContext)
      requires contextRefreshed == AfterEvent(old(contextRefreshed), e, Phase.ContextRefreshed)
      requires willStart == AfterEvent(old(willStart), e, Phase.WillStart)
      requires started == AfterEvent(old(started), e, Phase.Started)
      requires willStop == AfterEvent(old(willStop), e, Phase.WillStop)
      requires stopped == AfterEvent(old(stopped), e, Phase.Stopped)
      ensures Valid()
    {
      TracksStep(old(willRefreshContext), old(Log), Phase.WillRefreshContext, e);
      TracksStep(old(contextRefreshed), old(Log), Phase.ContextRefreshed, e);
      TracksStep(old(willStart), old(Log), Phase.WillStart, e);
      TracksStep(old(started), old(Log), Phase.Started, e);
      TracksStep(old(willStop), old(Log), Phase.WillStop, e);
      TracksStep(old(stopped), old(Log), Phase.Stopped, e);
    }

    /** Puts 0 into the count map and the time map of every phase at
        `moduleId`, whatever was there, and changes nothing else. */
    method Init(moduleId: string)
      requires Valid()
      modifies this
      ensures Valid() && Log == old(Log) + [Lifecycle.Init(moduleId)]
      ensures willRefreshContext == PhaseCalls(old(willRefreshContext).callCount[moduleId := 0], old(willRefreshContext).callTime[moduleId := 0])
      ensures contextRefreshed == PhaseCalls(old(contextRefreshed).callCount[moduleId := 0], old(contextRefreshed).callTime[moduleId := 0])
      ensures willStart == PhaseCalls(old(willStart).callCount[moduleId := 0], old(willStart).callTime[moduleId := 0])
      ensures started == PhaseCalls(old(started).callCount[moduleId := 0], old(started).callTime[moduleId := 0])
      ensures willStop == PhaseCalls(old(willStop).callCount[moduleId := 0], old(willStop).callTime[moduleId := 0])
      ensures stopped == PhaseCalls(old(stopped).callCount[moduleId := 0], old(stopped).callTime[moduleId := 0])
      ensures forall p: Phase :: CountOf(Calls(p), moduleId) == 0 && TimeOf(Calls(p), moduleId) == Some(0)
    {
      willRefreshContext := PhaseCalls(willRefreshContext.callCount[moduleId := 0], willRefreshContext.callTime[moduleId := 0]);
      contextRefreshed := PhaseCalls(contextRefreshed.callCount[moduleId := 0], contextRefreshed.callTime[moduleId := 0]);
      willStart := PhaseCalls(willStart.callCount[moduleId := 0], willStart.callTime[moduleId := 0]);
      started := PhaseCalls(started.callCount[moduleId := 0], started.callTime[moduleId := 0]);
      willStop := PhaseCalls(willStop.callCount[moduleId := 0], willStop.callTime[moduleId := 0]);
      stopped := PhaseCalls(stopped.callCount[moduleId := 0], stopped.callTime[moduleId := 0]);

      Log := Log + [Lifecycle.Init(moduleId)];
      StepKeepsValid(Lifecycle.Init(moduleId));
    }

    /** Notes that phase WillRefreshContext fired for `moduleId` at clock reading `now`:
        stores `now` as its last-call time and adds one to its count (a
        missing count counting as 0); every other entry stays as it was. */
    method WillRefreshContext(moduleId: string, now: int)
      requires Valid()
      modifies this
      ensures Valid() && Log == old(Log) + [Record(Phase.WillRefreshContext, moduleId, now)]
      ensures willRefreshContext.callTime == old(willRefreshContext.callTime)[moduleId := now]
      ensures willRefreshContext.callCount == old(willRefreshContext.callCount)[moduleId := CountOf(old(willRefreshContext), moduleId) + 1]
      ensures contextRefreshed == old(contextRefreshed) && willStart == old(willStart) && started == old(started) && willStop == old(willStop) && stopped == old(stopped)
    {
      willRefreshContext := willRefreshContext.(callTime := willRefreshContext.callTime[moduleId := now]);

      var count := CountOf(willRefreshContext, moduleId);
      willRefreshContext := willRefreshContext.(callCount := willRefreshContext.callCount[moduleId := count + 1]);

      Log := Log + [Record(Phase.WillRefreshContext, moduleId, now)];
      StepKeepsValid(Record(Phase.WillRefreshContext, moduleId, now));
    }

    /** Notes that phase ContextRefreshed fired for `moduleId` at clock reading `now`:
        stores `now` as its last-call time and adds one to its count (a
        missing count counting as 0); every other entry stays as it was. */
    method ContextRefreshed(moduleId: string, now: int)
      requires Valid()
      modifies this
      ensures Valid() && Log == old(Log) + [Record(Phase.ContextRefreshed, moduleId, now)]
      ensures contextRefreshed.callTime == old(contextRefreshed.callTime)[moduleId := now]
      ensures contextRefreshed.callCount == old(contextRefreshed.callCount)[moduleId := CountOf(old(contextRefreshed), moduleId) + 1]
      ensures willRefreshContext == old(willRefreshContext) && willStart == old(willStart) && started == old(started) && willStop == old(willStop) && stopped == old(stopped)
    {
      contextRefreshed := contextRefreshed.(callTime := contextRefreshed.callTime[moduleId := now]);

      var count := CountOf(contextRefreshed, moduleId);
      contextRefreshed := contextRefreshed.(callCount := contextRefreshed.callCount[moduleId := count + 1]);

      Log := Log + [Record(Phase.ContextRefreshed, moduleId, now)];
      StepKeepsValid(Record(Phase.ContextRefreshed, moduleId, now));
    }

    /** Notes that phase WillStart fired for `moduleId` at clock reading `now`:
        stores `now` as its last-call time and adds one to its count (a
        missing count counting as 0); every other entry stays as it was. */
    method WillStart(moduleId: string, now: int)
      requires Valid()
      modifies this
      ensures Valid() && Log == old(Log) + [Record(Phase.WillStart, moduleId, now)]
      ensures willStart.callTime == old(willStart.callTime)[moduleId := now]
      ensures willStart.callCount == old(willStart.callCount)[moduleId := CountOf(old(willStart), moduleId) + 1]
      ensures willRefreshContext == old(willRefreshContext) && contextRefreshed == old(contextRefreshed) && started == old(started) && willStop == old(willStop) && stopped == old(stopped)
    {
      willStart := willStart.(callTime := willStart.callTime[moduleId := now]);

      var count := CountOf(willStart, moduleId);
      willStart := willStart.(callCount := willStart.callCount[moduleId := count + 1]);

      Log := Log + [Record(Phase.WillStart, moduleId, now)];
      StepKeepsValid(Record(Phase.WillStart, moduleId, now));
    }

    /** Notes that phase Started fired for `moduleId` at clock reading `now`:
        stores `now` as its last-call time and adds one to its count (a
        missing count counting as 0); every other entry stays as it was. */
    method Started(moduleId: string, now: int)
      requires Valid()
      modifies this
      ensures Valid() && Log == old(Log) + [Record(Phase.Started, moduleId, now)]
      ensures started.callTime == old(started.callTime)[moduleId := now]
      ensures started.callCount == old(started.callCount)[moduleId := CountOf(old(started), moduleId) + 1]
      ensures willRefreshContext == old(willRefreshContext) && contextRefreshed == old(contextRefreshed) && willStart == old(willStart) && willStop == old(willStop) && stopped == old(stopped)
    {
      started := started.(callTime := started.callTime[moduleId := now]);

      var count := CountOf(started, moduleId);
      started := started.(callCount := started.callCount[moduleId := count + 1]);

      Log := Log + [Record(Phase.Started, moduleId, now)];
      StepKeepsValid(Record(Phase.Started, moduleId, now));
    }

    /** Notes that phase WillStop fired for `moduleId` at clock reading `now`:
        stores `now` as its last-call time and adds one to its count (a
        missing count counting as 0); every other entry stays as it was. */
    method WillStop(moduleId: string, now: int)
      requires Valid()
      modifies this
      ensures Valid() && Log == old(Log) + [Record(Phase.WillStop, moduleId, now)]
      ensures willStop.callTime == old(willStop.callTime)[moduleId := now]
      ensures willStop.callCount == old(willStop.callCount)[moduleId := CountOf(old(willStop), moduleId) + 1]
      ensures willRefreshContext == old(willRefreshContext) && contextRefreshed == old(contextRefreshed) && willStart == old(willStart) && started == old(started) && stopped == old(stopped)
    {
      willStop := willStop.(callTime := willStop.callTime[moduleId := now]);

      var count := CountOf(willStop, moduleId);
      willStop := willStop.(callCount := willStop.callCount[moduleId := count + 1]);

      Log := Log + [Record(Phase.WillStop, moduleId, now)];
      StepKeepsValid(Record(Phase.WillStop, moduleId, now));
    }

    /** Notes that phase Stopped fired for `moduleId` at clock reading `now`:
        stores `now` as its last-call time and adds one to its count (a
        missing count counting as 0); every other entry stays as it was. */
    method Stopped(moduleId: string, now: int)
      requires Valid()
      modifies this
      ensures Valid() && Log == old(Log) + [Record(Phase.Stopped, moduleId, now)]
      ensures stopped.callTime == old(stopped.callTime)[moduleId := now]
      ensures stopped.callCount == old(stopped.callCount)[moduleId := CountOf(old(stopped), moduleId) + 1]
      ensures willRefreshContext == old(willRefreshContext) && contextRefreshed == old(contextRefreshed) && willStart == old(willStart) && started == old(started) && willStop == old(willStop)
    {
      stopped := stopped.(callTime := stopped.callTime[moduleId := now]);

      var count := CountOf(stopped, moduleId);
      stopped := stopped.(callCount := stopped.callCount[moduleId := count + 1]);

      Log := Log + [Record(Phase.Stopped, moduleId, now)];
      StepKeepsValid(Record(Phase.Stopped, moduleId, now));
    }

    // Count queries: a module id with no entry reads as 0.

    function GetWillRefreshContextCallCount(moduleId: string): (count: nat)
      reads this
      requires Valid()
      ensures count == CountAfter(Log, Phase.WillRefreshContext, moduleId)
    {
      CountOf(willRefreshContext, moduleId)
    }

    function GetContextRefreshedCallCount(moduleId: string): (count: nat)
      reads this
      requires Valid()
      ensures count == CountAfter(Log, Phase.ContextRefreshed, moduleId)
    {
      CountOf(contextRefreshed, moduleId)
    }

    function GetWillStartCallCount(moduleId: string): (count: nat)
      reads this
      requires Valid()
      ensures count == CountAfter(Log, Phase.WillStart, moduleId)
    {
      CountOf(willStart, moduleId)
    }

    function GetStartedCallCount(moduleId: string): (count: nat)
      reads this
      requires Valid()
      ensures count == CountAfter(Log, Phase.Started, moduleId)
    {
      CountOf(started, moduleId)
    }

    function GetWillStopCallCount(moduleId: string): (count: nat)
      reads this
      requires Valid()
      ensures count == CountAfter(Log, Phase.WillStop, moduleId)
    {
      CountOf(willStop, moduleId)
    }

    function GetStoppedCallCount(moduleId: string): (count: nat)
      reads this
      requires Valid()
      ensures count == CountAfter(Log, Phase.Stopped, moduleId)
    {
      CountOf(stopped, moduleId)
    }

    // Time queries: a module id with no entry reads as None (Java's null).

    function GetWillRefreshContextCallTime(moduleId: string): (time: Option<int>)
      reads this
      requires Valid()
      ensures time == TimeAfter(Log, Phase.WillRefreshContext, moduleId)
    {
      TimeOf(willRefreshContext, moduleId)
    }

    function GetContextRefreshedCallTime(moduleId: string): (time: Option<int>)
      reads this
      requires Valid()
      ensures time == TimeAfter(Log, Phase.ContextRefreshed, moduleId)
    {
      TimeOf(contextRefreshed, moduleId)
    }

    function GetWillStartCallTime(moduleId: string): (time: Option<int>)
      reads this
      requires Valid()
      ensures time == TimeAfter(Log, Phase.WillStart, moduleId)
    {
      TimeOf(willStart, moduleId)
    }

    function GetStartedCallTime(moduleId: string): (time: Option<int>)
      reads this
      requires Valid()
      ensures time == TimeAfter(Log, Phase.Started, moduleId)
    {
      TimeOf(started, moduleId)
    }

    function GetWillStopCallTime(moduleId: string): (time: Option<int>)
      reads this
      requires Valid()
      ensures time == TimeAfter(Log, Phase.WillStop, moduleId)
    {
      TimeOf(willStop, moduleId)
    }

    function GetStoppedCallTime(moduleId: string): (time: Option<int>)
      reads this
      requires Valid()
      ensures time == TimeAfter(Log, Phase.Stopped, moduleId)
    {
      TimeOf(stopped, moduleId)
    }
  }
}

/**
 * How a test uses the registry: reset one module, drive some phases, then
 * read the counts and times back, and record a phase for a module that was
 * never reset.
 */
module RegistryClient {
  import opened Lifecycle
  import opened ModuleRegistry

  method Scenario(t1: int, t2: int, t3: int)
  {
    var data := new ModuleTestData();
    data.Init("moduleA");
    assert data.GetWillStartCallCount("moduleA") == 0;
    assert data.GetWillStartCallTime("moduleA") == Some(0);

    data.WillStart("moduleA", t1);
    data.WillStart("moduleA", t2);
    InitThenRecordings([], "moduleA", Phase.WillStart, [t1, t2]);
    assert data.Log == [] + [Lifecycle.Init("moduleA")] + Recordings(Phase.WillStart, "moduleA", [t1, t2]);
    assert data.GetWillStartCallCount("moduleA") == 2;
    assert data.GetWillStartCallTime("moduleA") == Some(t2);
    assert data.GetStartedCallCount("moduleA") == 0;

    UntouchedIsDefault(data.Log, Phase.Stopped, "moduleB");
    data.Stopped("moduleB", t3);
    assert data.GetStoppedCallCount("moduleB") == 1;
    assert data.GetStoppedCallTime("moduleB") == Some(t3);

    UntouchedIsDefault(data.Log, Phase.Started, "moduleB");
    assert data.GetStartedCallCount("moduleB") == 0;
    assert data.GetStartedCallTime("moduleB") == None;
  }
}
