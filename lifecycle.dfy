/**
 * The vocabulary of the lifecycle-callback registry, and a reference
 * definition of what the registry must report, given as a function of the
 * sequence of calls made to it.
 *
 * A registry is driven by two kinds of calls: `init(moduleId)`, which resets
 * every phase of one module, and one recorder per lifecycle phase, which
 * notes that the phase fired for a module at the current wall-clock time.
 * Every such call is one event of a history; `CountAfter` and `TimeAfter`
 * say, for a history, what the count and last-call-time queries must answer.
 */
module Lifecycle {

  datatype Option<T> = None | Some(value: T)

  /** The six lifecycle phases a module passes through. */
  datatype Phase =
    | WillRefreshContext
    | ContextRefreshed
    | WillStart
    | Started
    | WillStop
    | Stopped

  /** One call that changes the registry. `now` is the wall-clock reading
      (milliseconds since the epoch) taken by the recorder. */
  datatype Event =
    | Init(moduleId: string)
    | Record(phase: Phase, moduleId: string, now: int)

  /** `e` records phase `p` for module `m`. */
  predicate RecordsFor(e: Event, p: Phase, m: string)
  {
    e.Record? && e.phase == p && e.moduleId == m
  }

  /** `e` resets module `m`. */
  predicate Resets(e: Event, m: string)
  {
    e.Init? && e.moduleId == m
  }

  /** No event of `h` resets module `m`. */
  ghost predicate NoReset(h: seq<Event>, m: string)
  {
    forall i :: 0 <= i < |h| ==> !Resets(h[i], m)
  }

  /** The count of phase `p` for module `m` after the history `h`:
      an `Init(m)` sets it to 0, a recording of `p` for `m` adds one,
      every other event leaves it alone; a pair never touched has count 0. */
  ghost function CountAfter(h: seq<Event>, p: Phase, m: string): nat
  {
    if h == [] then 0
    else
      var rest := CountAfter(h[..|h| - 1], p, m);
      var e := h[|h| - 1];
      if Resets(e, m) then 0
      else if RecordsFor(e, p, m) then rest + 1
      else rest
  }

  /** The last-call time of phase `p` for module `m` after the history `h`:
      an `Init(m)` sets it to 0, a recording of `p` for `m` sets it to the
      recorder's clock reading; a pair never touched has no time at all. */
  ghost function TimeAfter(h: seq<Event>, p: Phase, m: string): Option<int>
  {
    if h == [] then None
    else
      var e := h[|h| - 1];
      if Resets(e, m) then Some(0)
      else if RecordsFor(e, p, m) then Some(e.now)
      else TimeAfter(h[..|h| - 1], p, m)
  }

  /** How many events of `rs` record phase `p` for module `m`, counted from
      the front (independently of the way `CountAfter` folds a history). */
  ghost function Occurrences(rs: seq<Event>, p: Phase, m: string): nat
  {
    if rs == [] then 0
    else (if RecordsFor(rs[0], p, m) then 1 else 0) + Occurrences(rs[1..], p, m)
  }

  /** The recordings of phase `p` for module `m` at the clock readings `times`. */
  ghost function Recordings(p: Phase, m: string, times: seq<int>): (rs: seq<Event>)
    ensures |rs| == |times|
    ensures forall i :: 0 <= i < |rs| ==> rs[i] == Record(p, m, times[i])
  {
    if times == [] then [] else [Record(p, m, times[0])] + Recordings(p, m, times[1..])
  }

  lemma {:induction false} OccurrencesAppend(a: seq<Event>, b: seq<Event>, p: Phase, m: string)
    ensures Occurrences(a + b, p, m) == Occurrences(a, p, m) + Occurrences(b, p, m)
  {
    if a != [] {
      assert (a + b)[1..] == a[1..] + b;
      OccurrencesAppend(a[1..], b, p, m);
    } else {
      assert a + b == b;
    }
  }

  /** A (phase, module) pair that was never reset nor recorded reads as
      count 0 and no time, whatever was recorded for other phases of the
      same module or for other modules. */
  lemma {:induction false} UntouchedIsDefault(h: seq<Event>, p: Phase, m: string)
    requires NoReset(h, m)
    requires forall i :: 0 <= i < |h| ==> !RecordsFor(h[i], p, m)
    ensures CountAfter(h, p, m) == 0
    ensures TimeAfter(h, p, m) == None
  {
    if h != [] {
      UntouchedIsDefault(h[..|h| - 1], p, m);
    }
  }

  /** As long as `m` is not reset, the count of `p` for `m` grows by exactly
      the number of recordings of `p` for `m`, whatever other phases and
      modules are recorded in between (no update is lost). */
  lemma {:induction false} CountAcrossEvents(h: seq<Event>, rs: seq<Event>, p: Phase, m: string)
    requires NoReset(rs, m)
    ensures CountAfter(h + rs, p, m) == CountAfter(h, p, m) + Occurrences(rs, p, m)
  {
    if rs == [] {
      assert h + rs == h;
    } else {
      var front, e := rs[..|rs| - 1], rs[|rs| - 1];
      assert rs == front + [e];
      assert (h + rs)[..|h + rs| - 1] == h + front;
      CountAcrossEvents(h, front, p, m);
      OccurrencesAppend(front, [e], p, m);
      assert Occurrences([e], p, m) == if RecordsFor(e, p, m) then 1 else 0 by {
        assert [e][1..] == [];
      }
    }
  }

  /** `rs[i]` is the last recording of phase `p` for module `m` in `rs`. */
  ghost predicate IsLastRecording(rs: seq<Event>, i: int, p: Phase, m: string)
  {
    && 0 <= i < |rs|
    && RecordsFor(rs[i], p, m)
    && forall j :: i < j < |rs| ==> !RecordsFor(rs[j], p, m)
  }

  /** As long as `m` is not reset and `p` is not recorded for `m`, the time
      of `p` for `m` stays what it was. */
  lemma {:induction false} TimeWithoutRecordings(h: seq<Event>, rs: seq<Event>, p: Phase, m: string)
    requires NoReset(rs, m)
    requires forall i :: 0 <= i < |rs| ==> !RecordsFor(rs[i], p, m)
    ensures TimeAfter(h + rs, p, m) == TimeAfter(h, p, m)
  {
    if rs != [] {
      var front := rs[..|rs| - 1];
      assert (h + rs)[..|h + rs| - 1] == h + front;
      TimeWithoutRecordings(h, front, p, m);
    } else {
      assert h + rs == h;
    }
  }

  /** As long as `m` is not reset, the time of `p` for `m` is the clock
      reading of the last recording of `p` for `m`: of the concurrent
      recordings that were serialised into `rs`, the latest one wins. */
  lemma {:induction false} TimeOfLastRecording(h: seq<Event>, rs: seq<Event>, i: int, p: Phase, m: string)
    requires NoReset(rs, m)
    requires IsLastRecording(rs, i, p, m)
    ensures TimeAfter(h + rs, p, m) == Some(rs[i].now)
  {
    var front, after := rs[..i + 1], rs[i + 1..];
    assert rs == front + after;
    assert h + rs == (h + front) + after;
    TimeWithoutRecordings(h + front, after, p, m);
    assert (h + front)[|h + front| - 1] == rs[i];
  }

  /** A sequence with some recording of `p` for `m` has a last one. */
  lemma {:induction false} LastRecordingExists(rs: seq<Event>, p: Phase, m: string)
    requires Occurrences(rs, p, m) > 0
    ensures exists i :: IsLastRecording(rs, i, p, m)
  {
    var front, e := rs[..|rs| - 1], rs[|rs| - 1];
    if RecordsFor(e, p, m) {
      assert IsLastRecording(rs, |rs| - 1, p, m);
    } else {
      assert rs == front + [e];
      OccurrencesAppend(front, [e], p, m);
      assert Occurrences([e], p, m) == 0 by {
        assert [e][1..] == [];
      }
      LastRecordingExists(front, p, m);
      var i :| IsLastRecording(front, i, p, m);
      assert IsLastRecording(rs, i, p, m);
    }
  }

  /** After `Init(m)` the count of every phase of `m` is the number of its
      recordings since, and its time stays 0 until it is first recorded. */
  lemma {:induction false} AfterInit(h: seq<Event>, m: string, rs: seq<Event>, p: Phase)
    requires NoReset(rs, m)
    ensures CountAfter(h + [Init(m)] + rs, p, m) == Occurrences(rs, p, m)
    ensures Occurrences(rs, p, m) == 0 ==> TimeAfter(h + [Init(m)] + rs, p, m) == Some(0)
  {
    var h' := h + [Init(m)];
    assert h'[..|h'| - 1] == h;
    CountAcrossEvents(h', rs, p, m);
    if Occurrences(rs, p, m) == 0 {
      NoOccurrences(rs, p, m);
      TimeWithoutRecordings(h', rs, p, m);
    }
  }

  lemma {:induction false} NoOccurrences(rs: seq<Event>, p: Phase, m: string)
    requires Occurrences(rs, p, m) == 0
    ensures forall i :: 0 <= i < |rs| ==> !RecordsFor(rs[i], p, m)
  {
    if rs != [] {
      NoOccurrences(rs[1..], p, m);
      assert forall i :: 1 <= i < |rs| ==> rs[i] == rs[1..][i - 1];
    }
  }

  lemma {:induction false} OccurrencesOfRecordings(p: Phase, m: string, times: seq<int>)
    ensures Occurrences(Recordings(p, m, times), p, m) == |times|
  {
    if times != [] {
      var rs := Recordings(p, m, times);
      assert rs[1..] == Recordings(p, m, times[1..]);
      OccurrencesOfRecordings(p, m, times[1..]);
    }
  }

  /** `init(m)` followed by n recordings of `p` for `m` leaves the count of
      `p` for `m` at n and its time at the last clock reading (0 if n = 0). */
  lemma {:induction false} InitThenRecordings(h: seq<Event>, m: string, p: Phase, times: seq<int>)
    ensures CountAfter(h + [Init(m)] + Recordings(p, m, times), p, m) == |times|
    ensures TimeAfter(h + [Init(m)] + Recordings(p, m, times), p, m)
         == if times == [] then Some(0) else Some(times[|times| - 1])
  {
    var rs := Recordings(p, m, times);
    OccurrencesOfRecordings(p, m, times);
    AfterInit(h, m, rs, p);
    if times != [] {
      var h' := h + [Init(m)] + rs;
      assert h'[|h'| - 1] == Record(p, m, times[|times| - 1]);
    }
  }

  /** Resetting a module twice in a row is the same as resetting it once,
      for every phase of every module. */
  lemma {:induction false} InitIdempotent(h: seq<Event>, m: string, p: Phase, n: string)
    ensures CountAfter(h + [Init(m), Init(m)], p, n) == CountAfter(h + [Init(m)], p, n)
    ensures TimeAfter(h + [Init(m), Init(m)], p, n) == TimeAfter(h + [Init(m)], p, n)
  {
    var once, twice := h + [Init(m)], h + [Init(m), Init(m)];
    assert twice[..|twice| - 1] == once;
    assert once[..|once| - 1] == h;
  }
}
