# Module lifecycle-callback registry (OpenMRS `ModuleTestData`)

This project models `ModuleTestData`, the registry that OpenMRS module tests use
to see which lifecycle callbacks the module runtime fired. A module passes
through six phases: willRefreshContext, contextRefreshed, willStart, started,
willStop and stopped. For each module id and each phase the registry keeps two
things. The first is how many times the phase was recorded. The second is the
wall-clock time of the latest recording. `init(moduleId)` resets all of them for
one module. One recorder per phase stores the current time and adds one to the
count, where a missing count counts as 0. Twelve getters read the counts back,
with a missing entry reading as 0, and the times back, with a missing entry
reading as null.

The project has two files:

- `lifecycle.dfy` (module `Lifecycle`) holds the vocabulary. That is the six
  phases, an `Option`, and an `Event` for each state-changing call (`Init(m)`,
  or `Record(p, m, now)`). It also holds a reference definition of what the
  registry must answer after any sequence of calls:
  - `CountAfter(h, p, m)` gives the count of phase `p` for module `m` after the
    history `h`.
  - `TimeAfter(h, p, m)` gives the last-call time as an `Option`.

  Lemmas about these functions state the registry's promises. They are
  defaults for unknown modules, reset by `init`, exact increments with no lost
  update, "latest recording wins" for the time, and idempotent `init`.
- `module_test_data.dfy` (module `ModuleRegistry`) holds the class
  `ModuleTestData`. It keeps a call-count map and a last-call-time map per
  phase, keyed by module id, and updates them in place:
  - `Init` and the six recorders are methods with `modifies this`.
  - The twelve getters are functions that only `read` the object, so no query
    changes a map.
  - A ghost field `Log` records the calls made so far.
  - `Valid()` ties every map entry to `CountAfter`/`TimeAfter` of `Log`. Each
    method keeps it, by way of the lemma `TracksStep`.
  - Each getter's postcondition says that the getter returns what the
    reference definition prescribes for the history of calls.

  A small client, `RegistryClient.Scenario`, shows two test scenarios. It resets
  `moduleA`, fires willStart twice and reads counts and times back. It then
  records stopped for `moduleB`, which was never reset, and reads back count 0
  and no time for `moduleB`'s started phase.

Conventions:

- The clock reading (`new Date().getTime()`) is a parameter `now: int` of each
  recorder.
- A Java `null` from a time getter is `None`. `init` stores `0L`
  (`ModuleTestData.java:54-59`), so a later time getter returns 0, not null.
  The model keeps this `Some(0)` distinct from `None`, so "never touched"
  stays distinct from "reset, not yet recorded".
- Every method is one atomic step, as its `synchronized` modifier makes it.

## Model

| member | source | states |
|---|---|---|
| `ModuleRegistry.ModuleTestData.constructor` | api/src/test/java/org/openmrs/module/ModuleTestData.java:9-35 | A new registry has all twelve maps empty and an empty history, and it satisfies the invariant. |
| `ModuleRegistry.ModuleTestData.Init` | api/src/test/java/org/openmrs/module/ModuleTestData.java:46-60 | Puts 0 into both maps of every phase at `moduleId` and leaves every other key unchanged. Afterwards all six counts of the module are 0 and all six times are `Some(0)`, whatever they were before. The invariant is kept. |
| `ModuleRegistry.ModuleTestData.WillRefreshContext` | api/src/test/java/org/openmrs/module/ModuleTestData.java:110-118 | Sets the willRefreshContext time of `moduleId` to `now`. Sets its count to the old count plus one, where a missing count is 0. The other five phases' maps are unchanged, and so is every other key. |
| `ModuleRegistry.ModuleTestData.ContextRefreshed` | api/src/test/java/org/openmrs/module/ModuleTestData.java:120-128 | Same as above for contextRefreshed. |
| `ModuleRegistry.ModuleTestData.WillStart` | api/src/test/java/org/openmrs/module/ModuleTestData.java:130-138 | Same as above for willStart. |
| `ModuleRegistry.ModuleTestData.Started` | api/src/test/java/org/openmrs/module/ModuleTestData.java:140-148 | Same as above for started. |
| `ModuleRegistry.ModuleTestData.WillStop` | api/src/test/java/org/openmrs/module/ModuleTestData.java:150-158 | Same as above for willStop. |
| `ModuleRegistry.ModuleTestData.Stopped` | api/src/test/java/org/openmrs/module/ModuleTestData.java:160-168 | Same as above for stopped. |
| `ModuleRegistry.ModuleTestData.GetWillRefreshContextCallCount` | api/src/test/java/org/openmrs/module/ModuleTestData.java:62-68 | Returns the willRefreshContext count that the history of calls prescribes: 0 if never touched, 0 at a reset, plus one per recording since. |
| `ModuleRegistry.ModuleTestData.GetContextRefreshedCallCount` | api/src/test/java/org/openmrs/module/ModuleTestData.java:70-76 | Same as above for contextRefreshed. |
| `ModuleRegistry.ModuleTestData.GetWillStartCallCount` | api/src/test/java/org/openmrs/module/ModuleTestData.java:78-84 | Same as above for willStart. |
| `ModuleRegistry.ModuleTestData.GetStartedCallCount` | api/src/test/java/org/openmrs/module/ModuleTestData.java:86-92 | Same as above for started. |
| `ModuleRegistry.ModuleTestData.GetWillStopCallCount` | api/src/test/java/org/openmrs/module/ModuleTestData.java:94-100 | Same as above for willStop. |
| `ModuleRegistry.ModuleTestData.GetStoppedCallCount` | api/src/test/java/org/openmrs/module/ModuleTestData.java:102-108 | Same as above for stopped. |
| `ModuleRegistry.ModuleTestData.GetWillRefreshContextCallTime` | api/src/test/java/org/openmrs/module/ModuleTestData.java:170-172 | Returns the willRefreshContext time that the history prescribes: `None` if never touched, `Some(0)` after a reset, `Some(now)` of the latest recording. |
| `ModuleRegistry.ModuleTestData.GetContextRefreshedCallTime` | api/src/test/java/org/openmrs/module/ModuleTestData.java:174-176 | Same as above for contextRefreshed. |
| `ModuleRegistry.ModuleTestData.GetWillStartCallTime` | api/src/test/java/org/openmrs/module/ModuleTestData.java:178-180 | Same as above for willStart. |
| `ModuleRegistry.ModuleTestData.GetStartedCallTime` | api/src/test/java/org/openmrs/module/ModuleTestData.java:182-184 | Same as above for started. |
| `ModuleRegistry.ModuleTestData.GetWillStopCallTime` | api/src/test/java/org/openmrs/module/ModuleTestData.java:186-188 | Same as above for willStop. |
| `ModuleRegistry.ModuleTestData.GetStoppedCallTime` | api/src/test/java/org/openmrs/module/ModuleTestData.java:190-192 | Same as above for stopped. |
| `ModuleRegistry.TracksStep` | api/src/test/java/org/openmrs/module/ModuleTestData.java:46-168 | Applying one call's puts to a phase's two maps keeps them equal, key by key, to what the history extended by that call prescribes. This covers `init`'s puts, a recording of that phase (read, default to 0, add one, put), and a recording of another phase (no change). |
| `Lifecycle.UntouchedIsDefault` | api/src/test/java/org/openmrs/module/ModuleTestData.java:62-68 | A (phase, module) pair that was never reset and never recorded has count 0 and time `None`. This holds even when other phases of the same module, or other modules, were recorded, because each phase's maps default on their own. |
| `Lifecycle.CountAcrossEvents` | api/src/test/java/org/openmrs/module/ModuleTestData.java:110-168 | While a module is not reset, its count of a phase grows by exactly the number of recordings of that phase for that module. Calls for other phases or modules, interleaved in any order, change nothing, and no update is lost. |
| `Lifecycle.TimeWithoutRecordings` | api/src/test/java/org/openmrs/module/ModuleTestData.java:110-168 | While a module is neither reset nor recorded for a phase, its time for that phase is unchanged by any other calls. |
| `Lifecycle.TimeOfLastRecording` | api/src/test/java/org/openmrs/module/ModuleTestData.java:110-168 | While a module is not reset, its time for a phase is the clock reading of the last recording of that phase for it. An earlier value is overwritten. |
| `Lifecycle.LastRecordingExists` | api/src/test/java/org/openmrs/module/ModuleTestData.java:110-168 | If a phase was recorded for a module at all in a run of calls, one of those recordings is the last. Its clock reading is then the time reported, so the time is always one of the captured readings. |
| `Lifecycle.AfterInit` | api/src/test/java/org/openmrs/module/ModuleTestData.java:46-60 | After `init(m)`, each count of `m` equals the number of recordings of that phase since the reset. Each time of `m` is 0 until that phase is first recorded. |
| `Lifecycle.InitThenRecordings` | api/src/test/java/org/openmrs/module/ModuleTestData.java:46-118 | `init(m)` followed by n recordings of phase `p` for `m` leaves the count at n. The time is the last clock reading, or 0 when n = 0. |
| `Lifecycle.InitIdempotent` | api/src/test/java/org/openmrs/module/ModuleTestData.java:46-60 | Calling `init(m)` twice in a row leaves every count and time of every module as one call does. |
| `Lifecycle.OccurrencesAppend` | api/src/test/java/org/openmrs/module/ModuleTestData.java:110-168 | Helper for `CountAcrossEvents` and `LastRecordingExists`, about the ghost counting function `Occurrences`: the number of recordings of a pair in two runs of calls is the sum of the numbers in each run. |
| `Lifecycle.NoOccurrences` | api/src/test/java/org/openmrs/module/ModuleTestData.java:110-168 | Helper for `AfterInit`, about `Occurrences`: a run of calls whose count of recordings of a pair is 0 contains no event that records that pair. |
| `Lifecycle.OccurrencesOfRecordings` | api/src/test/java/org/openmrs/module/ModuleTestData.java:110-118 | Helper for `InitThenRecordings`, about the ghost functions `Occurrences` and `Recordings`: n recordings of phase `p` for `m` hold exactly n recordings of that pair. |

## Left out

- `src/api/org/openmrs/api/hibernate/HibernateUserService.java` is not part of this model. It is Hibernate persistence over a database session, and its behaviour cannot be seen without the database.
- The lazy singleton (`ModuleTestDataHolder`, `getInstance` and the private constructor, `ModuleTestData.java:33-44`) is left out. It exists for JVM class loading. The model starts from one freshly constructed registry.
- `synchronized` and thread interleaving are left out. Each method is one atomic step. Concurrent recorders are therefore some order of the same events, and the history lemmas hold for any such order.
- The wall clock is a parameter `now`. The model does not assume the clock is monotonic. So it does not claim that a later time is never older than an earlier one.
- Counts are unbounded `nat` and times unbounded `int`. The Java `Integer` wrap of `count + 1` past 2^31-1 and the `Long` range are not modelled.
- Layout: the source has twelve separate map fields. In the model, each phase's count map and time map are one field of type `PhaseCalls`, so `willStart.callCount` is the source's `willStartCallCount` and `willStart.callTime` is its `willStartCallTime`. Each map is still updated in place by a put at one key. `Init` writes a phase's two maps in one assignment, while the source makes twelve separate puts. Nothing can observe the difference inside one synchronized call.
