/** The decision half of the main loop: once a minute (immediately on the
    first pass) the loop reads the token file and the clock and decides
    whether to run syncAndPlay. It syncs once as soon as a token first
    appears, and afterwards at 04:00 once per calendar date. */
module Scheduler {
  import opened Text
  import opened Wrappers
  import opened ControlPlane

  /** The local time the loop reads; `today` is the "2006-01-02" rendering. */
  datatype Clock = Clock(hour: int, minute: int, today: string)

  /** What one pass reads: the token file, the token file again after the
      two-second wait (read only on the first pass), and the clock. */
  datatype Observation = Observation(jwtNow: Option<string>, jwtAfterWait: Option<string>, clock: Clock)

  /** The loop's own variables besides `first`. */
  datatype Sched = Sched(initialSyncDone: bool, lastRunDate: string)

  const Boot: Sched := Sched(false, "")

  datatype Trigger = Idle | InitialSync | DailySync

  /** The token the pass goes on with: the file's, or on the first pass the
      re-read after the wait when the first read was empty. */
  function TokenSeen(first: bool, o: Observation): string
  {
    var now := LoadJWT(o.jwtNow);
    if now == "" && first then LoadJWT(o.jwtAfterWait) else now
  }

  predicate Is4AM(c: Clock)
  {
    c.hour == 4 && c.minute == 0
  }

  /** One pass of the loop: the new variables and whether it syncs. */
  function Decide(s: Sched, first: bool, o: Observation): (Sched, Trigger)
  {
    if TokenSeen(first, o) == "" then (s, Idle)
    else if !s.initialSyncDone then (s.(initialSyncDone := true), InitialSync)
    else if Is4AM(o.clock) && o.clock.today != s.lastRunDate then (s.(lastRunDate := o.clock.today), DailySync)
    else (s, Idle)
  }

  /** Each outcome of a pass, with its exact condition and effect. */
  lemma DecideCases(s: Sched, first: bool, o: Observation)
    ensures var (s', t) := Decide(s, first, o);
      (t == InitialSync <==> TokenSeen(first, o) != "" && !s.initialSyncDone)
      && (t == DailySync <==>
            TokenSeen(first, o) != "" && s.initialSyncDone && Is4AM(o.clock) && o.clock.today != s.lastRunDate)
      && s'.initialSyncDone == (s.initialSyncDone || t == InitialSync)
      && s'.lastRunDate == (if t == DailySync then o.clock.today else s.lastRunDate)
  {
  }

  /** Only the first pass waits for the check-in: later passes never look
      at the second read. */
  lemma OnlyFirstPassWaits(s: Sched, o: Observation, later: Option<string>)
    ensures Decide(s, false, o) == Decide(s, false, o.(jwtAfterWait := later))
    ensures LoadJWT(o.jwtNow) != "" ==> Decide(s, true, o) == Decide(s, false, o)
  {
  }

  /** The triggers of a run of passes; `first` holds for the first only. */
  function Triggers(s: Sched, first: bool, obs: seq<Observation>): (ts: seq<Trigger>)
    ensures |ts| == |obs|
    decreases |obs|
  {
    if obs == [] then []
    else
      var d := Decide(s, first, obs[0]);
      [d.1] + Triggers(d.0, false, obs[1..])
  }

  /** A run is its first pass followed by the rest. */
  lemma TriggersCons(s: Sched, first: bool, obs: seq<Observation>)
    requires obs != []
    ensures Triggers(s, first, obs) ==
      [Decide(s, first, obs[0]).1] + Triggers(Decide(s, first, obs[0]).0, false, obs[1..])
  {
  }

  /** The rest of a run from pass i on is pass i followed by the rest. */
  lemma TriggersFrom(s: Sched, first: bool, obs: seq<Observation>, i: nat)
    requires i < |obs|
    ensures Triggers(s, first, obs[i..]) ==
      [Decide(s, first, obs[i]).1] + Triggers(Decide(s, first, obs[i]).0, false, obs[i + 1..])
  {
    assert obs[i..][0] == obs[i] && obs[i..][1..] == obs[i + 1..];
    TriggersCons(s, first, obs[i..]);
  }

  /** One more pass of a run in progress: `done` are the triggers of the
      passes before index i, `s` the loop variables after them. */
  lemma TriggersStep(s0: Sched, obs: seq<Observation>, done: seq<Trigger>, s: Sched, i: nat)
    requires i < |obs| && done + Triggers(s, i == 0, obs[i..]) == Triggers(s0, true, obs)
    ensures done + [Decide(s, i == 0, obs[i]).1] + Triggers(Decide(s, i == 0, obs[i]).0, false, obs[i + 1..])
      == Triggers(s0, true, obs)
  {
    var d := Decide(s, i == 0, obs[i]);
    var rest := Triggers(d.0, false, obs[i + 1..]);
    TriggersFrom(s, i == 0, obs, i);
    TriggersAssoc(done, d.1, rest);
  }

  lemma TriggersAssoc(done: seq<Trigger>, t: Trigger, rest: seq<Trigger>)
    ensures done + [t] + rest == done + ([t] + rest)
  {
  }

  /** Once the initial sync has happened it never happens again. */
  lemma {:induction false} NoSecondInitialSync(s: Sched, first: bool, obs: seq<Observation>)
    requires s.initialSyncDone
    ensures forall j :: 0 <= j < |obs| ==> Triggers(s, first, obs)[j] != InitialSync
    decreases |obs|
  {
    if obs != [] {
      var s' := Decide(s, first, obs[0]).0;
      var t := Decide(s, first, obs[0]).1;
      NoSecondInitialSync(s', false, obs[1..]);
      NoInitialStep(t, Triggers(s', false, obs[1..]));
    }
  }

  /** One step of NoSecondInitialSync, on the triggers alone. */
  lemma NoInitialStep(t: Trigger, rest: seq<Trigger>)
    requires t != InitialSync && forall k :: 0 <= k < |rest| ==> rest[k] != InitialSync
    ensures forall j :: 0 <= j < |[t] + rest| ==> ([t] + rest)[j] != InitialSync
  {
    var ts := [t] + rest;
    forall j | 1 <= j < |ts| ensures ts[j] != InitialSync {
      assert ts[j] == rest[j - 1];
    }
  }

  /** Some pass up to j ran the initial sync. */
  predicate InitialBy(ts: seq<Trigger>, j: int)
  {
    exists i :: 0 <= i <= j && i < |ts| && ts[i] == InitialSync
  }

  /** One step of InitialSyncComesFirst, on the triggers alone. */
  lemma ComesFirstStep(t: Trigger, rest: seq<Trigger>)
    requires t == InitialSync || (t == Idle && forall k :: 0 <= k < |rest| && rest[k] != Idle ==> InitialBy(rest, k))
    ensures forall j :: 0 <= j < |[t] + rest| && ([t] + rest)[j] != Idle ==> InitialBy([t] + rest, j)
  {
    var ts := [t] + rest;
    forall j | 0 <= j < |ts| && ts[j] != Idle ensures InitialBy(ts, j) {
      if t == InitialSync {
        assert ts[0] == InitialSync;
      } else {
        assert rest[j - 1] == ts[j];
        var i :| 0 <= i <= j - 1 && i < |rest| && rest[i] == InitialSync;
        assert ts[i + 1] == InitialSync;
      }
    }
  }

  /** Before the initial sync nothing else runs: the first pass that syncs
      is the initial sync. */
  lemma {:induction false} InitialSyncComesFirst(s: Sched, first: bool, obs: seq<Observation>)
    requires !s.initialSyncDone
    ensures forall j :: 0 <= j < |obs| && Triggers(s, first, obs)[j] != Idle ==> InitialBy(Triggers(s, first, obs), j)
    decreases |obs|
  {
    if obs != [] {
      var s' := Decide(s, first, obs[0]).0;
      var t := Decide(s, first, obs[0]).1;
      DecideBeforeInitial(s, first, obs[0]);
      if t != InitialSync {
        InitialSyncComesFirst(s', false, obs[1..]);
      }
      ComesFirstStep(t, Triggers(s', false, obs[1..]));
    }
  }

  /** The initial sync happens at most once in any run. */
  lemma {:induction false} InitialSyncOnce(s: Sched, first: bool, obs: seq<Observation>)
    ensures forall i, j :: 0 <= i < j < |obs| && Triggers(s, first, obs)[i] == InitialSync ==>
      Triggers(s, first, obs)[j] != InitialSync
    decreases |obs|
  {
    if obs != [] {
      var ts := Triggers(s, first, obs);
      var s' := Decide(s, first, obs[0]).0;
      var t := Decide(s, first, obs[0]).1;
      var rest := Triggers(s', false, obs[1..]);
      assert ts == [t] + rest;
      InitialSyncOnce(s', false, obs[1..]);
      if t == InitialSync {
        NoSecondInitialSync(s', false, obs[1..]);
      }
      forall i, j | 0 <= i < j < |ts| && ts[i] == InitialSync
        ensures ts[j] != InitialSync
      {
        assert ts[j] == rest[j - 1];
        if i > 0 {
          assert ts[i] == rest[i - 1];
        }
      }
    }
  }

  /** `a` is the same date as `b` or an earlier one; "2006-01-02" strings
      order like the dates they render. */
  predicate NotAfter(a: string, b: string)
  {
    a == b || Below(a, b)
  }

  predicate DatesNonDecreasing(obs: seq<Observation>)
  {
    forall i, j :: 0 <= i < j < |obs| ==> NotAfter(obs[i].clock.today, obs[j].clock.today)
  }

  predicate NoDateBefore(d: string, obs: seq<Observation>)
  {
    forall k :: 0 <= k < |obs| ==> NotAfter(d, obs[k].clock.today)
  }

  lemma NotAfterAntisymmetric(a: string, b: string)
    requires NotAfter(a, b) && NotAfter(b, a)
    ensures a == b
  {
    if a != b {
      BelowAsymmetric(a, b);
    }
  }

  lemma NotAfterTransitive(a: string, b: string, c: string)
    requires NotAfter(a, b) && NotAfter(b, c)
    ensures NotAfter(a, c)
  {
    if a != b && b != c {
      BelowTransitive(a, b, c);
    }
  }

  /** The ordering facts carry over to the rest of a run after one pass. */
  lemma TailFacts(s: Sched, first: bool, obs: seq<Observation>)
    requires obs != [] && DatesNonDecreasing(obs) && NoDateBefore(s.lastRunDate, obs)
    ensures DatesNonDecreasing(obs[1..])
    ensures NoDateBefore(Decide(s, first, obs[0]).0.lastRunDate, obs[1..])
  {
    var tail := obs[1..];
    var d := Decide(s, first, obs[0]).0.lastRunDate;
    assert d == s.lastRunDate || d == obs[0].clock.today;
    forall i, j | 0 <= i < j < |tail| ensures NotAfter(tail[i].clock.today, tail[j].clock.today) {
      assert tail[i] == obs[i + 1] && tail[j] == obs[j + 1];
    }
    forall k | 0 <= k < |tail| ensures NotAfter(d, tail[k].clock.today) {
      assert tail[k] == obs[k + 1];
    }
  }

  /** A pass before the initial sync either runs it or changes nothing. */
  lemma DecideBeforeInitial(s: Sched, first: bool, o: Observation)
    requires !s.initialSyncDone
    ensures Decide(s, first, o).1 == InitialSync || Decide(s, first, o) == (s, Idle)
  {
  }

  /** While the clock does not run backwards, no daily sync repeats the date
      of the last one before the run. */
  lemma {:induction false} DailyAvoidsLastDate(s: Sched, first: bool, obs: seq<Observation>)
    requires DatesNonDecreasing(obs) && NoDateBefore(s.lastRunDate, obs)
    ensures forall j :: 0 <= j < |obs| && Triggers(s, first, obs)[j] == DailySync ==>
      obs[j].clock.today != s.lastRunDate
    decreases |obs|
  {
    if obs != [] {
      var ts := Triggers(s, first, obs);
      var s' := Decide(s, first, obs[0]).0;
      var t := Decide(s, first, obs[0]).1;
      var tail := obs[1..];
      TailFacts(s, first, obs);
      DailyAvoidsLastDate(s', false, tail);
      forall j | 0 <= j < |obs| && ts[j] == DailySync
        ensures obs[j].clock.today != s.lastRunDate
      {
        if j > 0 {
          assert ts[j] == Triggers(s', false, tail)[j - 1];
          assert obs[j] == tail[j - 1];
          if t == DailySync && obs[j].clock.today == s.lastRunDate {
            var d0 := obs[0].clock.today;
            assert NotAfter(s.lastRunDate, d0);
            assert NotAfter(d0, obs[j].clock.today);
            NotAfterAntisymmetric(s.lastRunDate, d0);
            assert false;
          }
        }
      }
    }
  }

  /** One step of DailyOncePerDate, on the triggers and dates alone. */
  lemma DailyStep(t: Trigger, rest: seq<Trigger>, o0: Observation, tail: seq<Observation>)
    requires |rest| == |tail|
    requires forall i, j :: 0 <= i < j < |tail| && rest[i] == DailySync && rest[j] == DailySync ==>
      tail[i].clock.today != tail[j].clock.today
    requires t == DailySync ==>
      forall j :: 0 <= j < |tail| && rest[j] == DailySync ==> tail[j].clock.today != o0.clock.today
    ensures forall i, j :: 0 <= i < j < |[o0] + tail| && ([t] + rest)[i] == DailySync && ([t] + rest)[j] == DailySync ==>
      ([o0] + tail)[i].clock.today != ([o0] + tail)[j].clock.today
  {
    var ts := [t] + rest;
    var obs := [o0] + tail;
    forall i, j | 0 <= i < j < |obs| && ts[i] == DailySync && ts[j] == DailySync
      ensures obs[i].clock.today != obs[j].clock.today
    {
      assert ts[j] == rest[j - 1] && obs[j] == tail[j - 1];
      if i > 0 {
        assert ts[i] == rest[i - 1] && obs[i] == tail[i - 1];
      }
    }
  }

  /** While the clock does not run backwards, two daily syncs of one run
      never share a date: the 04:00 sync runs at most once a day. */
  lemma {:induction false} DailyOncePerDate(s: Sched, first: bool, obs: seq<Observation>)
    requires DatesNonDecreasing(obs) && NoDateBefore(s.lastRunDate, obs)
    ensures var ts := Triggers(s, first, obs);
      forall i, j :: 0 <= i < j < |obs| && ts[i] == DailySync && ts[j] == DailySync ==>
        obs[i].clock.today != obs[j].clock.today
    decreases |obs|
  {
    if obs != [] {
      var s' := Decide(s, first, obs[0]).0;
      var t := Decide(s, first, obs[0]).1;
      var tail := obs[1..];
      TailFacts(s, first, obs);
      DailyOncePerDate(s', false, tail);
      DailyAvoidsLastDate(s', false, tail);
      var rest := Triggers(s', false, tail);
      TriggersCons(s, first, obs);
      assert t == DailySync ==> s'.lastRunDate == obs[0].clock.today;
      DailyStep(t, rest, obs[0], tail);
      assert obs == [obs[0]] + tail;
    }
  }

  /** From boot, "" precedes every date, so the once-a-day rule holds over
      the whole life of the loop. */
  lemma DailyOncePerDateFromBoot(obs: seq<Observation>)
    requires DatesNonDecreasing(obs)
    requires forall k :: 0 <= k < |obs| ==> obs[k].clock.today != ""
    ensures var ts := Triggers(Boot, true, obs);
      forall i, j :: 0 <= i < j < |obs| && ts[i] == DailySync && ts[j] == DailySync ==>
        obs[i].clock.today != obs[j].clock.today
  {
    assert NoDateBefore("", obs);
    DailyOncePerDate(Boot, true, obs);
  }

  /** A pass with a token at 04:00 on date d. */
  function At4AM(d: string): Observation
  {
    Observation(Some("t"), None, Clock(4, 0, d))
  }

  lemma At4AMHasToken(first: bool, d: string)
    ensures TokenSeen(first, At4AM(d)) == "t"
  {
    assert TrimLeftSpace("t") == "t";
  }

  /** A run whose first pass leads from s to s' with trigger t. */
  lemma RunStep(s: Sched, first: bool, o: Observation, rest: seq<Observation>, s': Sched, t: Trigger)
    requires Decide(s, first, o) == (s', t)
    ensures Triggers(s, first, [o] + rest) == [t] + Triggers(s', false, rest)
  {
    assert ([o] + rest)[0] == o && ([o] + rest)[1..] == rest;
  }

  /** The loop remembers only the last date it synced on, so a clock set
      back to an earlier date repeats that date's 04:00 sync: passes at
      04:00 on d1, d2 and d1 again after the initial sync run three daily
      syncs, two of them on d1. */
  lemma ClockBackRepeatsDate(d1: string, d2: string)
    requires d1 != "" && d2 != "" && d1 != d2
    ensures var obs := [At4AM(d1), At4AM(d1), At4AM(d2), At4AM(d1)];
      Triggers(Boot, true, obs) == [InitialSync, DailySync, DailySync, DailySync]
      && obs[1].clock.today == obs[3].clock.today
  {
    var o1, o2 := At4AM(d1), At4AM(d2);
    At4AMHasToken(true, d1);
    At4AMHasToken(false, d1);
    At4AMHasToken(false, d2);
    var s1, s2, s3 := Sched(true, ""), Sched(true, d1), Sched(true, d2);
    RunStep(s3, false, o1, [], s2, DailySync);
    RunStep(s2, false, o2, [o1], s3, DailySync);
    RunStep(s1, false, o1, [o2, o1], s2, DailySync);
    RunStep(Boot, true, o1, [o1, o2, o1], s1, InitialSync);
  }

  /** After the initial sync a pass syncs only at 04:00 on a date other than
      the last one synced on, whatever the initial sync achieved: a first
      sync that failed (fetch error, empty manifest, nothing downloaded) is
      not retried before the next 04:00. */
  lemma {:induction false} NoRetryBefore4AM(s: Sched, first: bool, obs: seq<Observation>)
    requires s.initialSyncDone
    ensures forall j :: 0 <= j < |obs| && Triggers(s, first, obs)[j] != Idle ==>
      Triggers(s, first, obs)[j] == DailySync && Is4AM(obs[j].clock)
    decreases |obs|
  {
    if obs != [] {
      var ts := Triggers(s, first, obs);
      var s' := Decide(s, first, obs[0]).0;
      var tail := obs[1..];
      NoRetryBefore4AM(s', false, tail);
      forall j | 0 <= j < |obs| && ts[j] != Idle
        ensures ts[j] == DailySync && Is4AM(obs[j].clock)
      {
        if j > 0 {
          assert ts[j] == Triggers(s', false, tail)[j - 1] && obs[j] == tail[j - 1];
        }
      }
    }
  }
}
