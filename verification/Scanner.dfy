/**
 * handleScan and the reset effect of apps/mobile/src/components/BarcodeScanner.tsx. Times are milliseconds;
 * a timer fires at or after its due time, and a scan's promise settles whenever it likes.
 */
module Scanner {
  const PER_CODE_COOLDOWN_MS: nat := 2500
  const SCAN_LOCK_TAIL_MS: nat := 600

  datatype Accept = Accept(code: string, time: nat)

  /** `running` are the onScanned calls not yet settled, `timers` the due times of unlocks not yet fired. */
  datatype State = State(
    locked: bool, recent: map<string, nat>, running: seq<string>, timers: seq<nat>,
    accepts: seq<Accept>, settles: seq<nat>)

  datatype Event =
    | Scan(code: string, now: nat)
    | Settle(which: nat, now: nat)
    | Fire(which: nat, now: nat)

  function Without<T>(xs: seq<T>, i: nat): (r: seq<T>)
    requires i < |xs|
    ensures |r| == |xs| - 1
  {
    xs[..i] + xs[i + 1..]
  }

  /** The guards at the head of `handleScan`. */
  predicate Accepts(s: State, code: string, now: nat) {
    code != "" && !s.locked && !(code in s.recent && now - s.recent[code] < PER_CODE_COOLDOWN_MS)
  }

  function Step(s: State, e: Event): State {
    match e
    case Scan(code, now) =>
      if !Accepts(s, code, now) then s
      else s.(recent := s.recent[code := now], locked := true, running := s.running + [code],
              accepts := s.accepts + [Accept(code, now)])
    case Settle(i, now) =>
      if i >= |s.running| then s
      else s.(running := Without(s.running, i), timers := s.timers + [now + SCAN_LOCK_TAIL_MS],
              settles := s.settles + [now])
    case Fire(i, now) =>
      if i >= |s.timers| || now < s.timers[i] then s
      else s.(timers := Without(s.timers, i), locked := false)
  }

  /** The scanner was closed: lock and cooldowns are forgotten, running calls and timers are not. */
  function Reset(s: State): State {
    s.(locked := false, recent := map[], accepts := [], settles := [])
  }

  function Run(s: State, events: seq<Event>): State {
    if events == [] then s else Step(Run(s, events[..|events| - 1]), events[|events| - 1])
  }

  ghost predicate Timely(events: seq<Event>) {
    forall i, j :: 0 <= i < j < |events| ==> events[i].now <= events[j].now
  }

  function LastTime(events: seq<Event>): nat {
    if events == [] then 0 else events[|events| - 1].now
  }

  // ----- the component

  class BarcodeScanner {
    var locked: bool
    var recent: map<string, nat>
    var running: seq<string>
    var timers: seq<nat>
    ghost var accepts: seq<Accept>
    ghost var settles: seq<nat>

    ghost function View(): State
      reads this
    {
      State(locked, recent, running, timers, accepts, settles)
    }

    /** `handleScan` up to its `await`. */
    method HandleScan(code: string, now: nat)
      modifies this
      ensures View() == Step(old(View()), Scan(code, now))
    {
      if code == "" || locked { return; }
      if code in recent && now - recent[code] < PER_CODE_COOLDOWN_MS { return; }
      recent := recent[code := now];
      locked := true;
      running := running + [code];
      accepts := accepts + [Accept(code, now)];
    }

    /** The `finally` block: it runs whether the scan was kept, closed the scanner or threw. */
    method ScanSettled(which: nat, now: nat)
      requires which < |running|
      modifies this
      ensures View() == Step(old(View()), Settle(which, now))
    {
      running := Without(running, which);
      timers := timers + [now + SCAN_LOCK_TAIL_MS];
      settles := settles + [now];
    }

    method TimerFired(which: nat, now: nat)
      requires which < |timers| && timers[which] <= now
      modifies this
      ensures View() == Step(old(View()), Fire(which, now))
    {
      timers := Without(timers, which);
      locked := false;
    }

    method OnHidden()
      modifies this
      ensures View() == Reset(old(View()))
    {
      locked := false;
      recent := map[];
      accepts, settles := [], [];
    }
  }

  // ----- one opening

  /** Nothing is left over from an earlier opening. */
  predicate NothingLeft(s: State) {
    s.running == [] && s.timers == []
  }

  /** Accepts and settles alternate, and each accept after a settle waits for the tail of 600 ms. */
  ghost predicate Spaced(s: State) {
    && |s.settles| <= |s.accepts| <= |s.settles| + 1
    && forall i :: 0 <= i < |s.settles| && i + 1 < |s.accepts| ==> s.accepts[i + 1].time >= s.settles[i] + 600
  }

  ghost predicate CooledDown(s: State) {
    forall i, j :: 0 <= i < j < |s.accepts| && s.accepts[i].code == s.accepts[j].code ==>
      s.accepts[j].time - s.accepts[i].time >= 2500
  }

  ghost predicate Inv(s: State) {
    && |s.running| + |s.timers| == (if s.locked then 1 else 0)
    && |s.accepts| == |s.settles| + |s.running|
    && (s.timers != [] ==> s.settles != [] && s.timers[0] == s.settles[|s.settles| - 1] + SCAN_LOCK_TAIL_MS)
    && Spaced(s) && CooledDown(s)
    && (forall i :: 0 <= i < |s.accepts| ==>
          s.accepts[i].code in s.recent && s.accepts[i].time <= s.recent[s.accepts[i].code])
    && (forall code :: code in s.recent ==> Accept(code, s.recent[code]) in s.accepts)
  }

  /** The tail of the last settle is over: nothing running, nothing due. */
  ghost predicate TailOver(s: State, now: nat) {
    !s.locked && s.settles != [] ==> now >= s.settles[|s.settles| - 1] + SCAN_LOCK_TAIL_MS
  }

  lemma ScanKeepsInv(s: State, code: string, now: nat)
    requires Inv(s) && TailOver(s, now)
    ensures Inv(Step(s, Scan(code, now))) && TailOver(Step(s, Scan(code, now)), now)
  {
    if Accepts(s, code, now) {
      var s' := Step(s, Scan(code, now));
      forall i, j | 0 <= i < j < |s'.accepts| && s'.accepts[i].code == s'.accepts[j].code
        ensures s'.accepts[j].time - s'.accepts[i].time >= PER_CODE_COOLDOWN_MS
      {
        if j < |s.accepts| {
          assert s'.accepts[i] == s.accepts[i] && s'.accepts[j] == s.accepts[j];
        } else {
          assert s'.accepts[i] == s.accepts[i] && s'.accepts[j] == Accept(code, now);
        }
      }
    }
  }

  lemma StepKeepsInv(s: State, e: Event)
    requires Inv(s) && TailOver(s, e.now)
    ensures Inv(Step(s, e)) && TailOver(Step(s, e), e.now)
  {
    match e
    case Scan(code, now) => ScanKeepsInv(s, code, now);
    case Settle(i, now) =>
    case Fire(i, now) =>
  }

  lemma {:induction false} RunKeepsInv(s: State, events: seq<Event>)
    requires NothingLeft(s) && Timely(events)
    ensures Inv(Run(Reset(s), events)) && TailOver(Run(Reset(s), events), LastTime(events))
  {
    if events != [] {
      var n := |events| - 1;
      RunKeepsInv(s, events[..n]);
      assert LastTime(events[..n]) <= events[n].now;
      StepKeepsInv(Run(Reset(s), events[..n]), events[n]);
    }
  }

  /**
   * In an opening that starts with nothing left over: no two scans overlap, the next one is accepted 600 ms
   * or more after the previous one settled, and one code is accepted at most once in 2500 ms.
   */
  lemma {:induction false} ScansAreSafe(s: State, events: seq<Event>)
    requires NothingLeft(s) && Timely(events)
    ensures |Run(Reset(s), events).running| <= 1
    ensures Spaced(Run(Reset(s), events)) && CooledDown(Run(Reset(s), events))
  {
    RunKeepsInv(s, events);
  }

  /** A code was accepted less than 2500 ms ago. */
  ghost predicate SeenLately(s: State, code: string, now: nat) {
    exists i :: 0 <= i < |s.accepts| && s.accepts[i].code == code && now - s.accepts[i].time < 2500
  }

  /** In such an opening a code is handled exactly when nothing runs, no tail is pending and it was not seen lately. */
  lemma {:induction false} AcceptedExactlyWhenFree(s: State, events: seq<Event>, code: string, now: nat)
    requires NothingLeft(s) && Timely(events + [Scan(code, now)])
    ensures var t := Run(Reset(s), events);
            var t' := Step(t, Scan(code, now));
            if code != "" && NothingLeft(t) && !SeenLately(t, code, now)
            then t'.accepts == t.accepts + [Accept(code, now)] && t'.running == [code] && t'.timers == []
            else t' == t
  {
    var all := events + [Scan(code, now)];
    assert Timely(events) by {
      forall i, j | 0 <= i < j < |events| ensures events[i].now <= events[j].now {
        assert all[i] == events[i] && all[j] == events[j];
      }
    }
    RunKeepsInv(s, events);
    var t := Run(Reset(s), events);
    FreeMeansAccepted(t, code, now);
    assert t.running == [] ==> t.running + [code] == [code];
  }

  lemma FreeMeansAccepted(t: State, code: string, now: nat)
    requires Inv(t)
    ensures Accepts(t, code, now) <==> code != "" && NothingLeft(t) && !SeenLately(t, code, now)
  {
    if code in t.recent {
      var i :| 0 <= i < |t.accepts| && t.accepts[i] == Accept(code, t.recent[code]);
      assert now - t.recent[code] < PER_CODE_COOLDOWN_MS ==> SeenLately(t, code, now);
    }
  }

  /** The tail is 600 ms to the millisecond: until then the timer that a settled scan starts unlocks nothing. */
  lemma {:induction false} TailIsExact(s: State, events: seq<Event>, settled: nat, now: nat)
    requires NothingLeft(s) && Timely(events) && Run(Reset(s), events).running != []
    ensures var t := Step(Run(Reset(s), events), Settle(0, settled));
            && !NothingLeft(t)
            && (NothingLeft(Step(t, Fire(0, now))) <==> now >= settled + 600)
            && (now < settled + 600 ==> Step(t, Fire(0, now)) == t)
  {
    RunKeepsInv(s, events);
  }

  // ----- why nothing may be left over

  ghost predicate NeverOverlaps(s: State) {
    forall events: seq<Event> :: Timely(events) ==> |Run(s, events).running| <= 1
  }

  lemma {:induction false} RunOne(s: State, a: Event)
    ensures Run(s, [a]) == Step(s, a)
  {
    assert [a][..0] == [];
    assert Run(s, []) == s;
  }

  lemma {:induction false} RunThree(s: State, a: Event, b: Event, c: Event)
    ensures Run(s, [a, b, c]) == Step(Step(Step(s, a), b), c)
  {
    RunOne(s, a);
    assert [a, b][..1] == [a];
    assert [a, b, c][..2] == [a, b];
    assert Run(s, [a, b]) == Step(Step(s, a), b);
  }

  lemma LeftoverScanOverlaps(s: State)
    requires s.running != []
    ensures !NeverOverlaps(Reset(s))
  {
    var events := [Scan("a", 0)];
    RunOne(Reset(s), events[0]);
    assert Timely(events) && |Run(Reset(s), events).running| >= 2;
  }

  /** The old timer unlocks while a new scan is still running. */
  lemma LeftoverTimerOverlaps(s: State)
    requires s.timers != []
    ensures !NeverOverlaps(Reset(s))
  {
    var due := s.timers[0];
    var events := [Scan("a", due), Fire(0, due), Scan("b", due)];
    RunThree(Reset(s), events[0], events[1], events[2]);
    assert Timely(events) && |Run(Reset(s), events).running| >= 2;
  }

  /** Scans of a reopened scanner never overlap if and only if no scan and no timer was left over. */
  lemma SafeExactlyWhenNothingLeft(s: State)
    ensures NeverOverlaps(Reset(s)) <==> NothingLeft(s)
  {
    if NothingLeft(s) {
      forall events: seq<Event> | Timely(events) ensures |Run(Reset(s), events).running| <= 1 {
        ScansAreSafe(s, events);
      }
    } else if s.running != [] {
      LeftoverScanOverlaps(s);
    } else {
      LeftoverTimerOverlaps(s);
    }
  }
}
