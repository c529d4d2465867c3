/**
 * apps/mobile/src/lib/login-protection.ts and the order of steps in onLogin of
 * apps/mobile/app/(auth)/login.tsx. Clock readings are milliseconds; every storage call may fail,
 * and a failed call is swallowed exactly where the source swallows it.
 */
module LoginLockout {
  import opened Options

  const MAX_FAILED_ATTEMPTS := 5
  const LOCKOUT_DURATION_MS := 15 * 60 * 1000

  datatype AttemptRecord = AttemptRecord(failedAttempts: nat, lastFailedAt: nat, lockedUntil: Option<nat>)

  type Store = map<string, AttemptRecord>

  datatype Check = Check(locked: bool, minutesRemaining: int)

  /** The server's answer: only 400, 401 and 403 count as a rejection. */
  datatype Outcome = Accepted | Rejected | OtherError

  /** Which storage calls succeed during one attempt: reads, the write, and the deletes. */
  datatype Storage = Storage(firstRead: bool, recordRead: bool, lastRead: bool, write: bool, delete: bool)

  /** One press of the login button with the clock readings it makes, in order. */
  datatype Attempt = Attempt(
    key: string, filled: bool, outcome: Outcome, storage: Storage,
    checkedAt: nat, failedAt: nat, lockedAt: nat, recheckedAt: nat)

  datatype Alert = NoAlert | Incomplete | Locked(minutes: int) | LoginFailed | Unreachable

  datatype Event = Failure(key: string, time: nat) | Success(key: string, time: nat)

  // ----- the library, on values

  function Read(store: Store, key: string, ok: bool): Option<AttemptRecord> {
    if ok && key in store then Some(store[key]) else None
  }

  /** `record.lockedUntil &&`: a stored zero counts as no lock. */
  predicate HasLock(r: AttemptRecord) {
    r.lockedUntil.Some? && r.lockedUntil.value != 0
  }

  predicate LockedAt(store: Store, key: string, now: nat) {
    key in store && HasLock(store[key]) && now < store[key].lockedUntil.value
  }

  function MinutesUntil(until: nat, now: nat): int {
    (until - now + 59999) / 60000
  }

  function CheckOf(store: Store, key: string, now: nat, readOk: bool): (c: Check)
    ensures !c.locked ==> c.minutesRemaining == 0
  {
    match Read(store, key, readOk)
    case None => Check(false, 0)
    case Some(r) =>
      if HasLock(r) && now < r.lockedUntil.value
      then Check(true, MinutesUntil(r.lockedUntil.value, now))
      else Check(false, 0)
  }

  function Cleared(store: Store, key: string, deleteOk: bool): Store {
    if deleteOk then store - {key} else store
  }

  function AfterCheck(store: Store, key: string, now: nat, readOk: bool, deleteOk: bool): Store {
    match Read(store, key, readOk)
    case None => store
    case Some(r) =>
      if HasLock(r) && now >= r.lockedUntil.value then Cleared(store, key, deleteOk) else store
  }

  function NextRecord(old_: Option<AttemptRecord>, failedAt: nat, lockedAt: nat): AttemptRecord {
    match old_
    case None => AttemptRecord(1, failedAt, None)
    case Some(r) =>
      var n := r.failedAttempts + 1;
      AttemptRecord(n, failedAt,
        if n >= MAX_FAILED_ATTEMPTS then Some(lockedAt + LOCKOUT_DURATION_MS) else r.lockedUntil)
  }

  function AfterFailed(store: Store, key: string, failedAt: nat, lockedAt: nat, readOk: bool, writeOk: bool): Store {
    if writeOk then store[key := NextRecord(Read(store, key, readOk), failedAt, lockedAt)] else store
  }

  // ----- one press of the button

  datatype Result = Result(store: Store, alert: Alert, sent: bool, events: seq<Event>)

  function Login(store: Store, a: Attempt): Result {
    if !a.filled then Result(store, Incomplete, false, [])
    else
      var c := CheckOf(store, a.key, a.checkedAt, a.storage.firstRead);
      var store1 := AfterCheck(store, a.key, a.checkedAt, a.storage.firstRead, a.storage.delete);
      if c.locked then Result(store1, Locked(c.minutesRemaining), false, [])
      else match a.outcome
        case Accepted =>
          Result(Cleared(store1, a.key, a.storage.delete), NoAlert, true, [Success(a.key, a.failedAt)])
        case OtherError => Result(store1, Unreachable, true, [])
        case Rejected =>
          var store2 := AfterFailed(store1, a.key, a.failedAt, a.lockedAt, a.storage.recordRead, a.storage.write);
          var again := CheckOf(store2, a.key, a.recheckedAt, a.storage.lastRead);
          Result(
            AfterCheck(store2, a.key, a.recheckedAt, a.storage.lastRead, a.storage.delete),
            if again.locked then Locked(again.minutesRemaining) else LoginFailed,
            true,
            if a.storage.write then [Failure(a.key, a.failedAt)] else [])
  }

  // ----- the library, as it changes the stored records

  class LoginProtection {
    var store: Store

    constructor ()
      ensures store == map[]
    {
      store := map[];
    }

    method ClearLoginAttempts(key: string, deleteOk: bool)
      modifies this
      ensures store == Cleared(old(store), key, deleteOk)
    {
      if deleteOk {
        store := store - {key};
      }
    }

    method CheckLoginLocked(key: string, now: nat, readOk: bool, deleteOk: bool) returns (c: Check)
      modifies this
      ensures c == CheckOf(old(store), key, now, readOk)
      ensures store == AfterCheck(old(store), key, now, readOk, deleteOk)
    {
      var record := Read(store, key, readOk);
      if record.None? {
        return Check(false, 0);
      }
      if HasLock(record.value) && now < record.value.lockedUntil.value {
        return Check(true, MinutesUntil(record.value.lockedUntil.value, now));
      }
      if HasLock(record.value) && now >= record.value.lockedUntil.value {
        ClearLoginAttempts(key, deleteOk);
      }
      c := Check(false, 0);
    }

    method RecordFailedLogin(key: string, failedAt: nat, lockedAt: nat, readOk: bool, writeOk: bool)
      modifies this
      ensures store == AfterFailed(old(store), key, failedAt, lockedAt, readOk, writeOk)
    {
      var record := Read(store, key, readOk);
      var failedAttempts, lockedUntil := 1, None;
      if record.Some? {
        failedAttempts := record.value.failedAttempts + 1;
        lockedUntil := record.value.lockedUntil;
        if failedAttempts >= MAX_FAILED_ATTEMPTS {
          lockedUntil := Some(lockedAt + LOCKOUT_DURATION_MS);
        }
      }
      if writeOk {
        store := store[key := AttemptRecord(failedAttempts, failedAt, lockedUntil)];
      }
    }

    method OnLogin(a: Attempt) returns (alert: Alert, sent: bool)
      modifies this
      ensures var r := Login(old(store), a); store == r.store && alert == r.alert && sent == r.sent
    {
      sent := false;
      if !a.filled {
        return Incomplete, false;
      }
      var c := CheckLoginLocked(a.key, a.checkedAt, a.storage.firstRead, a.storage.delete);
      if c.locked {
        return Locked(c.minutesRemaining), false;
      }
      sent := true;
      match a.outcome
      case Accepted =>
        ClearLoginAttempts(a.key, a.storage.delete);
        alert := NoAlert;
      case OtherError =>
        alert := Unreachable;
      case Rejected =>
        RecordFailedLogin(a.key, a.failedAt, a.lockedAt, a.storage.recordRead, a.storage.write);
        var again := CheckLoginLocked(a.key, a.recheckedAt, a.storage.lastRead, a.storage.delete);
        alert := if again.locked then Locked(again.minutesRemaining) else LoginFailed;
    }
  }

  // ----- whole runs

  datatype World = World(store: Store, history: seq<Event>)

  /** Presses one after the other, from empty storage. */
  function Run(attempts: seq<Attempt>): World {
    if attempts == [] then World(map[], [])
    else
      var n := |attempts| - 1;
      var w := Run(attempts[..n]);
      var r := Login(w.store, attempts[n]);
      World(r.store, w.history + r.events)
  }

  /** The clock never runs backwards, within a press or from one press to the next. */
  ghost predicate Timely(attempts: seq<Attempt>) {
    && (forall i :: 0 <= i < |attempts| ==>
          attempts[i].checkedAt <= attempts[i].failedAt <= attempts[i].lockedAt <= attempts[i].recheckedAt)
    && (forall i :: 0 < i < |attempts| ==> attempts[i - 1].recheckedAt <= attempts[i].checkedAt)
  }

  /** The key's own presses find its record when they ask whether it is locked. */
  ghost predicate ChecksRead(attempts: seq<Attempt>, key: string) {
    forall i :: 0 <= i < |attempts| && attempts[i].key == key ==> attempts[i].storage.firstRead
  }

  /** And they find it when they record a failure. */
  ghost predicate RecordsRead(attempts: seq<Attempt>, key: string) {
    forall i :: 0 <= i < |attempts| && attempts[i].key == key ==> attempts[i].storage.recordRead
  }

  predicate InWindow(t: nat, w: int) {
    w <= t < w + 15 * 60 * 1000
  }

  function FailuresIn(h: seq<Event>, key: string, w: int): nat {
    if h == [] then 0
    else
      var e := h[|h| - 1];
      FailuresIn(h[..|h| - 1], key, w) + if e.Failure? && e.key == key && InWindow(e.time, w) then 1 else 0
  }

  ghost predicate SuccessIn(h: seq<Event>, key: string, w: int) {
    exists i :: 0 <= i < |h| && h[i].Success? && h[i].key == key && InWindow(h[i].time, w)
  }

  // ----- what is counted

  /** The press reached the server inside the window and was rejected. */
  predicate IsSentRejection(s: Store, a: Attempt, key: string, w: int) {
    a.key == key && a.outcome.Rejected? && InWindow(a.failedAt, w) && Login(s, a).sent
  }

  /** Such presses of a run, whether or not they were stored. */
  function SentRejections(attempts: seq<Attempt>, key: string, w: int): nat {
    if attempts == [] then 0
    else
      var n := |attempts| - 1;
      SentRejections(attempts[..n], key, w)
      + if IsSentRejection(Run(attempts[..n]).store, attempts[n], key, w) then 1 else 0
  }

  /** Those of them whose write failed. */
  function Unwritten(attempts: seq<Attempt>, key: string, w: int): nat {
    if attempts == [] then 0
    else
      var n := |attempts| - 1;
      Unwritten(attempts[..n], key, w)
      + if IsSentRejection(Run(attempts[..n]).store, attempts[n], key, w) && !attempts[n].storage.write then 1 else 0
  }

  /** The press was stored as a failure inside the window. */
  predicate IsRecorded(s: Store, a: Attempt, key: string, w: int) {
    IsSentRejection(s, a, key, w) && a.storage.write
  }

  /** The stored ones that could not read the record when they asked whether it is locked. */
  function FailedChecks(attempts: seq<Attempt>, key: string, w: int): nat {
    if attempts == [] then 0
    else
      var n := |attempts| - 1;
      FailedChecks(attempts[..n], key, w)
      + if IsRecorded(Run(attempts[..n]).store, attempts[n], key, w) && !attempts[n].storage.firstRead then 1 else 0
  }

  /** And those that could not read it when they counted the failure. */
  function FailedCounts(attempts: seq<Attempt>, key: string, w: int): nat {
    if attempts == [] then 0
    else
      var n := |attempts| - 1;
      FailedCounts(attempts[..n], key, w)
      + if IsRecorded(Run(attempts[..n]).store, attempts[n], key, w) && !attempts[n].storage.recordRead then 1 else 0
  }

  lemma PressIsCounted(s: Store, a: Attempt, key: string, w: int)
    ensures var e := Login(s, a).events;
            && |e| <= 1
            && (|e| == 1 && e[0].Failure? && e[0].key == key && InWindow(e[0].time, w) <==>
                  IsRecorded(s, a, key, w))
  {
  }

  lemma {:induction false} FailuresGrow(h: seq<Event>, events: seq<Event>, key: string, w: int)
    requires |events| <= 1
    ensures FailuresIn(h + events, key, w)
         == FailuresIn(h, key, w)
          + if |events| == 1 && events[0].Failure? && events[0].key == key && InWindow(events[0].time, w) then 1 else 0
  {
    if events == [] {
      assert h + events == h;
    } else {
      assert (h + events)[..|h|] == h;
    }
  }

  lemma EarlierSuccess(h: seq<Event>, events: seq<Event>, key: string, w: int)
    requires !SuccessIn(h + events, key, w)
    ensures !SuccessIn(h, key, w)
  {
    forall i | 0 <= i < |h| && h[i].Success? && h[i].key == key ensures !InWindow(h[i].time, w) {
      assert (h + events)[i] == h[i];
    }
  }

  lemma {:induction false} SentOrWritten(attempts: seq<Attempt>, key: string, w: int)
    ensures SentRejections(attempts, key, w) == FailuresIn(Run(attempts).history, key, w) + Unwritten(attempts, key, w)
  {
    if attempts != [] {
      var n := |attempts| - 1;
      var before := Run(attempts[..n]);
      SentOrWritten(attempts[..n], key, w);
      PressIsCounted(before.store, attempts[n], key, w);
      FailuresGrow(before.history, Login(before.store, attempts[n]).events, key, w);
    }
  }

  // ----- the invariant

  function LastReading(attempts: seq<Attempt>): nat {
    if attempts == [] then 0 else attempts[|attempts| - 1].recheckedAt
  }

  lemma {:induction false} NothingYet(h: seq<Event>, key: string, w: int)
    requires forall i :: 0 <= i < |h| ==> h[i].time < w
    ensures FailuresIn(h, key, w) == 0
  {
    if h != [] {
      NothingYet(h[..|h| - 1], key, w);
    }
  }

  predicate RecordOk(r: AttemptRecord) {
    if HasLock(r) then r.failedAttempts >= 5
    else r.lockedUntil.None? && r.failedAttempts < 5
  }

  /** The stored record accounts for the failures of an open window, but for what failed reads have `spent`. */
  predicate Covers(s: Store, key: string, w: int, failures: nat, spent: nat) {
    if key !in s then failures == 0
    else if HasLock(s[key]) then s[key].lockedUntil.value < w + 15 * 60 * 1000 ==> failures == 0
    else failures <= s[key].failedAttempts + spent
  }

  /** While a window sees no success it holds at most five failures and what is spent, and the record says how many more. */
  ghost predicate Budget(w: World, key: string, from: int, now: nat, spent: nat) {
    var failures := FailuresIn(w.history, key, from);
    && (forall i :: 0 <= i < |w.history| ==> w.history[i].time <= now)
    && (key in w.store ==> RecordOk(w.store[key]))
    && (!SuccessIn(w.history, key, from) ==>
          && failures <= 5 + spent
          && (now < from + 15 * 60 * 1000 ==> Covers(w.store, key, from, failures, spent)))
  }

  lemma BudgetCheck(w: World, key: string, from: int, of: string, now: nat, readOk: bool, deleteOk: bool, spent: nat)
    requires Budget(w, key, from, now, spent)
    ensures Budget(w.(store := AfterCheck(w.store, of, now, readOk, deleteOk)), key, from, now, spent)
  {
  }

  lemma BudgetSuccess(w: World, key: string, from: int, of: string, now: nat, deleteOk: bool, later: nat, spent: nat)
    requires Budget(w, key, from, now, spent) && now <= later
    ensures Budget(World(Cleared(w.store, of, deleteOk), w.history + [Success(of, now)]), key, from, later, spent)
  {
    var h, h' := w.history, w.history + [Success(of, now)];
    FailuresGrow(h, [Success(of, now)], key, from);
    if !SuccessIn(h', key, from) {
      EarlierSuccess(h, [Success(of, now)], key, from);
      assert h'[|h|] == Success(of, now);
      if now < from {
        NothingYet(h, key, from);
      }
    }
  }

  /** What one recorded failure spends: one for a failed check, four for a failed count. */
  function Cost(a: Attempt): nat {
    (if a.storage.firstRead then 0 else 1) + if a.storage.recordRead then 0 else 4
  }

  lemma CoversFailure(s: Store, key: string, from: int, a: Attempt, failures: nat, spent: nat)
    requires key in s ==> RecordOk(s[key])
    requires Covers(s, key, from, failures, spent) && failures <= 5 + spent
    requires a.key == key && a.checkedAt <= a.failedAt <= a.lockedAt && InWindow(a.failedAt, from)
    requires a.storage.firstRead ==> !LockedAt(s, key, a.checkedAt)
    ensures var s' := AfterFailed(s, key, a.failedAt, a.lockedAt, a.storage.recordRead, true);
            && RecordOk(s'[key]) && failures + 1 <= 5 + (spent + Cost(a))
            && Covers(s', key, from, failures + 1, spent + Cost(a))
  {
  }

  lemma BudgetFailure(w: World, key: string, from: int, a: Attempt, spent: nat)
    requires Budget(w, key, from, a.failedAt, spent) && a.checkedAt <= a.failedAt <= a.lockedAt
    requires a.key == key && a.storage.firstRead ==> !LockedAt(w.store, key, a.checkedAt)
    ensures var store := AfterFailed(w.store, a.key, a.failedAt, a.lockedAt, a.storage.recordRead, true);
            Budget(World(store, w.history + [Failure(a.key, a.failedAt)]), key, from, a.lockedAt,
                   spent + if a.key == key && InWindow(a.failedAt, from) then Cost(a) else 0)
  {
    var h, e := w.history, Failure(a.key, a.failedAt);
    FailuresGrow(h, [e], key, from);
    if a.failedAt < from {
      NothingYet(h, key, from);
    }
    if !SuccessIn(h + [e], key, from) {
      EarlierSuccess(h, [e], key, from);
      if a.key == key && InWindow(a.failedAt, from) {
        CoversFailure(w.store, key, from, a, FailuresIn(h, key, from), spent);
      }
    }
  }

  /** A rejection is recorded, or not, and the key is checked again. */
  lemma BudgetRejected(w: World, key: string, from: int, a: Attempt, spent: nat)
    requires Budget(w, key, from, a.failedAt, spent) && a.checkedAt <= a.failedAt <= a.lockedAt <= a.recheckedAt
    requires a.key == key && a.storage.firstRead ==> !LockedAt(w.store, key, a.checkedAt)
    ensures var io, recorded := a.storage, if a.storage.write then [Failure(a.key, a.failedAt)] else [];
            var store := AfterFailed(w.store, a.key, a.failedAt, a.lockedAt, io.recordRead, io.write);
            Budget(World(AfterCheck(store, a.key, a.recheckedAt, io.lastRead, io.delete), w.history + recorded),
                   key, from, a.recheckedAt,
                   spent + if io.write && a.key == key && InWindow(a.failedAt, from) then Cost(a) else 0)
  {
    var io := a.storage;
    var w2 := World(AfterFailed(w.store, a.key, a.failedAt, a.lockedAt, io.recordRead, io.write),
                    w.history + if io.write then [Failure(a.key, a.failedAt)] else []);
    var spent2 := spent + if io.write && a.key == key && InWindow(a.failedAt, from) then Cost(a) else 0;
    if io.write {
      BudgetFailure(w, key, from, a, spent);
    } else {
      assert w.history + [] == w.history;
      BudgetWaits(w, key, from, a.failedAt, a.lockedAt, spent);
    }
    BudgetWaits(w2, key, from, a.lockedAt, a.recheckedAt, spent2);
    BudgetCheck(w2, key, from, a.key, a.recheckedAt, io.lastRead, io.delete, spent2);
  }

  lemma BudgetWaits(w: World, key: string, from: int, now: nat, later: nat, spent: nat)
    requires Budget(w, key, from, now, spent) && now <= later
    ensures Budget(w, key, from, later, spent)
  {
  }

  /** A press by what becomes of it: unsent or unanswered, accepted, or rejected. */
  lemma LoginByOutcome(s: Store, a: Attempt)
    ensures var r, io := Login(s, a), a.storage;
            var store := AfterCheck(s, a.key, a.checkedAt, io.firstRead, io.delete);
            var rejected := AfterFailed(store, a.key, a.failedAt, a.lockedAt, io.recordRead, io.write);
            && (r.sent ==> (a.storage.firstRead ==> !LockedAt(s, a.key, a.checkedAt)))
            && (!r.sent ==> r.events == [] && (r.store == s || r.store == store))
            && (r.sent && a.outcome.OtherError? ==> r.events == [] && r.store == store)
            && (r.sent && a.outcome.Accepted? ==>
                  r.events == [Success(a.key, a.failedAt)] && r.store == Cleared(store, a.key, io.delete))
            && (r.sent && a.outcome.Rejected? ==>
                  && r.events == (if io.write then [Failure(a.key, a.failedAt)] else [])
                  && r.store == AfterCheck(rejected, a.key, a.recheckedAt, io.lastRead, io.delete))
  {
  }

  lemma BudgetLogin(w: World, key: string, from: int, a: Attempt, now: nat, spent: nat)
    requires Budget(w, key, from, now, spent) && now <= a.checkedAt <= a.failedAt <= a.lockedAt <= a.recheckedAt
    ensures var r := Login(w.store, a);
            Budget(World(r.store, w.history + r.events), key, from, a.recheckedAt,
                   spent + if IsRecorded(w.store, a, key, from) then Cost(a) else 0)
  {
    var io := a.storage;
    var w1 := w.(store := AfterCheck(w.store, a.key, a.checkedAt, io.firstRead, io.delete));
    LoginByOutcome(w.store, a);
    BudgetWaits(w, key, from, now, a.checkedAt, spent);
    BudgetCheck(w, key, from, a.key, a.checkedAt, io.firstRead, io.delete, spent);
    BudgetWaits(w1, key, from, a.checkedAt, a.failedAt, spent);
    if Login(w.store, a).sent && a.outcome.Accepted? {
      BudgetSuccess(w1, key, from, a.key, a.failedAt, io.delete, a.recheckedAt, spent);
    } else if Login(w.store, a).sent && a.outcome.Rejected? {
      BudgetRejected(w1, key, from, a, spent);
    } else {
      assert w.history + [] == w.history;
      BudgetWaits(w, key, from, now, a.recheckedAt, spent);
      BudgetWaits(w1, key, from, a.failedAt, a.recheckedAt, spent);
    }
  }

  /** In every timely run the stored record, with what failed reads have spent, accounts for the failures of a window. */
  lemma {:induction false} BudgetRun(attempts: seq<Attempt>, key: string, from: int)
    requires Timely(attempts)
    ensures Budget(Run(attempts), key, from, LastReading(attempts),
                   FailedChecks(attempts, key, from) + 4 * FailedCounts(attempts, key, from))
  {
    if attempts != [] {
      var n := |attempts| - 1;
      var spent := FailedChecks(attempts[..n], key, from) + 4 * FailedCounts(attempts[..n], key, from);
      BudgetRun(attempts[..n], key, from);
      BudgetLogin(Run(attempts[..n]), key, from, attempts[n], LastReading(attempts[..n]), spent);
    }
  }

  // ----- main results

  /** Whatever is pressed and whenever, a 15-minute window without a success holds at most five recorded failures,
      one more for each failed check among them and four more for each failed count. */
  lemma {:induction false} FailuresPerWindow(attempts: seq<Attempt>, key: string, w: int)
    requires Timely(attempts) && !SuccessIn(Run(attempts).history, key, w)
    ensures FailuresIn(Run(attempts).history, key, w)
         <= 5 + FailedChecks(attempts, key, w) + 4 * FailedCounts(attempts, key, w)
  {
    BudgetRun(attempts, key, w);
  }

  lemma {:induction false} NoFailedReads(attempts: seq<Attempt>, key: string, w: int)
    ensures ChecksRead(attempts, key) ==> FailedChecks(attempts, key, w) == 0
    ensures RecordsRead(attempts, key) ==> FailedCounts(attempts, key, w) == 0
  {
    if attempts != [] {
      NoFailedReads(attempts[..|attempts| - 1], key, w);
    }
  }

  /** So at most five where the key's own presses can read its record both times. */
  lemma {:induction false} FiveFailuresPerWindow(attempts: seq<Attempt>, key: string, w: int)
    requires Timely(attempts) && ChecksRead(attempts, key) && RecordsRead(attempts, key)
    requires !SuccessIn(Run(attempts).history, key, w)
    ensures FailuresIn(Run(attempts).history, key, w) <= 5
  {
    FailuresPerWindow(attempts, key, w);
    NoFailedReads(attempts, key, w);
  }

  ghost predicate LockedWith(s: Store, key: string, r: AttemptRecord, until: nat) {
    key in s && s[key] == r && HasLock(r) && r.lockedUntil.value == until
  }

  lemma LockedPressIsRefused(s: Store, a: Attempt, key: string, r: AttemptRecord, until: nat)
    requires LockedWith(s, key, r, until) && a.checkedAt < until && (a.key == key ==> a.storage.firstRead)
    ensures LockedWith(Login(s, a).store, key, r, until)
    ensures a.key == key ==>
              !Login(s, a).sent && Login(s, a).events == [] && (a.filled ==> Login(s, a).alert.Locked?)
  {
    if a.key == key {
      assert !a.filled || CheckOf(s, key, a.checkedAt, true).locked;
    }
  }

  /** A lock holds to its end: until then every press on its key is refused, unsent, and the record does not move. */
  lemma {:induction false} LockHolds(attempts: seq<Attempt>, i: nat, j: nat, key: string, r: AttemptRecord, until: nat)
    requires Timely(attempts) && ChecksRead(attempts, key)
    requires i <= j < |attempts| && attempts[j].checkedAt < until
    requires LockedWith(Run(attempts[..i]).store, key, r, until)
    ensures LockedWith(Run(attempts[..j]).store, key, r, until)
    ensures attempts[j].key == key ==>
              var press := Login(Run(attempts[..j]).store, attempts[j]);
              !press.sent && press.events == [] && (attempts[j].filled ==> press.alert.Locked?)
    decreases j
  {
    if i < j {
      LockHolds(attempts, i, j - 1, key, r, until);
      assert attempts[..j][..j - 1] == attempts[..j - 1];
      LockedPressIsRefused(Run(attempts[..j - 1]).store, attempts[j - 1], key, r, until);
    }
    LockedPressIsRefused(Run(attempts[..j]).store, attempts[j], key, r, until);
  }

  ghost predicate LocksEndSoon(s: Store, now: nat) {
    forall k :: k in s && HasLock(s[k]) ==> s[k].lockedUntil.value <= now + 15 * 60 * 1000
  }

  lemma LocksEndPress(s: Store, a: Attempt, now: nat)
    requires LocksEndSoon(s, now) && now <= a.checkedAt <= a.failedAt <= a.lockedAt <= a.recheckedAt
    ensures LocksEndSoon(Login(s, a).store, a.recheckedAt)
  {
    LoginByOutcome(s, a);
  }

  lemma {:induction false} LocksEnd(attempts: seq<Attempt>)
    requires Timely(attempts)
    ensures LocksEndSoon(Run(attempts).store, LastReading(attempts))
  {
    if attempts != [] {
      var n := |attempts| - 1;
      LocksEnd(attempts[..n]);
      LocksEndPress(Run(attempts[..n]).store, attempts[n], LastReading(attempts[..n]));
    }
  }

  /** Every lock message names between 1 and 15 minutes, even when storage calls fail. */
  lemma MinutesInRange(attempts: seq<Attempt>, i: nat)
    requires Timely(attempts) && i < |attempts|
    ensures var alert := Login(Run(attempts[..i]).store, attempts[i]).alert; alert.Locked? ==> 1 <= alert.minutes <= 15
  {
    LocksEnd(attempts[..i]);
    assert LastReading(attempts[..i]) <= attempts[i].checkedAt;
  }

  /**
   * What a recorded rejection leaves: one failure more than the press could read, at its own time, and from the fifth on
   * a lock of 15 minutes from the moment it was written.
   */
  lemma RejectionIsRecorded(s: Store, a: Attempt)
    requires Login(s, a).sent && a.outcome.Rejected? && a.storage.write
    requires a.checkedAt <= a.lockedAt <= a.recheckedAt < a.lockedAt + 15 * 60 * 1000
    ensures var after := Login(s, a).store;
            var read := a.storage.recordRead && a.key in s && !(a.storage.firstRead && a.storage.delete && HasLock(s[a.key]));
            var count := if read then s[a.key].failedAttempts + 1 else 1;
            && (count >= 5 ==> a.key in after && after[a.key].lockedUntil == Some(a.lockedAt + 15 * 60 * 1000))
            && (count == 1 && !read ==> a.key in after && after[a.key].lockedUntil.None?)
            && (a.key in after ==> after[a.key].failedAttempts == count && after[a.key].lastFailedAt == a.failedAt)
            && (forall k :: k != a.key ==> (k in after <==> k in s) && (k in s ==> after[k] == s[k]))
  {
  }

  /** The minutes are what is left of the lock at that reading, rounded up. */
  predicate RoundedUp(left: int, minutes: int) {
    60000 * (minutes - 1) < left <= 60000 * minutes
  }

  /** Every lock message, before sending or after a failure, gives what is left of the stored lock, rounded up to minutes. */
  lemma MinutesAreRoundedUp(s: Store, a: Attempt)
    requires Login(s, a).alert.Locked?
    ensures var r, m := Login(s, a), Login(s, a).alert.minutes;
            && a.key in r.store && r.store[a.key].lockedUntil.Some?
            && RoundedUp(r.store[a.key].lockedUntil.value - (if r.sent then a.recheckedAt else a.checkedAt), m)
            && (!r.sent ==> r.store == s)
  {
  }

  /**
   * Who waits as long as the message says is let through, and who comes a whole minute earlier is not: on the record
   * it leaves, a press with a readable record is sent `minutes` after the reading, and refused until a minute before.
   */
  lemma WaitingIsEnough(s: Store, a: Attempt, b: Attempt)
    requires Login(s, a).alert.Locked? && b.key == a.key && b.filled && b.storage.firstRead
    ensures var r := Login(s, a);
            var reading := if r.sent then a.recheckedAt else a.checkedAt;
            && (b.checkedAt >= reading + 60000 * r.alert.minutes ==> Login(r.store, b).sent)
            && (b.checkedAt <= reading + 60000 * (r.alert.minutes - 1) ==>
                  !Login(r.store, b).sent && Login(r.store, b).alert.Locked?)
  {
    MinutesAreRoundedUp(s, a);
  }

  /** Failures recorded under `key` since its last success. */
  function Streak(h: seq<Event>, key: string): nat {
    if h == [] then 0
    else
      var e, front := h[|h| - 1], h[..|h| - 1];
      if e.key != key then Streak(front, key)
      else if e.Success? then 0
      else Streak(front, key) + 1
  }

  ghost predicate Counted(w: World, key: string) {
    key in w.store ==>
      && w.store[key].failedAttempts <= Streak(w.history, key)
      && (HasLock(w.store[key]) ==> Streak(w.history, key) >= 5)
  }

  lemma CountedCheck(w: World, key: string, of: string, now: nat, readOk: bool, deleteOk: bool)
    requires Counted(w, key)
    ensures Counted(World(AfterCheck(w.store, of, now, readOk, deleteOk), w.history), key)
  {
  }

  lemma CountedSuccess(w: World, key: string, of: string, now: nat, deleteOk: bool)
    requires Counted(w, key) && (of == key ==> deleteOk)
    ensures Counted(World(Cleared(w.store, of, deleteOk), w.history + [Success(of, now)]), key)
  {
    assert (w.history + [Success(of, now)])[..|w.history|] == w.history;
  }

  lemma CountedFailure(w: World, key: string, a: Attempt)
    requires Counted(w, key)
    ensures var write := a.storage.write;
            Counted(World(AfterFailed(w.store, a.key, a.failedAt, a.lockedAt, a.storage.recordRead, write),
                          w.history + if write then [Failure(a.key, a.failedAt)] else []), key)
  {
    assert (w.history + [Failure(a.key, a.failedAt)])[..|w.history|] == w.history;
    assert w.history + [] == w.history;
  }

  /** A login that the server accepted, whose stored failures are then deleted, or not. */
  predicate IsAccepted(s: Store, a: Attempt, key: string) {
    a.key == key && a.outcome.Accepted? && Login(s, a).sent
  }

  lemma CountedStep(w: World, key: string, a: Attempt)
    requires Counted(w, key) && (IsAccepted(w.store, a, key) ==> a.storage.delete)
    ensures var r := Login(w.store, a); Counted(World(r.store, w.history + r.events), key)
  {
    var io := a.storage;
    var w1 := World(AfterCheck(w.store, a.key, a.checkedAt, io.firstRead, io.delete), w.history);
    LoginByOutcome(w.store, a);
    CountedCheck(w, key, a.key, a.checkedAt, io.firstRead, io.delete);
    if Login(w.store, a).sent && a.outcome.Accepted? {
      CountedSuccess(w1, key, a.key, a.failedAt, io.delete);
    } else if Login(w.store, a).sent && a.outcome.Rejected? {
      CountedFailure(w1, key, a);
      var w2 := World(AfterFailed(w1.store, a.key, a.failedAt, a.lockedAt, io.recordRead, io.write),
                      w.history + if io.write then [Failure(a.key, a.failedAt)] else []);
      CountedCheck(w2, key, a.key, a.recheckedAt, io.lastRead, io.delete);
    } else {
      assert w.history + [] == w.history;
    }
  }

  /** The deletes after the key's accepted logins fare as given. */
  ghost predicate DeletesFare(attempts: seq<Attempt>, key: string, delete: bool) {
    forall i :: 0 <= i < |attempts| && IsAccepted(Run(attempts[..i]).store, attempts[i], key) ==>
      attempts[i].storage.delete == delete
  }

  /** The lock never comes early: while the deletes after its accepted logins succeed, a locked key has five failures since the last. */
  lemma {:induction false} NoLockBeforeFive(attempts: seq<Attempt>, key: string)
    requires DeletesFare(attempts, key, true)
    ensures Counted(Run(attempts), key)
  {
    if attempts != [] {
      var n := |attempts| - 1;
      forall i | 0 <= i < n && IsAccepted(Run(attempts[..n][..i]).store, attempts[..n][i], key)
        ensures attempts[..n][i].storage.delete
      {
        assert attempts[..n][..i] == attempts[..i];
      }
      NoLockBeforeFive(attempts[..n], key);
      CountedStep(Run(attempts[..n]), key, attempts[n]);
    }
  }

  /** Presses that reached the server, were rejected and whose record was written. */
  function RecordedRejections(attempts: seq<Attempt>, key: string): nat {
    if attempts == [] then 0
    else
      var n := |attempts| - 1;
      var a := attempts[n];
      RecordedRejections(attempts[..n], key)
      + if a.key == key && a.outcome.Rejected? && a.storage.write && Login(Run(attempts[..n]).store, a).sent then 1 else 0
  }

  function FailuresOf(h: seq<Event>, key: string): nat {
    if h == [] then 0
    else FailuresOf(h[..|h| - 1], key) + if h[|h| - 1].Failure? && h[|h| - 1].key == key then 1 else 0
  }

  lemma {:induction false} FailuresOfMore(h: seq<Event>, events: seq<Event>, key: string)
    requires |events| <= 1
    ensures FailuresOf(h + events, key)
         == FailuresOf(h, key) + if |events| == 1 && events[0].Failure? && events[0].key == key then 1 else 0
  {
    if events == [] {
      assert h + events == h;
    } else {
      assert (h + events)[..|h|] == h;
    }
  }

  /** Only rejections count: an outage, a refusal while locked or an accepted login records no failure. */
  lemma {:induction false} OnlyRejectionsCount(attempts: seq<Attempt>, key: string)
    ensures FailuresOf(Run(attempts).history, key) == RecordedRejections(attempts, key)
  {
    if attempts != [] {
      var n := |attempts| - 1;
      OnlyRejectionsCount(attempts[..n], key);
      LoginByOutcome(Run(attempts[..n]).store, attempts[n]);
      FailuresOfMore(Run(attempts[..n]).history, Login(Run(attempts[..n]).store, attempts[n]).events, key);
    }
  }

  /** With a readable record, a filled form is sent exactly when its key is not locked at that moment. */
  lemma SentExactlyWhenUnlocked(s: Store, a: Attempt)
    requires a.storage.firstRead
    ensures Login(s, a).sent
       <==> a.filled && !(a.key in s && s[a.key].lockedUntil.Some? && a.checkedAt < s[a.key].lockedUntil.value)
  {
  }

  /**
   * The alert tells the outcomes apart: an incomplete form, a server that did not answer, and a rejection, after which it
   * names a lock exactly when the press can read that the record it left is locked. Only a lock is also told unsent.
   */
  lemma AlertsTellOutcomes(s: Store, a: Attempt)
    ensures var r := Login(s, a);
            && (r.alert.Incomplete? <==> !a.filled)
            && (r.alert.NoAlert? <==> r.sent && a.outcome.Accepted?)
            && (r.alert.Unreachable? <==> r.sent && a.outcome.OtherError?)
            && (a.filled && !r.sent ==> r.alert.Locked?)
            && (r.sent && a.outcome.Rejected? ==>
                  (r.alert.Locked? <==> && a.storage.lastRead && a.key in r.store && r.store[a.key].lockedUntil.Some?
                                        && a.recheckedAt < r.store[a.key].lockedUntil.value)
                  && (r.alert.LoginFailed? <==> !r.alert.Locked?))
  {
  }

  /**
   * What a press leaves that records no failure: an accepted login leaves no record, an outage and a press that is not
   * sent leave it, unless it is read with a lock that is over. Where the delete fails the record stays.
   */
  lemma UnrejectedStore(s: Store, a: Attempt)
    requires !(Login(s, a).sent && a.outcome.Rejected?)
    ensures var r := Login(s, a);
            var over := a.storage.firstRead && a.key in s && s[a.key].lockedUntil.Some?
                        && 0 < s[a.key].lockedUntil.value <= a.checkedAt;
            r.store == if a.storage.delete && a.filled && (over || (r.sent && a.outcome.Accepted?)) then s - {a.key} else s
  {
  }

  // ----- what each storage call is needed for

  /** Presses on `key` whose two reads fare as given. */
  ghost predicate ReadsFare(attempts: seq<Attempt>, key: string, firstRead: bool, recordRead: bool) {
    forall i :: 0 <= i < |attempts| && attempts[i].key == key ==>
      attempts[i].storage.firstRead == firstRead && attempts[i].storage.recordRead == recordRead
  }

  ghost predicate Bounded(attempts: seq<Attempt>, key: string) {
    forall w :: !SuccessIn(Run(attempts).history, key, w) ==> FailuresIn(Run(attempts).history, key, w) <= 5
  }

  /** A rejected press at time 0, whose first two reads and whose write fare as given. */
  function Press(key: string, firstRead: bool, recordRead: bool, write: bool): Attempt {
    Attempt(key, true, Rejected, Storage(firstRead, recordRead, true, write, true), 0, 0, 0, 0)
  }

  function Presses(key: string, firstRead: bool, recordRead: bool, write: bool, n: nat): seq<Attempt> {
    seq(n, i => Press(key, firstRead, recordRead, write))
  }

  function Failures(key: string, n: nat): seq<Event> {
    seq(n, i => Failure(key, 0))
  }

  /** What a run of such presses has stored: nothing that the check would see as a lock. */
  ghost predicate NeverLocked(s: Store, key: string, firstRead: bool) {
    firstRead ==> key !in s || !HasLock(s[key])
  }

  lemma PressIsSent(s: Store, key: string, firstRead: bool, recordRead: bool, write: bool)
    requires NeverLocked(s, key, firstRead) && !(firstRead && recordRead && write)
    ensures var r := Login(s, Press(key, firstRead, recordRead, write));
            && IsSentRejection(s, Press(key, firstRead, recordRead, write), key, 0) && NeverLocked(r.store, key, firstRead)
            && r.events == if write then [Failure(key, 0)] else []
  {
  }

  lemma {:induction false} RunMore(attempts: seq<Attempt>, a: Attempt, key: string)
    ensures var w, more := Run(attempts), attempts + [a];
            && Run(more) == World(Login(w.store, a).store, w.history + Login(w.store, a).events)
            && SentRejections(more, key, 0)
               == SentRejections(attempts, key, 0) + (if IsSentRejection(w.store, a, key, 0) then 1 else 0)
            && FailedChecks(more, key, 0)
               == FailedChecks(attempts, key, 0) + (if IsRecorded(w.store, a, key, 0) && !a.storage.firstRead then 1 else 0)
            && FailedCounts(more, key, 0)
               == FailedCounts(attempts, key, 0) + (if IsRecorded(w.store, a, key, 0) && !a.storage.recordRead then 1 else 0)
  {
    assert (attempts + [a])[..|attempts|] == attempts;
  }

  ghost predicate AllSent(presses: seq<Attempt>, key: string, firstRead: bool, write: bool, n: nat) {
    var w := Run(presses);
    && NeverLocked(w.store, key, firstRead) && w.history == (if write then Failures(key, n) else [])
    && SentRejections(presses, key, 0) == n
  }

  lemma OneMoreSent(presses: seq<Attempt>, key: string, firstRead: bool, recordRead: bool, write: bool, n: nat)
    requires !(firstRead && recordRead && write) && AllSent(presses, key, firstRead, write, n)
    ensures AllSent(presses + [Press(key, firstRead, recordRead, write)], key, firstRead, write, n + 1)
  {
    PressIsSent(Run(presses).store, key, firstRead, recordRead, write);
    RunMore(presses, Press(key, firstRead, recordRead, write), key);
    assert Failures(key, n) + [Failure(key, 0)] == Failures(key, n + 1);
  }

  /** If one of the two reads or the write always fails, every one of any number of presses is sent. */
  lemma {:induction false} PressesAreSent(key: string, firstRead: bool, recordRead: bool, write: bool, n: nat)
    requires !(firstRead && recordRead && write)
    ensures AllSent(Presses(key, firstRead, recordRead, write, n), key, firstRead, write, n)
  {
    if n > 0 {
      PressesAreSent(key, firstRead, recordRead, write, n - 1);
      OneMoreSent(Presses(key, firstRead, recordRead, write, n - 1), key, firstRead, recordRead, write, n - 1);
      assert Presses(key, firstRead, recordRead, write, n)
          == Presses(key, firstRead, recordRead, write, n - 1) + [Press(key, firstRead, recordRead, write)];
    }
  }

  lemma {:induction false} AllInOneWindow(key: string, n: nat)
    ensures FailuresIn(Failures(key, n), key, 0) == n
  {
    if n > 0 {
      AllInOneWindow(key, n - 1);
      assert Failures(key, n)[..n - 1] == Failures(key, n - 1);
    }
  }

  /** With either read failing, alone or with the other, one window holds any number of recorded failures. */
  lemma {:induction false} UnreadRecordsNeverLock(key: string, firstRead: bool, recordRead: bool, n: nat)
    requires !(firstRead && recordRead)
    ensures var presses := Presses(key, firstRead, recordRead, true, n);
            && Timely(presses) && ReadsFare(presses, key, firstRead, recordRead)
            && !SuccessIn(Run(presses).history, key, 0) && FailuresIn(Run(presses).history, key, 0) == n
  {
    PressesAreSent(key, firstRead, recordRead, true, n);
    AllInOneWindow(key, n);
  }

  /**
   * So the bound of five rests on exactly these two reads of the key's own presses: it holds in every timely run
   * whose reads fare one way if and only if both succeed, whatever happens to the third read, to writes and deletes.
   */
  lemma BoundRestsOnTwoReads(key: string, firstRead: bool, recordRead: bool)
    ensures (forall attempts :: Timely(attempts) && ReadsFare(attempts, key, firstRead, recordRead) ==> Bounded(attempts, key))
       <==> firstRead && recordRead
  {
    if firstRead && recordRead {
      forall attempts | Timely(attempts) && ReadsFare(attempts, key, firstRead, recordRead) ensures Bounded(attempts, key) {
        forall w | !SuccessIn(Run(attempts).history, key, w)
          ensures FailuresIn(Run(attempts).history, key, w) <= 5
        {
          FiveFailuresPerWindow(attempts, key, w);
        }
      }
    } else {
      var presses := Presses(key, firstRead, recordRead, true, 6);
      UnreadRecordsNeverLock(key, firstRead, recordRead, 6);
      assert !Bounded(presses, key);
    }
  }

  /** In rejected guesses that reach the server: five per window, one for each failed write or check, four for each failed count. */
  lemma {:induction false} GuessesPerWindow(attempts: seq<Attempt>, key: string, w: int)
    requires Timely(attempts) && !SuccessIn(Run(attempts).history, key, w)
    ensures SentRejections(attempts, key, w)
         <= 5 + Unwritten(attempts, key, w) + FailedChecks(attempts, key, w) + 4 * FailedCounts(attempts, key, w)
  {
    SentOrWritten(attempts, key, w);
    FailuresPerWindow(attempts, key, w);
  }

  /** And with writes that always fail, any number of rejected guesses is sent within one window, with none recorded. */
  lemma {:induction false} UnwrittenRecordsNeverLock(key: string, n: nat)
    ensures var presses := Presses(key, true, true, false, n);
            && Timely(presses) && ChecksRead(presses, key) && RecordsRead(presses, key)
            && SentRejections(presses, key, 0) == n && Run(presses).history == []
  {
    PressesAreSent(key, true, true, false, n);
  }

  // ----- how tight that is

  /** After presses at time 0 the key's record has this count, and a lock to the end of the first 15 minutes or none. */
  ghost predicate Stands(attempts: seq<Attempt>, key: string, count: nat, locked: bool) {
    var s := Run(attempts).store;
    && (forall i :: 0 <= i < |attempts| ==>
          attempts[i].checkedAt == attempts[i].failedAt == attempts[i].lockedAt == attempts[i].recheckedAt == 0)
    && (key in s <==> count > 0)
    && (count > 0 ==> s[key] == AttemptRecord(count, 0, if locked then Some(15 * 60 * 1000) else None))
  }

  /** A rejected press on a record that does not lock, or is not read when it is checked. */
  lemma {:induction false} PressMore(attempts: seq<Attempt>, key: string, count: nat, locked: bool, firstRead: bool, recordRead: bool)
    requires Stands(attempts, key, count, locked) && (locked ==> !firstRead && recordRead && count >= 5)
    requires !locked ==> count < 5
    ensures var more := attempts + [Press(key, firstRead, recordRead, true)];
            var count' := if recordRead then count + 1 else 1;
            && Stands(more, key, count', count' >= 5)
            && Run(more).history == Run(attempts).history + [Failure(key, 0)]
            && FailedChecks(more, key, 0) == FailedChecks(attempts, key, 0) + (if firstRead then 0 else 1)
            && FailedCounts(more, key, 0) == FailedCounts(attempts, key, 0) + (if recordRead then 0 else 1)
  {
    RunMore(attempts, Press(key, firstRead, recordRead, true), key);
  }

  /** A run of recorded failures at time 0, so many of them with a failed check and with a failed count. */
  ghost predicate Tally(attempts: seq<Attempt>, key: string, count: nat, locked: bool, n: nat, checks: nat, counts: nat) {
    && Stands(attempts, key, count, locked) && Run(attempts).history == Failures(key, n)
    && FailedChecks(attempts, key, 0) == checks && FailedCounts(attempts, key, 0) == counts
  }

  lemma TallyMore(attempts: seq<Attempt>, key: string, count: nat, locked: bool, n: nat, checks: nat, counts: nat,
                  firstRead: bool, recordRead: bool) returns (more: seq<Attempt>)
    requires Tally(attempts, key, count, locked, n, checks, counts)
    requires if locked then !firstRead && recordRead && count >= 5 else count < 5
    ensures var count' := if recordRead then count + 1 else 1;
            Tally(more, key, count', count' >= 5, n + 1,
                  checks + (if firstRead then 0 else 1), counts + (if recordRead then 0 else 1))
  {
    more := attempts + [Press(key, firstRead, recordRead, true)];
    PressMore(attempts, key, count, locked, firstRead, recordRead);
    assert Failures(key, n) + [Failure(key, 0)] == Failures(key, n + 1);
  }

  lemma {:induction false} TallyGood(attempts: seq<Attempt>, key: string, count: nat, n: nat, counts: nat, good: nat)
    returns (more: seq<Attempt>)
    requires Tally(attempts, key, count, false, n, 0, counts) && count < 5 && count + good <= 5
    ensures Tally(more, key, count + good, count + good >= 5, n + good, 0, counts)
    decreases good
  {
    if good == 0 {
      more := attempts;
    } else {
      more := TallyGood(attempts, key, count, n, counts, good - 1);
      more := TallyMore(more, key, count + good - 1, false, n + good - 1, 0, counts, true, true);
    }
  }

  /** Four failures, then for each failed count that one and three more: the record always says four. */
  lemma {:induction false} UncountedRounds(key: string, counts: nat) returns (attempts: seq<Attempt>)
    ensures Tally(attempts, key, 4, false, 4 + 4 * counts, 0, counts)
  {
    if counts == 0 {
      assert Failures(key, 0) == [];
      attempts := TallyGood([], key, 0, 0, 0, 4);
    } else {
      attempts := UncountedRounds(key, counts - 1);
      attempts := TallyMore(attempts, key, 4, false, 4 + 4 * (counts - 1), 0, counts - 1, true, false);
      attempts := TallyGood(attempts, key, 1, 4 * counts + 1, counts, 3);
    }
  }

  lemma {:induction false} UncheckedPresses(attempts: seq<Attempt>, key: string, n: nat, counts: nat, checks: nat)
    returns (more: seq<Attempt>)
    requires Tally(attempts, key, 5, true, n, 0, counts)
    ensures Tally(more, key, 5 + checks, true, n + checks, checks, counts)
    decreases checks
  {
    if checks == 0 {
      more := attempts;
    } else {
      more := UncheckedPresses(attempts, key, n, counts, checks - 1);
      more := TallyMore(more, key, 5 + checks - 1, true, n + checks - 1, checks - 1, counts, false, true);
    }
  }

  /** For every number of failed checks and of failed counts there is a run that reaches the bound. */
  lemma BoundIsReached(key: string, checks: nat, counts: nat) returns (attempts: seq<Attempt>)
    ensures Timely(attempts) && !SuccessIn(Run(attempts).history, key, 0)
    ensures FailedChecks(attempts, key, 0) == checks && FailedCounts(attempts, key, 0) == counts
    ensures FailuresIn(Run(attempts).history, key, 0) == 5 + checks + 4 * counts
  {
    attempts := UncountedRounds(key, counts);
    attempts := TallyMore(attempts, key, 4, false, 4 + 4 * counts, 0, counts, true, true);
    attempts := UncheckedPresses(attempts, key, 5 + 4 * counts, counts, checks);
    AllInOneWindow(key, 5 + 4 * counts + checks);
  }

  /** An accepted login at time 0 whose stored failures are not deleted. */
  function AcceptedUndeleted(key: string): Attempt {
    Attempt(key, true, Accepted, Storage(true, true, true, true, false), 0, 0, 0, 0)
  }

  ghost predicate NoDeletes(attempts: seq<Attempt>) {
    forall i :: 0 <= i < |attempts| && attempts[i].outcome.Accepted? ==> !attempts[i].storage.delete
  }

  lemma {:induction false} NoDeletesMore(attempts: seq<Attempt>, a: Attempt)
    requires NoDeletes(attempts) && (a.outcome.Accepted? ==> !a.storage.delete)
    ensures NoDeletes(attempts + [a])
  {
  }

  lemma {:induction false} StreakMore(h: seq<Event>, e: Event, key: string)
    requires e.key == key
    ensures Streak(h + [e], key) == if e.Success? then 0 else Streak(h, key) + 1
  {
    assert (h + [e])[..|h|] == h;
  }

  lemma {:induction false} RejectedInARow(attempts: seq<Attempt>, key: string, count: nat, n: nat)
    returns (more: seq<Attempt>)
    requires Stands(attempts, key, count, count >= 5) && NoDeletes(attempts)
    requires count < 5 && count + n <= 5
    ensures Stands(more, key, count + n, count + n >= 5) && NoDeletes(more)
    ensures Streak(Run(more).history, key) == Streak(Run(attempts).history, key) + n
    decreases n
  {
    if n == 0 {
      more := attempts;
    } else {
      var before := RejectedInARow(attempts, key, count, n - 1);
      more := before + [Press(key, true, true, true)];
      PressMore(before, key, count + n - 1, false, true, true);
      StreakMore(Run(before).history, Failure(key, 0), key);
      NoDeletesMore(before, Press(key, true, true, true));
    }
  }

  /** The login is accepted, and the record stays as it was. */
  lemma {:induction false} AcceptedMore(attempts: seq<Attempt>, key: string, count: nat)
    requires Stands(attempts, key, count, false) && count < 5
    ensures Stands(attempts + [AcceptedUndeleted(key)], key, count, false)
    ensures Run(attempts + [AcceptedUndeleted(key)]).history == Run(attempts).history + [Success(key, 0)]
  {
    RunMore(attempts, AcceptedUndeleted(key), key);
  }

  /**
   * A failed delete after an accepted login brings the lock before five: after any one to four failures and such a
   * login, the key is locked by as many failures as were missing.
   */
  lemma {:induction false} FailedDeleteLocksEarly(key: string, earlier: nat) returns (attempts: seq<Attempt>)
    requires 1 <= earlier < 5
    ensures Timely(attempts) && DeletesFare(attempts, key, false)
    ensures LockedAt(Run(attempts).store, key, 0) && Streak(Run(attempts).history, key) == 5 - earlier
  {
    var before := RejectedInARow([], key, 0, earlier);
    AcceptedMore(before, key, earlier);
    StreakMore(Run(before).history, Success(key, 0), key);
    NoDeletesMore(before, AcceptedUndeleted(key));
    attempts := RejectedInARow(before + [AcceptedUndeleted(key)], key, earlier, 5 - earlier);
  }

  /** So that the lock never comes early rests on exactly these deletes. */
  lemma EarlyLockRestsOnDelete(key: string, delete: bool)
    ensures (forall attempts :: Timely(attempts) && DeletesFare(attempts, key, delete) ==> Counted(Run(attempts), key))
       <==> delete
  {
    if delete {
      forall attempts | Timely(attempts) && DeletesFare(attempts, key, delete) ensures Counted(Run(attempts), key) {
        NoLockBeforeFive(attempts, key);
      }
    } else {
      var attempts := FailedDeleteLocksEarly(key, 1);
      assert !Counted(Run(attempts), key);
    }
  }
}
