/** The in-memory brute-force guard of the admin login: a map from attempt keys
    (IP and username) to failure counters, locked with exponential backoff.
    Instants are nanoseconds; the clock is a parameter of every operation that reads it. */
module LoginGuard {
  import opened Common

  const MINUTE: int := 60_000_000_000
  const MAX_FAILURES: nat := 5
  const WINDOW: int := 15 * MINUTE
  const LOCKOUT_BASE: int := 1 * MINUTE
  const LOCKOUT_MAX: int := 30 * MINUTE
  const MAX_ENTRIES: nat := 20000

  /** The zero instant (January 1 of year 1); no clock reads earlier. */
  const ZERO_TIME: int := -62135596800_000_000_000

  type Instant = t: int | ZERO_TIME <= t witness 0

  // ----- The lockout length: a 64-bit shift that may wrap -----

  /** Two's-complement reading of the low 64 bits. */
  function Wrap64(x: int): int {
    var low := x % 0x1_0000_0000_0000_0000;
    if low < 0x8000_0000_0000_0000 then low else low - 0x1_0000_0000_0000_0000
  }

  function Shl64(d: int, k: nat): int {
    Wrap64(d * Pow2(k))
  }

  function Lockout(lockCount: nat): int {
    var shifted := Shl64(LOCKOUT_BASE, lockCount);
    if shifted <= 0 || shifted > LOCKOUT_MAX then LOCKOUT_MAX else shifted
  }

  /** The intended schedule: each lock doubles the previous one, up to the cap. */
  function Backoff(lockCount: nat): (b: int)
    ensures LOCKOUT_BASE <= b <= LOCKOUT_MAX
  {
    if lockCount == 0 then LOCKOUT_BASE else Min(2 * Backoff(lockCount - 1), LOCKOUT_MAX)
  }

  function Min(a: int, b: int): int {
    if a <= b then a else b
  }

  lemma {:induction false} Pow2Sum(a: nat, b: nat)
    ensures Pow2(a + b) == Pow2(a) * Pow2(b)
  {
    if a > 0 {
      Pow2Sum(a - 1, b);
      assert Pow2(a + b) == 2 * Pow2(a - 1 + b);
    }
  }

  lemma ScaledModulo(m: nat)
    ensures (0x200_0000_0000 * m) % 0x1_0000_0000_0000_0000 == 0x200_0000_0000 * (m % 0x80_0000)
  {
    var q, r := m / 0x80_0000, m % 0x80_0000;
    assert 0x200_0000_0000 * m == 0x1_0000_0000_0000_0000 * q + 0x200_0000_0000 * r;
  }

  /** From 30 doublings on, the shifted value is a multiple of 2^41, which exceeds the cap. */
  lemma LargeShift(k: nat)
    requires k >= 30
    ensures Lockout(k) == LOCKOUT_MAX
  {
    Pow2Sum(30, k - 30);
    SmallPowers();
    var m := 29296875 * Pow2(k - 30);
    assert LOCKOUT_BASE * Pow2(k) == 0x200_0000_0000 * m;
    ScaledModulo(m);
    var r := m % 0x80_0000;
    assert Shl64(LOCKOUT_BASE, k) == 0x200_0000_0000 * r
        || Shl64(LOCKOUT_BASE, k) == 0x200_0000_0000 * (r - 0x80_0000);
  }

  lemma SmallPowers()
    ensures Pow2(5) == 32 && Pow2(10) == 1024 && Pow2(20) == 0x10_0000 && Pow2(28) == 0x1000_0000
    ensures Pow2(29) == 0x2000_0000 && Pow2(30) == 0x4000_0000
  {
    assert Pow2(5) == 32;
    Pow2Sum(5, 5);
    Pow2Sum(10, 10);
    Pow2Sum(20, 5);
    Pow2Sum(25, 3);
  }

  lemma {:induction false} Pow2Monotone(a: nat, b: nat)
    requires a <= b
    ensures Pow2(a) <= Pow2(b)
  {
    if a < b { Pow2Monotone(a, b - 1); }
  }

  lemma NoWrap(x: int)
    requires 0 <= x < 0x8000_0000_0000_0000
    ensures Wrap64(x) == x
  {}

  lemma {:induction false} BackoffIsCappedDoubling(k: nat)
    ensures Backoff(k) == Min(LOCKOUT_BASE * Pow2(k), LOCKOUT_MAX)
  {
    if k > 0 { BackoffIsCappedDoubling(k - 1); }
  }

  /** Up to 27 doublings nothing wraps. */
  lemma SmallShift(k: nat)
    requires k < 28
    ensures Shl64(LOCKOUT_BASE, k) == LOCKOUT_BASE * Pow2(k)
  {
    SmallPowers();
    Pow2Monotone(k, 27);
    assert Pow2(28) == 2 * Pow2(27);
    NoWrap(LOCKOUT_BASE * Pow2(k));
  }

  /** The 28th and 29th doublings wrap to negative numbers. */
  lemma MiddleShift(k: nat)
    requires k == 28 || k == 29
    ensures Shl64(LOCKOUT_BASE, k) < 0
  {
    SmallPowers();
    assert LOCKOUT_BASE * Pow2(k) == if k == 28 then 16106127360000000000 else 32212254720000000000;
  }

  lemma CappedFromFive(k: nat)
    requires k >= 5
    ensures LOCKOUT_BASE * Pow2(k) > LOCKOUT_MAX
  {
    SmallPowers();
    Pow2Monotone(5, k);
  }

  /** The wrapped shift with its fallback is exactly doubling capped at thirty minutes:
      one minute doubled 27 times stays below 2^63, doubled 28 or 29 times it wraps to a
      negative number, and from 30 doublings on it wraps to a multiple of 2^41. */
  lemma LockoutIsBackoff(k: nat)
    ensures Lockout(k) == Backoff(k) == Min(LOCKOUT_BASE * Pow2(k), LOCKOUT_MAX)
  {
    BackoffIsCappedDoubling(k);
    if k < 28 {
      SmallShift(k);
    } else {
      CappedFromFive(k);
      if k < 30 { MiddleShift(k); } else { LargeShift(k); }
    }
  }

  // ----- One attempt key -----

  datatype Attempt = Attempt(failures: nat, windowStart: Instant, lockedUntil: Instant, lockCount: nat)

  datatype Verdict = Open | Locked(wait: int)

  type Entries = map<string, Attempt>

  function Fresh(now: Instant): Attempt {
    Attempt(0, now, ZERO_TIME, 0)
  }

  function Renewed(st: Attempt, now: Instant): Attempt {
    if now - st.windowStart > WINDOW then st.(failures := 0, windowStart := now) else st
  }

  /** What one failed attempt does to the state of its key. */
  function Strike(st: Attempt, now: Instant): (Attempt, Verdict) {
    if now < st.lockedUntil then
      (st, Locked(st.lockedUntil - now))
    else
      var r := Renewed(st, now);
      if r.failures + 1 >= MAX_FAILURES then
        (Attempt(0, now, now + Backoff(r.lockCount), r.lockCount + 1), Locked(Backoff(r.lockCount)))
      else
        (r.(failures := r.failures + 1), Open)
  }

  // ----- The whole guard -----

  predicate Stale(st: Attempt, now: Instant) {
    now > st.lockedUntil && now - st.windowStart > WINDOW
  }

  function Swept(m: Entries, now: Instant): Entries {
    if |m| < MAX_ENTRIES then m else map k | k in m && !Stale(m[k], now) :: m[k]
  }

  function Current(m: Entries, key: string, now: Instant): Attempt {
    if key in m then m[key] else Fresh(now)
  }

  function Recorded(m: Entries, key: string, now: Instant): (Entries, Verdict) {
    if key == "" then (m, Open)
    else
      var swept := Swept(m, now);
      var (st, verdict) := Strike(Current(swept, key, now), now);
      (swept[key := st], verdict)
  }

  function Waiting(m: Entries, key: string, now: Instant): Verdict {
    if key != "" && key in m && now < m[key].lockedUntil then Locked(m[key].lockedUntil - now) else Open
  }

  // ----- What a failure is answered, in numbers -----

  /** The failure is not under a lock, and fewer than four others count in its window of fifteen
      minutes. */
  predicate Spares(m: Entries, key: string, now: Instant) {
    key !in m ||
    (now >= m[key].lockedUntil && (now - m[key].windowStart > 900_000_000_000 || m[key].failures < 4))
  }

  /** A failure under a lock learns the rest of the wait, the fifth of a window locks for one
      minute doubled once per earlier lock and at most thirty, and any other is let through. */
  predicate AnswersFailure(m: Entries, key: string, now: Instant, v: Verdict) {
    if Spares(m, key, now) then v == Open
    else if now < m[key].lockedUntil then v == Locked(m[key].lockedUntil - now)
    else v == Locked(Min(60_000_000_000 * Pow2(m[key].lockCount), 1_800_000_000_000))
  }

  lemma FailureIsAnswered(m: Entries, key: string, now: Instant)
    requires key != ""
    ensures AnswersFailure(m, key, now, Recorded(m, key, now).1)
  {
    SweepIsInvisible(m, key, now);
    if key in m { BackoffIsCappedDoubling(m[key].lockCount); }
  }

  /** What a failure leaves behind: a restarted or continued count, or a lock. */
  lemma FailureIsRecorded(m: Entries, key: string, now: Instant)
    requires key != ""
    ensures var st, v := Recorded(m, key, now).0[key], Recorded(m, key, now).1;
            && (v.Locked? ==> st.lockedUntil == now + v.wait)
            && (v.Open? ==> st.lockedUntil <= now)
            && (key in m && now - m[key].windowStart <= 900_000_000_000 && v.Open? ==>
                  st == m[key].(failures := m[key].failures + 1))
            && (key !in m ==> st == Attempt(1, now, ZERO_TIME, 0))
            && (key in m && now >= m[key].lockedUntil && v.Locked? ==>
                  st.failures == 0 && st.windowStart == now && st.lockCount == m[key].lockCount + 1)
            && (key in m && now < m[key].lockedUntil ==> st == m[key])
  {
  }

  /** The wait a caller is told, by a failure or by asking, is exactly the time until the key is
      open again, as long as nothing else happens to it. */
  lemma WaitIsExact(m: Entries, key: string, now: Instant, later: Instant)
    requires key != "" && now <= later
    ensures Waiting(m, key, later).Locked? <==> Waiting(m, key, now).Locked? && later < now + Waiting(m, key, now).wait
    ensures var (m', v) := Recorded(m, key, now);
            Waiting(m', key, later).Locked? <==> v.Locked? && later < now + v.wait
  {
    FailureIsRecorded(m, key, now);
  }

  class Guard {
    var entries: Entries

    constructor ()
      ensures entries == map[]
    {
      entries := map[];
    }

    method RetryAfter(key: string, now: Instant) returns (v: Verdict)
      ensures v == Waiting(entries, key, now)
      ensures v.Locked? <==> key != "" && key in entries && now < entries[key].lockedUntil
      ensures v.Locked? ==> now + v.wait == entries[key].lockedUntil
    {
      if key == "" || key !in entries { return Open; }
      var st := entries[key];
      if now < st.lockedUntil { return Locked(st.lockedUntil - now); }
      return Open;
    }

    method RecordFailure(key: string, now: Instant) returns (v: Verdict)
      modifies this
      ensures (entries, v) == Recorded(old(entries), key, now)
      ensures key != "" ==> AnswersFailure(old(entries), key, now, v)
    {
      ghost var before := entries;
      if key != "" { FailureIsAnswered(before, key, now); }
      if key == "" { return Open; }
      SweepLocked(now);
      ghost var swept := entries;
      var st := Fresh(now);
      if key in entries {
        st := entries[key];
      } else {
        entries := entries[key := st];
      }
      if now < st.lockedUntil {
        assert entries == swept[key := st];
        return Locked(st.lockedUntil - now);
      }
      if now - st.windowStart > WINDOW {
        st := st.(failures := 0, windowStart := now);
      }
      st := st.(failures := st.failures + 1);
      if st.failures >= MAX_FAILURES {
        var lockout := Shl64(LOCKOUT_BASE, st.lockCount);
        if lockout <= 0 || lockout > LOCKOUT_MAX {
          lockout := LOCKOUT_MAX;
        }
        LockoutIsBackoff(st.lockCount);
        st := Attempt(0, now, now + lockout, st.lockCount + 1);
        entries := entries[key := st];
        assert entries == swept[key := st];
        return Locked(lockout);
      }
      entries := entries[key := st];
      assert entries == swept[key := st];
      return Open;
    }

    method Reset(key: string)
      modifies this
      ensures entries == if key == "" then old(entries) else old(entries) - {key}
    {
      if key == "" { return; }
      entries := entries - {key};
    }

    /** Deletes while walking the map in an arbitrary order. */
    method SweepLocked(now: Instant)
      modifies this
      ensures entries == Swept(old(entries), now)
      ensures |old(entries)| < 20000 ==> entries == old(entries)
      ensures |old(entries)| >= 20000 ==>
                forall k :: k in entries <==>
                  && k in old(entries)
                  && (now <= old(entries)[k].lockedUntil || now - old(entries)[k].windowStart <= 900_000_000_000)
      ensures forall k :: k in entries ==> entries[k] == old(entries)[k]
    {
      if |entries| < MAX_ENTRIES { return; }
      ghost var before := entries;
      var todo := entries.Keys;
      while todo != {}
        invariant todo <= before.Keys
        invariant entries == map k | k in before && (k in todo || !Stale(before[k], now)) :: before[k]
        decreases todo
      {
        var k :| k in todo;
        if Stale(entries[k], now) {
          entries := entries - {k};
        }
        todo := todo - {k};
      }
    }
  }

  // ----- Runs -----

  datatype Event = Failure(key: string, at: Instant) | Reset(key: string)

  function Apply(m: Entries, e: Event): Entries {
    match e
    case Failure(key, at) => Recorded(m, key, at).0
    case Reset(key) => if key == "" then m else m - {key}
  }

  function Resume(m: Entries, evs: seq<Event>): Entries {
    if evs == [] then m else Apply(Resume(m, evs[..|evs| - 1]), evs[|evs| - 1])
  }

  /** The guard after a whole run that starts with an empty map. */
  function Run(evs: seq<Event>): Entries {
    Resume(map[], evs)
  }

  /** The latest clock reading, where `t` was read before the events. */
  function Latest(t: Instant, evs: seq<Event>): Instant {
    if evs == [] then t
    else match evs[|evs| - 1]
      case Failure(_, at) => at
      case Reset(_) => Latest(t, evs[..|evs| - 1])
  }

  /** From `t` on, the clock never goes back. */
  predicate Ordered(t: Instant, evs: seq<Event>) {
    evs == [] ||
    (Ordered(t, evs[..|evs| - 1]) &&
     (evs[|evs| - 1].Failure? ==> Latest(t, evs[..|evs| - 1]) <= evs[|evs| - 1].at))
  }

  /** Some run from an empty map, followed by more events; the clock never goes back. */
  predicate Follows(before: seq<Event>, during: seq<Event>) {
    Ordered(ZERO_TIME, before) && Ordered(Latest(ZERO_TIME, before), during)
  }

  /** What an observer of one key sees: failures not made under a lock, the instants of its
      locks, the instants at which its window was found expired (restarted by a failure or
      dropped by the sweep), how often the sweep dropped it, and its locks since then. */
  datatype History = History(counted: nat, locks: seq<Instant>, expiries: seq<Instant>, dropped: nat, recent: nat)

  const NOTHING := History(0, [], [], 0, 0)

  /** The history of `key` over events that start from the map `m`. */
  function Observe(key: string, m: Entries, evs: seq<Event>): History {
    if evs == [] then NOTHING
    else
      var before := evs[..|evs| - 1];
      var h := Observe(key, m, before);
      match evs[|evs| - 1]
      case Reset(_) => h
      case Failure(k, at) => if k == "" then h else ObserveFailure(key, Resume(m, before), h, k, at)
  }

  function ObserveSweep(key: string, m: Entries, h: History, at: Instant): History {
    if key in m && key !in Swept(m, at) then
      h.(expiries := h.expiries + [at], dropped := h.dropped + 1, recent := 0)
    else h
  }

  function ObserveFailure(key: string, m: Entries, h: History, k: string, at: Instant): History {
    var h1 := ObserveSweep(key, m, h, at);
    if k != key then h1 else ObserveStrike(h1, Current(Swept(m, at), key, at), at)
  }

  function ObserveStrike(h: History, st: Attempt, at: Instant): History {
    if at < st.lockedUntil then h
    else if Renewed(st, at).failures + 1 >= MAX_FAILURES then
      h.(counted := h.counted + 1, locks := h.locks + [at], recent := h.recent + 1)
    else if at - st.windowStart > WINDOW then h.(counted := h.counted + 1, expiries := h.expiries + [at])
    else h.(counted := h.counted + 1)
  }

  // ----- Spacing -----

  function Gap(ts: seq<Instant>, j: int): int
    requires 0 < j < |ts|
  {
    var earlier: int, later: int := ts[j - 1], ts[j];
    later - earlier
  }

  function Last(ts: seq<Instant>): int
    requires ts != []
  {
    ts[|ts| - 1]
  }

  /** Neighbouring instants differ by at least `least`. */
  predicate Apart(ts: seq<Instant>, least: int) {
    forall j :: 0 < j < |ts| ==> Gap(ts, j) >= least
  }

  /** The lock after the j-th one waits at least the j-th backoff. */
  predicate BackedOff(locks: seq<Instant>) {
    forall j :: 0 < j < |locks| ==> Gap(locks, j) >= Backoff(j - 1)
  }

  lemma ApartSnoc(ts: seq<Instant>, t: Instant, least: int)
    requires Apart(ts, least) && (ts != [] ==> t - Last(ts) >= least)
    ensures Apart(ts + [t], least)
  {
    forall j | 0 < j < |ts + [t]| ensures Gap(ts + [t], j) >= least {
      if j < |ts| { assert Gap(ts + [t], j) == Gap(ts, j); }
    }
  }

  lemma BackedOffSnoc(locks: seq<Instant>, t: Instant)
    requires BackedOff(locks) && (locks != [] ==> t - Last(locks) >= Backoff(|locks| - 1))
    ensures BackedOff(locks + [t])
  {
    forall j | 0 < j < |locks + [t]| ensures Gap(locks + [t], j) >= Backoff(j - 1) {
      if j < |locks| { assert Gap(locks + [t], j) == Gap(locks, j); }
    }
  }

  lemma {:induction false} BackoffMonotone(a: nat, b: nat)
    requires a <= b
    ensures Backoff(a) <= Backoff(b)
  {
    if a < b { BackoffMonotone(a, b - 1); }
  }

  // ----- What locks cost -----

  function TotalBackoff(n: nat): nat {
    if n == 0 then 0 else TotalBackoff(n - 1) + Backoff(n - 1)
  }

  /** No schedule of failures, not even one that lets the sweep forget earlier locks, earns locks
      faster than one per five and a half minutes in the long run: four locks cost seven minutes
      of backoff and the fifteen minutes until the entry may be dropped. */
  const LOCK_COST: nat := 330_000_000_000

  /** The locks made since an entry was created are paid for by their backoffs and one window. */
  lemma {:induction false} LocksArePaid(n: nat)
    requires n >= 1
    ensures n * LOCK_COST <= TotalBackoff(n - 1) + WINDOW
  {
    FirstBackoffs();
    if n > 5 {
      LocksArePaid(n - 1);
      BackoffMonotone(3, n - 2);
    }
  }

  lemma FirstBackoffs()
    ensures Backoff(0) == MINUTE && Backoff(1) == 2 * MINUTE && Backoff(2) == 4 * MINUTE
    ensures Backoff(3) == 8 * MINUTE && Backoff(4) == 16 * MINUTE
    ensures TotalBackoff(0) == 0 && TotalBackoff(1) == MINUTE && TotalBackoff(2) == 3 * MINUTE
    ensures TotalBackoff(3) == 7 * MINUTE && TotalBackoff(4) == 15 * MINUTE && TotalBackoff(5) == 31 * MINUTE
  {
    assert Backoff(1) == 2 * MINUTE;
    assert Backoff(3) == 8 * MINUTE;
    assert TotalBackoff(1) == MINUTE;
    assert TotalBackoff(3) == 7 * MINUTE;
    assert TotalBackoff(4) == 15 * MINUTE;
  }

  // ----- The run invariant -----

  predicate Spaced(h: History) {
    && Apart(h.locks, LOCKOUT_BASE)
    && Apart(h.expiries, WINDOW + 1)
    && (h.dropped == 0 ==> BackedOff(h.locks))
  }

  function Allowance(h: History): nat {
    5 * |h.locks| + 4 * |h.expiries|
  }

  /** Since `start` the locks have cost their time: up to the last time the entry was dropped in
      full, and after that up to the backoffs of the recent ones. */
  predicate Paid(h: History, start: Instant) {
    && h.recent <= |h.locks| && (h.dropped == 0 ==> h.recent == |h.locks|)
    && (h.locks != [] ==>
          if h.recent == 0 then h.expiries != [] && |h.locks| * LOCK_COST <= Last(h.expiries) - start
          else |h.locks| * LOCK_COST <= Last(h.locks) - start - TotalBackoff(h.recent - 1) + h.recent * LOCK_COST)
  }

  predicate Absent(h: History, latest: Instant) {
    && h.counted <= Allowance(h) && h.recent == 0
    && (h.locks != [] ==> Last(h.locks) + LOCKOUT_BASE <= latest)
    && (h.expiries != [] ==> Last(h.expiries) <= latest)
  }

  predicate Sane(st: Attempt, latest: Instant) {
    st.failures < MAX_FAILURES && st.windowStart <= latest
  }

  predicate Tracked(h: History, st: Attempt, latest: Instant) {
    && Sane(st, latest)
    && h.counted <= Allowance(h) + st.failures
    && (h.expiries != [] ==> Last(h.expiries) <= st.windowStart)
    && (h.recent == 0 && h.locks != [] ==> Last(h.locks) + LOCKOUT_BASE <= st.windowStart)
    && (h.recent > 0 && h.locks != [] ==>
          && h.recent <= st.lockCount && Last(h.locks) <= st.windowStart
          && st.lockedUntil == Last(h.locks) + Backoff(st.lockCount - 1))
  }

  predicate Consistent(key: string, m: Entries, h: History, start: Instant, latest: Instant) {
    Spaced(h) && Paid(h, start) && if key in m then Tracked(h, m[key], latest) else Absent(h, latest)
  }

  lemma LockIsPaid(h: History, st: Attempt, start: Instant, at: Instant)
    requires Paid(h, start) && Tracked(h, st, at) && st.lockedUntil <= at && start <= at
    ensures Paid(h.(locks := h.locks + [at], recent := h.recent + 1), start)
  {
    assert Last(h.locks + [at]) == at;
    assert (|h.locks| + 1) * LOCK_COST == |h.locks| * LOCK_COST + LOCK_COST;
    if h.recent > 0 {
      BackoffMonotone(h.recent - 1, st.lockCount - 1);
      assert (h.recent + 1) * LOCK_COST == h.recent * LOCK_COST + LOCK_COST;
    }
  }

  lemma LockIsSpaced(h: History, st: Attempt, start: Instant, at: Instant)
    requires Spaced(h) && Paid(h, start) && Tracked(h, st, at) && st.lockedUntil <= at
    ensures Spaced(h.(locks := h.locks + [at]))
  {
    if h.recent > 0 { BackoffMonotone(h.recent - 1, st.lockCount - 1); }
    ApartSnoc(h.locks, at, LOCKOUT_BASE);
    if h.dropped == 0 { BackedOffSnoc(h.locks, at); }
  }

  /** A lock: a restarted window cannot lock at once, so the lock keeps its window. */
  lemma LockKeepsTracked(h: History, st: Attempt, start: Instant, at: Instant)
    requires Spaced(h) && Paid(h, start) && Tracked(h, st, at) && start <= at
    requires st.lockedUntil <= at && Renewed(st, at).failures + 1 >= MAX_FAILURES
    ensures Spaced(ObserveStrike(h, st, at)) && Paid(ObserveStrike(h, st, at), start)
    ensures Tracked(ObserveStrike(h, st, at), Strike(st, at).0, at)
  {
    assert st.failures == 4 && at - st.windowStart <= WINDOW;
    LockIsSpaced(h, st, start, at);
    LockIsPaid(h, st, start, at);
    assert Last(h.locks + [at]) == at;
  }

  lemma RenewalKeepsTracked(h: History, st: Attempt, start: Instant, at: Instant)
    requires Spaced(h) && Paid(h, start) && Tracked(h, st, at)
    requires st.lockedUntil <= at && at - st.windowStart > WINDOW
    ensures Spaced(ObserveStrike(h, st, at)) && Paid(ObserveStrike(h, st, at), start)
    ensures Tracked(ObserveStrike(h, st, at), Strike(st, at).0, at)
  {
    ApartSnoc(h.expiries, at, WINDOW + 1);
    assert Last(h.expiries + [at]) == at;
  }

  lemma CountKeepsTracked(h: History, st: Attempt, start: Instant, at: Instant)
    requires Spaced(h) && Paid(h, start) && Tracked(h, st, at)
    requires at < st.lockedUntil || (st.failures + 1 < MAX_FAILURES && at - st.windowStart <= WINDOW)
    ensures Spaced(ObserveStrike(h, st, at)) && Paid(ObserveStrike(h, st, at), start)
    ensures Tracked(ObserveStrike(h, st, at), Strike(st, at).0, at)
  {
  }

  lemma StrikeKeepsTracked(h: History, st: Attempt, start: Instant, at: Instant)
    requires Spaced(h) && Paid(h, start) && Tracked(h, st, at) && start <= at
    ensures Spaced(ObserveStrike(h, st, at)) && Paid(ObserveStrike(h, st, at), start)
    ensures Tracked(ObserveStrike(h, st, at), Strike(st, at).0, at)
  {
    if at < st.lockedUntil {
      CountKeepsTracked(h, st, start, at);
    } else if at - st.windowStart > WINDOW {
      RenewalKeepsTracked(h, st, start, at);
    } else if st.failures + 1 < MAX_FAILURES {
      CountKeepsTracked(h, st, start, at);
    } else {
      LockKeepsTracked(h, st, start, at);
    }
  }

  lemma DropKeepsAbsent(h: History, st: Attempt, start: Instant, at: Instant)
    requires Spaced(h) && Paid(h, start) && Tracked(h, st, at) && Stale(st, at)
    ensures var h' := h.(expiries := h.expiries + [at], dropped := h.dropped + 1, recent := 0);
            Spaced(h') && Paid(h', start) && Absent(h', at)
  {
    ApartSnoc(h.expiries, at, WINDOW + 1);
    assert Last(h.expiries + [at]) == at;
    if h.recent > 0 { LocksArePaid(h.recent); }
  }

  lemma LaterKeepsConsistent(key: string, m: Entries, h: History, start: Instant, latest: Instant, at: Instant)
    requires Consistent(key, m, h, start, latest) && latest <= at
    ensures Consistent(key, m, h, start, at)
  {
  }

  lemma SweepKeepsConsistent(key: string, m: Entries, h: History, start: Instant, at: Instant)
    requires Consistent(key, m, h, start, at)
    ensures Consistent(key, Swept(m, at), ObserveSweep(key, m, h, at), start, at)
  {
    if key in m && key !in Swept(m, at) { DropKeepsAbsent(h, m[key], start, at); }
  }

  lemma StrikeKeepsConsistent(key: string, m: Entries, h: History, start: Instant, at: Instant)
    requires Consistent(key, m, h, start, at) && start <= at
    ensures var st := Current(m, key, at);
            Consistent(key, m[key := Strike(st, at).0], ObserveStrike(h, st, at), start, at)
  {
    StrikeKeepsTracked(h, Current(m, key, at), start, at);
  }

  lemma FailureKeepsConsistent(key: string, m: Entries, h: History, start: Instant, latest: Instant, k: string,
                               at: Instant)
    requires Consistent(key, m, h, start, latest) && latest <= at && start <= at && k != ""
    ensures Consistent(key, Recorded(m, k, at).0, ObserveFailure(key, m, h, k, at), start, at)
  {
    LaterKeepsConsistent(key, m, h, start, latest, at);
    SweepKeepsConsistent(key, m, h, start, at);
    if k == key { StrikeKeepsConsistent(key, Swept(m, at), ObserveSweep(key, m, h, at), start, at); }
  }

  predicate NotBefore(start: Instant, evs: seq<Event>) {
    forall e :: e in evs && e.Failure? ==> start <= e.at
  }

  /** From any sane entry (or none) on, through all events without a reset of the key. */
  lemma {:induction false} RunKeepsConsistent(key: string, m: Entries, t: Instant, start: Instant, evs: seq<Event>)
    requires key in m ==> Sane(m[key], t)
    requires Ordered(t, evs) && NotBefore(start, evs) && Reset(key) !in evs
    ensures Consistent(key, Resume(m, evs), Observe(key, m, evs), start, Latest(t, evs))
  {
    if evs != [] {
      var before, e := evs[..|evs| - 1], evs[|evs| - 1];
      RunKeepsConsistent(key, m, t, start, before);
      assert e in evs;
      if e.Failure? && e.key != "" {
        FailureKeepsConsistent(key, Resume(m, before), Observe(key, m, before), start, Latest(t, before), e.key, e.at);
      } else if e.Failure? {
        LaterKeepsConsistent(key, Resume(m, before), Observe(key, m, before), start, Latest(t, before), e.at);
      }
    }
  }

  /** Every entry that any run leaves behind, resets included, is sane. */
  lemma RunIsSane(key: string, evs: seq<Event>)
    requires Ordered(ZERO_TIME, evs)
    ensures key in Run(evs) ==> Sane(Run(evs)[key], Latest(ZERO_TIME, evs))
  {
    ContinuationIsSane(key, map[], ZERO_TIME, evs);
  }

  lemma ContinuationIsConsistent(key: string, before: seq<Event>, during: seq<Event>, start: Instant)
    requires Follows(before, during) && Reset(key) !in during && NotBefore(start, during)
    ensures Consistent(key, Resume(Run(before), during), Observe(key, Run(before), during), start,
                       Latest(Latest(ZERO_TIME, before), during))
  {
    RunIsSane(key, before);
    RunKeepsConsistent(key, Run(before), Latest(ZERO_TIME, before), start, during);
  }

  // ----- What the guard guarantees over a run -----

  lemma {:induction false} TotalBackoffClosedForm(n: nat)
    requires n >= 5
    ensures TotalBackoff(n) == 31 * MINUTE + (n - 5) * LOCKOUT_MAX
  {
    FirstBackoffs();
    if n > 5 {
      TotalBackoffClosedForm(n - 1);
      BackoffCapped(n - 1);
    }
  }

  lemma {:induction false} BackoffCapped(k: nat)
    requires k >= 5
    ensures Backoff(k) == LOCKOUT_MAX
  {
    FirstBackoffs();
    if k > 5 { BackoffCapped(k - 1); }
  }

  lemma {:induction false} LocksTakeTheirBackoffs(locks: seq<Instant>)
    requires BackedOff(locks) && locks != []
    ensures Last(locks) - locks[0] >= TotalBackoff(|locks| - 1)
  {
    if |locks| > 1 {
      var n := |locks| - 1;
      forall j | 0 < j < n ensures Gap(locks[..n], j) >= Backoff(j - 1) {
        assert Gap(locks[..n], j) == Gap(locks, j);
      }
      LocksTakeTheirBackoffs(locks[..n]);
      assert Gap(locks, n) >= Backoff(n - 1);
    }
  }

  lemma {:induction false} ApartAddsUp(ts: seq<Instant>, least: nat)
    requires Apart(ts, least) && ts != []
    ensures Last(ts) - ts[0] >= (|ts| - 1) * least
  {
    if |ts| > 1 {
      var n := |ts| - 1;
      forall j | 0 < j < n ensures Gap(ts[..n], j) >= least {
        assert Gap(ts[..n], j) == Gap(ts, j);
      }
      ApartAddsUp(ts[..n], least);
      assert Gap(ts, n) >= least;
      assert n * least == (n - 1) * least + least;
    }
  }

  /** Counted failures are paid for by locks and expired windows, which keep their distance; and
      while the sweep does not drop the key, n locks take the sum of n-1 backoffs. */
  predicate Throttled(h: History) {
    && h.counted <= 5 * |h.locks| + 4 * (1 + |h.expiries|)
    && Apart(h.expiries, WINDOW + 1)
    && Apart(h.locks, LOCKOUT_BASE)
    && (h.dropped == 0 && h.locks != [] ==>
          BackedOff(h.locks) && Last(h.locks) - h.locks[0] >= TotalBackoff(|h.locks| - 1))
  }

  lemma ConsistentIsThrottled(key: string, m: Entries, h: History, start: Instant, latest: Instant)
    requires Consistent(key, m, h, start, latest)
    ensures Throttled(h)
  {
    if h.dropped == 0 && h.locks != [] { LocksTakeTheirBackoffs(h.locks); }
  }

  /** After every run, over all further events without a reset of `key`. */
  lemma {:induction false} LockoutThrottles(key: string, before: seq<Event>, during: seq<Event>)
    requires Follows(before, during) && Reset(key) !in during
    ensures Throttled(Observe(key, Run(before), during))
  {
    assert NotBefore(ZERO_TIME, during);
    ContinuationIsConsistent(key, before, during, ZERO_TIME);
    ConsistentIsThrottled(key, Resume(Run(before), during), Observe(key, Run(before), during), ZERO_TIME,
                          Latest(Latest(ZERO_TIME, before), during));
  }

  // ----- Locks are not handed out early -----

  predicate Earned(key: string, m: Entries, h: History) {
    5 * |h.locks| + (if key in m then m[key].failures else 0) <= h.counted + 4
  }

  lemma StrikeIsEarned(st: Attempt, h: History, at: Instant)
    requires st.failures <= 4 && 5 * |h.locks| + st.failures <= h.counted + 4
    ensures 5 * |ObserveStrike(h, st, at).locks| + Strike(st, at).0.failures <= ObserveStrike(h, st, at).counted + 4
  {
  }

  lemma FailureIsEarned(key: string, m: Entries, h: History, k: string, at: Instant)
    requires Earned(key, m, h) && (key in m ==> m[key].failures <= 4) && k != ""
    ensures Earned(key, Recorded(m, k, at).0, ObserveFailure(key, m, h, k, at))
  {
    if k == key { StrikeIsEarned(Current(Swept(m, at), key, at), ObserveSweep(key, m, h, at), at); }
  }

  lemma ResetIsEarned(key: string, m: Entries, h: History, k: string)
    requires Earned(key, m, h)
    ensures Earned(key, Apply(m, Reset(k)), h)
  {
  }

  lemma StrikeIsSane(st: Attempt, t: Instant, at: Instant)
    requires Sane(st, t) && t <= at
    ensures Sane(Strike(st, at).0, at)
  {
  }

  lemma EventIsSane(key: string, m: Entries, t: Instant, e: Event)
    requires (key in m ==> Sane(m[key], t)) && (e.Failure? ==> t <= e.at)
    ensures key in Apply(m, e) ==> Sane(Apply(m, e)[key], if e.Failure? then e.at else t)
  {
    if e.Failure? && e.key == key && key != "" {
      var st := Current(Swept(m, e.at), key, e.at);
      StrikeIsSane(st, if key in Swept(m, e.at) then t else e.at, e.at);
    }
  }

  lemma {:induction false} ContinuationIsSane(key: string, m: Entries, t: Instant, evs: seq<Event>)
    requires (key in m ==> Sane(m[key], t)) && Ordered(t, evs)
    ensures key in Resume(m, evs) ==> Sane(Resume(m, evs)[key], Latest(t, evs))
  {
    if evs != [] {
      var before, e := evs[..|evs| - 1], evs[|evs| - 1];
      ContinuationIsSane(key, m, t, before);
      EventIsSane(key, Resume(m, before), Latest(t, before), e);
    }
  }

  lemma {:induction false} ContinuationIsEarned(key: string, m: Entries, t: Instant, evs: seq<Event>)
    requires (key in m ==> Sane(m[key], t)) && Ordered(t, evs)
    ensures Earned(key, Resume(m, evs), Observe(key, m, evs))
  {
    if evs != [] {
      var before, e := evs[..|evs| - 1], evs[|evs| - 1];
      ContinuationIsEarned(key, m, t, before);
      ContinuationIsSane(key, m, t, before);
      if e.Reset? {
        ResetIsEarned(key, Resume(m, before), Observe(key, m, before), e.key);
      } else if e.key != "" {
        FailureIsEarned(key, Resume(m, before), Observe(key, m, before), e.key, e.at);
      }
    }
  }

  /** After every run, resets included, a lock has cost five counted failures, of which at most
      four were made before. */
  lemma LocksAreEarned(key: string, before: seq<Event>, during: seq<Event>)
    requires Follows(before, during)
    ensures var h := Observe(key, Run(before), during); 5 * |h.locks| <= h.counted + 4
  {
    RunIsSane(key, before);
    ContinuationIsEarned(key, Run(before), Latest(ZERO_TIME, before), during);
  }

  // ----- Budgets -----

  predicate Within(evs: seq<Event>, start: Instant, span: nat) {
    forall e :: e in evs && e.Failure? ==> start <= e.at <= start + span
  }

  predicate AllWithin(ts: seq<Instant>, start: Instant, span: nat) {
    forall j :: 0 <= j < |ts| ==> start <= ts[j] <= start + span
  }

  predicate HistoryWithin(h: History, start: Instant, span: nat) {
    AllWithin(h.locks, start, span) && AllWithin(h.expiries, start, span)
  }

  lemma SweepWithin(key: string, m: Entries, h: History, at: Instant, start: Instant, span: nat)
    requires HistoryWithin(h, start, span) && start <= at <= start + span
    ensures HistoryWithin(ObserveSweep(key, m, h, at), start, span)
  {
  }

  lemma StrikeWithin(h: History, st: Attempt, at: Instant, start: Instant, span: nat)
    requires HistoryWithin(h, start, span) && start <= at <= start + span
    ensures HistoryWithin(ObserveStrike(h, st, at), start, span)
  {
  }

  lemma FailureWithin(key: string, m: Entries, h: History, k: string, at: Instant, start: Instant, span: nat)
    requires HistoryWithin(h, start, span) && start <= at <= start + span
    ensures HistoryWithin(ObserveFailure(key, m, h, k, at), start, span)
  {
    SweepWithin(key, m, h, at, start, span);
    StrikeWithin(ObserveSweep(key, m, h, at), Current(Swept(m, at), key, at), at, start, span);
  }

  lemma {:induction false} ObservedWithin(key: string, m: Entries, evs: seq<Event>, start: Instant, span: nat)
    requires Within(evs, start, span)
    ensures HistoryWithin(Observe(key, m, evs), start, span)
  {
    if evs != [] {
      var before, e := evs[..|evs| - 1], evs[|evs| - 1];
      ObservedWithin(key, m, before, start, span);
      assert e in evs;
      if e.Failure? && e.key != "" {
        FailureWithin(key, Resume(m, before), Observe(key, m, before), e.key, e.at, start, span);
      }
    }
  }

  lemma AtMostQuotient(n: nat, d: nat, span: nat)
    requires d > 0 && n * d <= span
    ensures n <= span / d
  {
    var q := span / d;
    assert span < (q + 1) * d;
    assert n * d < (q + 1) * d;
  }

  /** Whatever the sweep drops, locks come at most one per five and a half minutes. */
  lemma LockBound(h: History, start: Instant, span: nat)
    requires Paid(h, start) && HistoryWithin(h, start, span)
    ensures |h.locks| <= (span + WINDOW) / LOCK_COST
  {
    if h.locks != [] {
      if h.recent > 0 { LocksArePaid(h.recent); }
      AtMostQuotient(|h.locks|, LOCK_COST, span + WINDOW);
    }
  }

  lemma UnsweptLockBound(locks: seq<Instant>, start: Instant, span: nat)
    requires BackedOff(locks) && AllWithin(locks, start, span)
    ensures |locks| <= 6 + span / LOCKOUT_MAX
  {
    if |locks| > 6 {
      LocksTakeTheirBackoffs(locks);
      TotalBackoffClosedForm(|locks| - 1);
      AtMostQuotient(|locks| - 6, LOCKOUT_MAX, span);
    }
  }

  lemma ExpiryBound(ts: seq<Instant>, start: Instant, span: nat)
    requires Apart(ts, WINDOW + 1) && AllWithin(ts, start, span)
    ensures |ts| <= 1 + span / WINDOW
  {
    if |ts| > 1 {
      var n := |ts| - 1;
      ApartAddsUp(ts, WINDOW + 1);
      assert n * (WINDOW + 1) == n * WINDOW + n;
      AtMostQuotient(n, WINDOW, span);
    }
  }

  /** How many locks and counted failures a span of time admits. */
  function LockBudget(span: nat): nat {
    (span + WINDOW) / LOCK_COST
  }

  function Budget(span: nat): nat {
    8 + 5 * LockBudget(span) + 4 * (span / WINDOW)
  }

  lemma ConsistentIsWithinBudget(key: string, m: Entries, h: History, start: Instant, latest: Instant, span: nat)
    requires Consistent(key, m, h, start, latest)
    requires HistoryWithin(h, start, span)
    ensures |h.locks| <= LockBudget(span) && h.counted <= Budget(span)
    ensures h.dropped == 0 ==> h.counted <= 38 + 5 * (span / LOCKOUT_MAX) + 4 * (span / WINDOW)
  {
    LockBound(h, start, span);
    ExpiryBound(h.expiries, start, span);
    if h.dropped == 0 { UnsweptLockBound(h.locks, start, span); }
  }

  /** The brute-force budget: after any run, and with any number of other keys forcing sweeps,
      within any span of time without a reset of `key` at most this many failures on it are
      counted, however they are timed; and while the sweep does not drop the key, fewer. */
  lemma {:induction false} GuessBudget(key: string, before: seq<Event>, during: seq<Event>, start: Instant, span: nat)
    requires Follows(before, during) && Reset(key) !in during && Within(during, start, span)
    ensures var h := Observe(key, Run(before), during);
            && |h.locks| <= LockBudget(span) && h.counted <= Budget(span)
            && (h.dropped == 0 ==> h.counted <= 38 + 5 * (span / LOCKOUT_MAX) + 4 * (span / WINDOW))
  {
    assert NotBefore(start, during);
    ContinuationIsConsistent(key, before, during, start);
    ObservedWithin(key, Run(before), during, start, span);
    ConsistentIsWithinBudget(key, Resume(Run(before), during), Observe(key, Run(before), during), start,
                             Latest(Latest(ZERO_TIME, before), during), span);
  }

  function KeysOf(evs: seq<Event>): set<string> {
    set e | e in evs :: e.key
  }

  lemma ApplyKeys(m: Entries, e: Event)
    ensures Apply(m, e).Keys <= m.Keys + {e.key}
  {
  }

  lemma {:induction false} ResumeKeys(m: Entries, evs: seq<Event>)
    ensures Resume(m, evs).Keys <= m.Keys + KeysOf(evs)
  {
    if evs != [] {
      var before, e := evs[..|evs| - 1], evs[|evs| - 1];
      ResumeKeys(m, before);
      ApplyKeys(Resume(m, before), e);
      assert KeysOf(before) <= KeysOf(evs);
      assert e in evs;
    }
  }

  lemma BelowCapNothingIsDropped(key: string, m: Entries, h: History, k: string, at: Instant)
    requires |m| < MAX_ENTRIES
    ensures ObserveFailure(key, m, h, k, at).dropped == h.dropped
  {
  }

  /** While fewer keys than the cap are in play, the sweep drops nothing. */
  lemma {:induction false} FewKeysAreNeverSwept(key: string, m: Entries, evs: seq<Event>)
    requires |m.Keys + KeysOf(evs)| < MAX_ENTRIES
    ensures Observe(key, m, evs).dropped == 0
  {
    if evs != [] {
      var before, e := evs[..|evs| - 1], evs[|evs| - 1];
      assert KeysOf(before) <= KeysOf(evs);
      Smaller(m.Keys + KeysOf(before), m.Keys + KeysOf(evs));
      FewKeysAreNeverSwept(key, m, before);
      ResumeKeys(m, before);
      Smaller(Resume(m, before).Keys, m.Keys + KeysOf(before));
      assert |Resume(m, before)| == |Resume(m, before).Keys|;
      if e.Failure? && e.key != "" {
        BelowCapNothingIsDropped(key, Resume(m, before), Observe(key, m, before), e.key, e.at);
      }
    }
  }

  lemma Smaller<T>(a: set<T>, b: set<T>)
    requires a <= b
    ensures |a| <= |b|
  {
    assert b == a + (b - a);
  }

  // ----- Keys do not interfere -----

  /** An event on another key, with any sweep it triggers, changes neither how long `key` still
      waits nor the outcome of the next failure on `key`, at any later instant. */
  lemma OtherEventDoesNotInterfere(m: Entries, e: Event, key: string, later: Instant)
    requires e.key != key
    requires e.Failure? ==> e.at <= later
    ensures Waiting(Apply(m, e), key, later) == Waiting(m, key, later)
    ensures Recorded(Apply(m, e), key, later).1 == Recorded(m, key, later).1
  {
    if key == "" { return; }
    var m' := Apply(m, e);
    SweepIsInvisible(m, key, later);
    SweepIsInvisible(m', key, later);
    if e.Failure? && e.key != "" {
      assert key in m' <==> key in Swept(m, e.at);
      assert key in m && key !in m' ==> Stale(m[key], later);
    }
  }

  /** A failure reads the same verdict from a stale entry as from no entry. */
  lemma SweepIsInvisible(m: Entries, key: string, at: Instant)
    requires key != ""
    ensures Recorded(m, key, at).1 == Strike(Current(m, key, at), at).1
    ensures key in m && Stale(m[key], at) ==> Recorded(m, key, at).1 == Open
  {
  }

  /** Nor does any number of events on other keys. */
  lemma {:induction false} OtherKeysDoNotInterfere(m: Entries, evs: seq<Event>, key: string, later: Instant)
    requires forall e :: e in evs ==> e.key != key && (e.Failure? ==> e.at <= later)
    ensures Waiting(Resume(m, evs), key, later) == Waiting(m, key, later)
    ensures Recorded(Resume(m, evs), key, later).1 == Recorded(m, key, later).1
  {
    if evs != [] {
      var before, e := evs[..|evs| - 1], evs[|evs| - 1];
      assert e in evs;
      OtherKeysDoNotInterfere(m, before, key, later);
      OtherEventDoesNotInterfere(Resume(m, before), e, key, later);
    }
  }

  /** A lock ends only by a reset of its own key or by the clock: any continuation before the
      lock's end leaves the entry as it is. */
  lemma {:induction false} LockPersists(m: Entries, key: string, evs: seq<Event>)
    requires key in m && Reset(key) !in evs
    requires forall e :: e in evs && e.Failure? ==> e.at < m[key].lockedUntil
    ensures key in Resume(m, evs) && Resume(m, evs)[key] == m[key]
  {
    if evs != [] {
      var before, e := evs[..|evs| - 1], evs[|evs| - 1];
      LockPersists(m, key, before);
      assert e in evs;
    }
  }

  /** A reset opens its key at once and gives it a new count; it touches no other key. */
  lemma ResetForgets(m: Entries, key: string, now: Instant, other: string)
    requires key != ""
    ensures var m' := Apply(m, Reset(key));
            && key !in m' && Waiting(m', key, now) == Open && Recorded(m', key, now).1 == Open
            && (other != key ==> (other in m' <==> other in m) && (other in m ==> m'[other] == m[other]))
  {
  }
}
