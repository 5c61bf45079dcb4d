/** Concurrent logins. A login asks the guard once before its guess is evaluated and once more
    after a wrong guess, in two separate mutex sections, so a lock may fall in between. */
module LoginAttempts {
  import opened LoginGuard

  /** `under` maps the logins whose guess is being evaluated to their attempt keys. */
  datatype State = State(guard: Entries, under: map<nat, string>)

  const INITIAL := State(map[], map[])

  /** A login begins and asks the guard; then its guess turns out wrong, or right, or right but
      for a missing second factor. A step of a login that is not under way is no step. */
  datatype Step =
    | Enter(id: nat, key: string, at: Instant)
    | Fail(id: nat, at: Instant)
    | Succeed(id: nat)
    | Withdraw(id: nat)

  predicate Blocked(m: Entries, key: string, at: Instant) {
    Waiting(m, key, at).Locked?
  }

  function Next(s: State, step: Step): State {
    match step
    case Enter(id, key, at) =>
      if id in s.under || Blocked(s.guard, key, at) then s else s.(under := s.under[id := key])
    case Fail(id, at) =>
      if id !in s.under then s else State(Apply(s.guard, Failure(s.under[id], at)), s.under - {id})
    case Succeed(id) =>
      if id !in s.under then s else State(Apply(s.guard, Reset(s.under[id])), s.under - {id})
    case Withdraw(id) => s.(under := s.under - {id})
  }

  function After(s: State, steps: seq<Step>): State {
    if steps == [] then s else Next(After(s, steps[..|steps| - 1]), steps[|steps| - 1])
  }

  // ----- The guard's events -----

  /** What a step does to the guard. */
  function EventsOf(s: State, step: Step): seq<Event> {
    match step
    case Fail(id, at) => if id in s.under then [Failure(s.under[id], at)] else []
    case Succeed(id) => if id in s.under then [Reset(s.under[id])] else []
    case _ => []
  }

  function Events(s: State, steps: seq<Step>): seq<Event> {
    if steps == [] then []
    else Events(s, steps[..|steps| - 1]) + EventsOf(After(s, steps[..|steps| - 1]), steps[|steps| - 1])
  }

  lemma ResumeSnoc(m: Entries, evs: seq<Event>, e: Event)
    ensures Resume(m, evs + [e]) == Apply(Resume(m, evs), e)
  {
    assert (evs + [e])[..|evs|] == evs;
  }

  lemma GuardStep(m: Entries, evs: seq<Event>, s: State, step: Step)
    requires s.guard == Resume(m, evs)
    ensures Next(s, step).guard == Resume(m, evs + EventsOf(s, step))
  {
    if EventsOf(s, step) == [] {
      assert evs + EventsOf(s, step) == evs;
    } else {
      ResumeSnoc(m, evs, EventsOf(s, step)[0]);
    }
  }

  /** The guard goes through exactly these events. */
  lemma {:induction false} GuardFollows(s: State, steps: seq<Step>)
    ensures After(s, steps).guard == Resume(s.guard, Events(s, steps))
  {
    if steps != [] {
      var init := steps[..|steps| - 1];
      GuardFollows(s, init);
      GuardStep(s.guard, Events(s, init), After(s, init), steps[|steps| - 1]);
    }
  }

  // ----- The clock -----

  function LatestRead(t: Instant, steps: seq<Step>): Instant {
    if steps == [] then t
    else match steps[|steps| - 1]
      case Enter(_, _, at) => at
      case Fail(_, at) => at
      case _ => LatestRead(t, steps[..|steps| - 1])
  }

  predicate Reads(step: Step) {
    step.Enter? || step.Fail?
  }

  /** From `t` on, the clock never goes back. */
  predicate Timed(t: Instant, steps: seq<Step>) {
    steps == [] ||
    (Timed(t, steps[..|steps| - 1]) &&
     (Reads(steps[|steps| - 1]) ==> LatestRead(t, steps[..|steps| - 1]) <= steps[|steps| - 1].at))
  }

  lemma OrderedSnoc(t: Instant, evs: seq<Event>, e: Event)
    requires Ordered(t, evs) && (e.Failure? ==> Latest(t, evs) <= e.at)
    ensures Ordered(t, evs + [e])
    ensures Latest(t, evs + [e]) == if e.Failure? then e.at else Latest(t, evs)
  {
    assert (evs + [e])[..|evs|] == evs;
  }

  /** `r` was read before the events and `t` before the steps. */
  lemma {:induction false} EventsAreOrdered(r: Instant, t: Instant, s: State, steps: seq<Step>)
    requires Timed(t, steps) && r <= t
    ensures Ordered(r, Events(s, steps)) && Latest(r, Events(s, steps)) <= LatestRead(t, steps)
  {
    if steps != [] {
      var init, last := steps[..|steps| - 1], steps[|steps| - 1];
      EventsAreOrdered(r, t, s, init);
      var es := EventsOf(After(s, init), last);
      if es == [] {
        assert Events(s, init) + es == Events(s, init);
      } else {
        OrderedSnoc(r, Events(s, init), es[0]);
      }
    }
  }

  // ----- Evaluated guesses -----

  /** The logins under way on a key. */
  function On(under: map<nat, string>, key: string): set<nat> {
    set id | id in under && under[id] == key
  }

  /** Wrong guesses evaluated on a key, those of them recorded under a lock and so not counted,
      and how many logins were under way on the key each time a lock fell, added up. */
  datatype Tally = Tally(evaluated: nat, uncounted: nat, caught: nat)

  /** The failure makes the lock fall. */
  predicate Locks(m: Entries, key: string, at: Instant) {
    !Blocked(m, key, at) && Recorded(m, key, at).1.Locked?
  }

  function TallyFailure(w: Tally, m: Entries, key: string, at: Instant, others: nat): Tally {
    Tally(w.evaluated + 1,
          if Blocked(m, key, at) then w.uncounted + 1 else w.uncounted,
          if Locks(m, key, at) then w.caught + others else w.caught)
  }

  function Watch(key: string, s: State, steps: seq<Step>): Tally {
    if steps == [] then Tally(0, 0, 0)
    else
      var w, before := Watch(key, s, steps[..|steps| - 1]), After(s, steps[..|steps| - 1]);
      match steps[|steps| - 1]
      case Fail(id, at) =>
        if id in before.under && before.under[id] == key then
          TallyFailure(w, before.guard, key, at, |On(before.under - {id}, key)|)
        else w
      case _ => w
  }

  // ----- Counted or not -----

  /** The sweep inside a failure does not hide a lock. */
  lemma SweptIsBlocked(m: Entries, key: string, at: Instant)
    requires key != ""
    ensures at < Current(Swept(m, at), key, at).lockedUntil <==> Blocked(m, key, at)
  {
  }

  /** A failure on the key is counted unless blocked, and adds a lock exactly when it locks. */
  lemma OwnFailureIsObserved(key: string, m: Entries, h: History, at: Instant)
    requires key != ""
    ensures var h' := ObserveFailure(key, m, h, key, at);
            && h'.counted == h.counted + (if Blocked(m, key, at) then 0 else 1)
            && |h'.locks| == |h.locks| + (if Locks(m, key, at) then 1 else 0)
  {
    SweptIsBlocked(m, key, at);
  }

  lemma OtherFailureIsNotCounted(key: string, m: Entries, h: History, k: string, at: Instant)
    requires k != key
    ensures ObserveFailure(key, m, h, k, at).counted == h.counted
    ensures ObserveFailure(key, m, h, k, at).locks == h.locks
  {
  }

  /** The others, when `n` logins are under way. */
  function Others(n: nat): nat {
    if n == 0 then 0 else n - 1
  }

  /** What the tally says of the history, where at most `n` logins on the key are ever under way. */
  predicate Reconciles(w: Tally, h: History, n: nat) {
    w.evaluated == h.counted + w.uncounted && w.caught <= |h.locks| * Others(n)
  }

  lemma FailureReconciles(w: Tally, h: History, n: nat, m: Entries, key: string, at: Instant, others: nat)
    requires key != "" && Reconciles(w, h, n) && others + 1 <= n
    ensures Reconciles(TallyFailure(w, m, key, at, others), ObserveFailure(key, m, h, key, at), n)
  {
    OwnFailureIsObserved(key, m, h, at);
    assert (|h.locks| + 1) * Others(n) == |h.locks| * Others(n) + Others(n);
  }

  /** No more than `n` logins are under way on the key at any time. */
  predicate AtMost(n: nat, key: string, s: State, steps: seq<Step>) {
    |On(After(s, steps).under, key)| <= n && (steps != [] ==> AtMost(n, key, s, steps[..|steps| - 1]))
  }

  lemma OneLess(under: map<nat, string>, key: string, id: nat)
    requires id in under
    ensures On(under - {id}, key) == On(under, key) - {id}
    ensures under[id] == key ==> |On(under - {id}, key)| + 1 == |On(under, key)|
  {
    if under[id] == key { assert On(under, key) == On(under - {id}, key) + {id}; }
  }

  /** Every evaluated wrong guess is counted or was recorded under a lock, and each lock catches
      at most the other logins that may be under way. */
  lemma {:induction false} TallyReconciles(key: string, s: State, steps: seq<Step>, n: nat)
    requires key != "" && AtMost(n, key, s, steps)
    ensures Reconciles(Watch(key, s, steps), Observe(key, s.guard, Events(s, steps)), n)
  {
    if steps != [] {
      var init, last := steps[..|steps| - 1], steps[|steps| - 1];
      TallyReconciles(key, s, init, n);
      TallyStep(key, s, init, last, n);
    }
  }

  lemma ObserveStep(key: string, m: Entries, evs: seq<Event>, b: State, step: Step)
    requires b.guard == Resume(m, evs)
    ensures Observe(key, m, evs + EventsOf(b, step)) ==
            if step.Fail? && step.id in b.under && b.under[step.id] != ""
            then ObserveFailure(key, b.guard, Observe(key, m, evs), b.under[step.id], step.at)
            else Observe(key, m, evs)
  {
    var es := EventsOf(b, step);
    if es == [] {
      assert evs + es == evs;
    } else {
      assert es == [es[0]];
      assert (evs + [es[0]])[..|evs|] == evs;
    }
  }

  lemma WatchSnoc(key: string, s: State, init: seq<Step>, last: Step)
    ensures var w, b := Watch(key, s, init), After(s, init);
            Watch(key, s, init + [last]) ==
            if last.Fail? && last.id in b.under && b.under[last.id] == key
            then TallyFailure(w, b.guard, key, last.at, |On(b.under - {last.id}, key)|) else w
  {
    assert (init + [last])[..|init|] == init;
  }

  lemma EventsSnoc(s: State, init: seq<Step>, last: Step)
    ensures Events(s, init + [last]) == Events(s, init) + EventsOf(After(s, init), last)
  {
    assert (init + [last])[..|init|] == init;
  }

  lemma TallyStep(key: string, s: State, init: seq<Step>, last: Step, n: nat)
    requires key != "" && AtMost(n, key, s, init)
    requires Reconciles(Watch(key, s, init), Observe(key, s.guard, Events(s, init)), n)
    ensures Reconciles(Watch(key, s, init + [last]), Observe(key, s.guard, Events(s, init + [last])), n)
  {
    var w, b, h := Watch(key, s, init), After(s, init), Observe(key, s.guard, Events(s, init));
    GuardFollows(s, init);
    EventsSnoc(s, init, last);
    WatchSnoc(key, s, init, last);
    ObserveStep(key, s.guard, Events(s, init), b, last);
    if last.Fail? && last.id in b.under {
      if b.under[last.id] == key {
        OneLess(b.under, key, last.id);
        FailureReconciles(w, h, n, b.guard, key, last.at, |On(b.under - {last.id}, key)|);
      } else {
        OtherFailureIsNotCounted(key, b.guard, h, b.under[last.id], last.at);
      }
    }
  }

  // ----- Who is caught under a lock -----

  /** Uncounted failures, and the logins that would add to them now, were under way when a lock
      fell, or are among the `spare` ones that were under way at the start. */
  predicate Covered(w: Tally, s: State, key: string, t: Instant, spare: nat) {
    w.uncounted + (if Blocked(s.guard, key, t) then |On(s.under, key)| else 0) <= w.caught + spare
  }

  lemma BlockedAfterFailure(m: Entries, key: string, at: Instant)
    requires key != ""
    ensures Blocked(Apply(m, Failure(key, at)), key, at) <==> Recorded(m, key, at).1.Locked?
    ensures Blocked(m, key, at) ==> Recorded(m, key, at).1.Locked?
  {
  }

  lemma LaterIsCovered(w: Tally, s: State, key: string, t: Instant, at: Instant, spare: nat)
    requires Covered(w, s, key, t, spare) && t <= at
    ensures Covered(w, s, key, at, spare)
  {
    assert Blocked(s.guard, key, at) ==> Blocked(s.guard, key, t);
  }

  lemma OnIsSmaller(under: map<nat, string>, key: string, id: nat)
    ensures |On(under - {id}, key)| <= |On(under, key)|
  {
    Smaller(On(under - {id}, key), On(under, key));
  }

  lemma OwnFailureIsCovered(w: Tally, s: State, key: string, id: nat, at: Instant, spare: nat)
    requires key != "" && Covered(w, s, key, at, spare) && id in s.under && s.under[id] == key
    ensures Covered(TallyFailure(w, s.guard, key, at, |On(s.under - {id}, key)|), Next(s, Fail(id, at)), key, at, spare)
  {
    OneLess(s.under, key, id);
    BlockedAfterFailure(s.guard, key, at);
  }

  lemma OtherEventIsCovered(w: Tally, s: State, key: string, e: Event, id: nat, at: Instant, spare: nat)
    requires Covered(w, s, key, at, spare) && e.key != key && (e.Failure? ==> e.at <= at)
    ensures Covered(w, State(Apply(s.guard, e), s.under - {id}), key, at, spare)
  {
    OtherEventDoesNotInterfere(s.guard, e, key, at);
    OnIsSmaller(s.under, key, id);
  }

  lemma EnterIsCovered(w: Tally, s: State, key: string, id: nat, k: string, at: Instant, spare: nat)
    requires Covered(w, s, key, at, spare)
    ensures Covered(w, Next(s, Enter(id, k, at)), key, at, spare)
  {
    if id !in s.under && k != key { assert On(s.under[id := k], key) == On(s.under, key); }
  }

  lemma SuccessIsCovered(w: Tally, s: State, key: string, id: nat, t: Instant, spare: nat)
    requires Covered(w, s, key, t, spare)
    ensures Covered(w, Next(s, Succeed(id)), key, t, spare)
  {
    if id in s.under && s.under[id] != key {
      OtherEventIsCovered(w, s, key, Reset(s.under[id]), id, t, spare);
    } else if id in s.under && key == "" {
      OnIsSmaller(s.under, key, id);
    }
  }

  lemma StepIsCovered(w: Tally, s: State, key: string, step: Step, t: Instant, spare: nat)
    requires key != "" && Covered(w, s, key, t, spare) && (Reads(step) ==> t <= step.at)
    ensures var w' := if step.Fail? && step.id in s.under && s.under[step.id] == key
                      then TallyFailure(w, s.guard, key, step.at, |On(s.under - {step.id}, key)|) else w;
            Covered(w', Next(s, step), key, if Reads(step) then step.at else t, spare)
  {
    if Reads(step) { LaterIsCovered(w, s, key, t, step.at, spare); }
    match step
    case Enter(id, k, at) => EnterIsCovered(w, s, key, id, k, at, spare);
    case Fail(id, at) =>
      if id in s.under && s.under[id] == key {
        OwnFailureIsCovered(w, s, key, id, at, spare);
      } else if id in s.under {
        OtherEventIsCovered(w, s, key, Failure(s.under[id], at), id, at, spare);
      }
    case Succeed(id) => SuccessIsCovered(w, s, key, id, t, spare);
    case Withdraw(id) => OnIsSmaller(s.under, key, id);
  }

  /** Through every run, resets included, a failure that is not counted belongs to a login that
      was under way when a lock fell (or at the start). */
  lemma {:induction false} UncountedWereCaught(key: string, s: State, t: Instant, steps: seq<Step>)
    requires key != "" && Timed(t, steps)
    ensures Covered(Watch(key, s, steps), After(s, steps), key, LatestRead(t, steps), |On(s.under, key)|)
  {
    if steps != [] {
      var init, last := steps[..|steps| - 1], steps[|steps| - 1];
      assert steps == init + [last];
      UncountedWereCaught(key, s, t, init);
      WatchSnoc(key, s, init, last);
      StepIsCovered(Watch(key, s, init), After(s, init), key, last, LatestRead(t, init), |On(s.under, key)|);
    }
  }

  // ----- Budgets for evaluated guesses -----

  predicate FailsWithin(steps: seq<Step>, start: Instant, span: nat) {
    forall step :: step in steps && step.Fail? ==> start <= step.at <= start + span
  }

  lemma {:induction false} EventsWithin(s: State, steps: seq<Step>, start: Instant, span: nat)
    requires FailsWithin(steps, start, span)
    ensures Within(Events(s, steps), start, span)
  {
    if steps != [] {
      EventsWithin(s, steps[..|steps| - 1], start, span);
      assert steps[|steps| - 1] in steps;
    }
  }

  lemma Product(a: nat, b: nat, c: nat)
    requires a <= b
    ensures a * c <= b * c
  {
  }

  /** After every run, within any span of time without a successful login on the key and with at
      most `n` logins on it under way at once: the evaluated wrong guesses exceed the budget by at
      most those under way at the start and the others under way at each lock. */
  lemma {:induction false} EvaluatedBudget(key: string, before: seq<Step>, during: seq<Step>, start: Instant,
                                           span: nat, n: nat)
    requires key != "" && Timed(ZERO_TIME, before) && Timed(LatestRead(ZERO_TIME, before), during)
    requires FailsWithin(during, start, span) && AtMost(n, key, After(INITIAL, before), during)
    requires Reset(key) !in Events(After(INITIAL, before), during)
    ensures var s := After(INITIAL, before);
            Watch(key, s, during).evaluated <= Budget(span) + |On(s.under, key)| + LockBudget(span) * Others(n)
  {
    var s := After(INITIAL, before);
    var past, evs := Events(INITIAL, before), Events(s, during);
    GuardFollows(INITIAL, before);
    EventsAreOrdered(ZERO_TIME, ZERO_TIME, INITIAL, before);
    EventsAreOrdered(Latest(ZERO_TIME, past), LatestRead(ZERO_TIME, before), s, during);
    EventsWithin(s, during, start, span);
    GuessBudget(key, past, evs, start, span);
    TallyReconciles(key, s, during, n);
    UncountedWereCaught(key, s, LatestRead(ZERO_TIME, before), during);
    Product(|Observe(key, s.guard, evs).locks|, LockBudget(span), Others(n));
  }

  lemma NobodyCaught(w: Tally, h: History, n: nat, s: State, key: string, t: Instant)
    requires Reconciles(w, h, n) && n <= 1 && Covered(w, s, key, t, 0)
    ensures w.evaluated == h.counted
  {
    assert |h.locks| * Others(n) == 0;
  }

  /** From a state without logins under way, logins on a key that come one at a time are all
      counted. */
  lemma {:induction false} SequentialGuessesAreCounted(key: string, s: State, t: Instant, steps: seq<Step>, n: nat)
    requires key != "" && Timed(t, steps) && s.under == map[] && n <= 1 && AtMost(n, key, s, steps)
    ensures Watch(key, s, steps).evaluated == Observe(key, s.guard, Events(s, steps)).counted
  {
    TallyReconciles(key, s, steps, n);
    UncountedWereCaught(key, s, t, steps);
    assert On(s.under, key) == {};
    NobodyCaught(Watch(key, s, steps), Observe(key, s.guard, Events(s, steps)), n, After(s, steps), key,
                 LatestRead(t, steps));
  }

  // ----- A rush of logins -----

  /** Logins `0` to `n - 1` enter at one instant, and the first `k` of them fail at once. */
  function Rush(key: string, n: nat, k: nat): seq<Step> {
    if k > 0 then Rush(key, n, k - 1) + [Fail(k - 1, 0)]
    else if n > 0 then Rush(key, n - 1, 0) + [Enter(n - 1, key, 0)] else []
  }

  lemma AfterSnoc(s: State, init: seq<Step>, last: Step)
    ensures After(s, init + [last]) == Next(After(s, init), last)
  {
    assert (init + [last])[..|init|] == init;
  }

  lemma TimedSnoc(t: Instant, init: seq<Step>, last: Step)
    ensures Timed(t, init + [last]) <==> Timed(t, init) && (Reads(last) ==> LatestRead(t, init) <= last.at)
    ensures Reads(last) ==> LatestRead(t, init + [last]) == last.at
  {
    assert (init + [last])[..|init|] == init;
  }

  /** Exactly the logins from `k` to `n - 1` are under way, all on the key. */
  ghost predicate UnderWay(under: map<nat, string>, key: string, k: nat, n: nat) {
    forall i: nat :: (i in under <==> k <= i < n) && (i in under ==> under[i] == key)
  }

  /** All steps so far were taken at instant zero. */
  predicate AtOnce(t: Instant, steps: seq<Step>) {
    Timed(t, steps) && LatestRead(t, steps) <= 0 && FailsWithin(steps, 0, 0)
  }

  lemma AtOnceSnoc(t: Instant, steps: seq<Step>, last: Step)
    requires AtOnce(t, steps) && Reads(last) && last.at == 0
    ensures AtOnce(t, steps + [last])
  {
    TimedSnoc(t, steps, last);
  }

  lemma EnterJoins(s: State, key: string, n: nat)
    requires s.guard == map[] && UnderWay(s.under, key, 0, n)
    ensures var s' := Next(s, Enter(n, key, 0)); s'.guard == map[] && UnderWay(s'.under, key, 0, n + 1)
  {
  }

  lemma {:induction false} RushEnters(s: State, t: Instant, key: string, n: nat)
    requires s.guard == map[] && s.under == map[] && t <= 0
    ensures var s' := After(s, Rush(key, n, 0)); s'.guard == map[] && UnderWay(s'.under, key, 0, n)
    ensures Watch(key, s, Rush(key, n, 0)).evaluated == 0 && AtOnce(t, Rush(key, n, 0))
  {
    if n > 0 {
      var init := Rush(key, n - 1, 0);
      RushEnters(s, t, key, n - 1);
      AfterSnoc(s, init, Enter(n - 1, key, 0));
      EnterJoins(After(s, init), key, n - 1);
      WatchSnoc(key, s, init, Enter(n - 1, key, 0));
      AtOnceSnoc(t, init, Enter(n - 1, key, 0));
    }
  }

  lemma FailLeaves(s: State, key: string, k: nat, n: nat)
    requires UnderWay(s.under, key, k, n) && k < n
    ensures UnderWay(Next(s, Fail(k, 0)).under, key, k + 1, n)
  {
  }

  /** After the steps, `k` logins of the rush have failed. */
  ghost predicate Failed(s: State, t: Instant, key: string, n: nat, k: nat, steps: seq<Step>) {
    && UnderWay(After(s, steps).under, key, k, n)
    && Watch(key, s, steps).evaluated == k && AtOnce(t, steps)
  }

  lemma OneMoreFails(s: State, t: Instant, key: string, n: nat, k: nat, steps: seq<Step>)
    requires Failed(s, t, key, n, k, steps) && k < n
    ensures Failed(s, t, key, n, k + 1, steps + [Fail(k, 0)])
  {
    AfterSnoc(s, steps, Fail(k, 0));
    FailLeaves(After(s, steps), key, k, n);
    WatchSnoc(key, s, steps, Fail(k, 0));
    AtOnceSnoc(t, steps, Fail(k, 0));
  }

  lemma {:induction false} RushFails(s: State, t: Instant, key: string, n: nat, k: nat)
    requires s.guard == map[] && s.under == map[] && t <= 0 && k <= n
    ensures Failed(s, t, key, n, k, Rush(key, n, k))
  {
    if k == 0 {
      RushEnters(s, t, key, n);
    } else {
      RushFails(s, t, key, n, k - 1);
      OneMoreFails(s, t, key, n, k - 1, Rush(key, n, k - 1));
    }
  }

  /** Without a bound on the logins under way there is none on evaluated guesses: any number of
      them can be evaluated at one instant. */
  lemma RushExceedsBudget(key: string, n: nat) returns (steps: seq<Step>)
    ensures Timed(ZERO_TIME, steps) && FailsWithin(steps, 0, 0)
    ensures Watch(key, INITIAL, steps).evaluated > Budget(0) + n
  {
    var m := Budget(0) + n + 1;
    RushFails(INITIAL, ZERO_TIME, key, m, m);
    steps := Rush(key, m, m);
  }
}
