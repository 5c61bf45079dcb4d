/** The cached "is there an admin yet" status. Every mutex section and every database read is
    one atomic step of a transition system with any number of concurrent loaders. */
module Bootstrap {

  datatype Status = Status(initialized: bool, adminCount: nat)

  function StatusOf(count: nat): Status {
    Status(count > 0, count)
  }

  const UNKNOWN := Status(false, 0)

  /** The fields guarded by the mutex. */
  datatype Cache = Cache(gen: nat, ready: bool, status: Status)

  function Bumped(c: Cache): Cache {
    c.(gen := c.gen + 1)
  }

  function Marked(c: Cache): Cache {
    Cache(c.gen + 1, true, Status(true, if c.status.adminCount < 1 then 1 else c.status.adminCount))
  }

  function Cleared(c: Cache): Cache {
    Cache(c.gen + 1, false, UNKNOWN)
  }

  function Stored(c: Cache, gen: nat, count: nat): Cache {
    if gen == c.gen then Cache(c.gen, true, StatusOf(count)) else c
  }

  /** The mutex sections as the service runs them. */
  class Service {
    var gen: nat
    var ready: bool
    var status: Status

    function View(): Cache
      reads this
    {
      Cache(gen, ready, status)
    }

    constructor ()
      ensures View() == Cache(0, false, UNKNOWN)
    {
      gen, ready, status := 0, false, UNKNOWN;
    }

    method MarkBootstrapInitialized()
      modifies this
      ensures View() == Marked(old(View()))
    {
      gen := gen + 1;
      var count := status.adminCount;
      if count < 1 { count := 1; }
      ready := true;
      status := Status(true, count);
    }

    method ClearBootstrapCache()
      modifies this
      ensures View() == Cleared(old(View()))
    {
      gen := gen + 1;
      ready := false;
      status := UNKNOWN;
    }

    method LoadBootstrap() returns (s: Status, ok: bool)
      ensures ok == View().ready
      ensures s == if ok then View().status else UNKNOWN
    {
      if !ready { return UNKNOWN, false; }
      return status, true;
    }

    method NextBootstrapGeneration() returns (mine: nat)
      modifies this
      ensures View() == Bumped(old(View())) && mine == View().gen
    {
      gen := gen + 1;
      return gen;
    }

    method StoreBootstrapIfCurrent(mine: nat, count: int) returns (stored: bool)
      modifies this
      ensures View() == Stored(old(View()), mine, if count < 0 then 0 else count)
      ensures stored == (mine == old(gen))
    {
      var clamped := count;
      if clamped < 0 { clamped := 0; }
      if mine != gen { return false; }
      ready := true;
      status := Status(clamped > 0, clamped);
      return true;
    }
  }

  // ----- The transition system -----

  /** Where a loader stands: BootstrapStatus looks into the cache first; WarmBootstrapCache
      starts as a loader that already missed. */
  datatype Loader =
    | Missed
    | Holding(gen: nat)
    | Counted(gen: nat, count: nat)
    | Overtaken(count: nat)
    | Failed
    | Done(status: Status)

  /** `db` is the number of admins in the database; `tainted` records that the database was
      replaced by a restore and the cache has not been cleared since. */
  datatype State = State(cache: Cache, db: nat, loaders: map<nat, Loader>, tainted: bool)

  datatype Event =
    | Ask(id: nat)         // BootstrapStatus begins: loadBootstrap
    | Warm(id: nat)        // WarmBootstrapCache begins
    | Bump(id: nat)        // nextBootstrapGeneration
    | Count(id: nat)       // the database counts the admins
    | CountFails(id: nat)  // the count query errors
    | Store(id: nat)       // storeBootstrapIfCurrent
    | Reload(id: nat)      // loadBootstrap after losing the race
    | Mark                 // MarkBootstrapInitialized
    | Clear                // ClearBootstrapCache
    | Create               // an admin row is inserted
    | Restore(count: nat)  // the database is replaced from a backup

  predicate Enabled(s: State, e: Event) {
    match e
    case Ask(id) => id !in s.loaders
    case Warm(id) => id !in s.loaders
    case Bump(id) => id in s.loaders && s.loaders[id].Missed?
    case Count(id) => id in s.loaders && s.loaders[id].Holding?
    case CountFails(id) => id in s.loaders && s.loaders[id].Holding?
    case Store(id) => id in s.loaders && s.loaders[id].Counted?
    case Reload(id) => id in s.loaders && s.loaders[id].Overtaken?
    case Mark => s.db > 0
    case Clear => true
    case Create => true
    case Restore(_) => true
  }

  function Next(s: State, e: Event): State
    requires Enabled(s, e)
  {
    match e
    case Ask(id) =>
      s.(loaders := s.loaders[id := if s.cache.ready then Done(s.cache.status) else Missed])
    case Warm(id) => s.(loaders := s.loaders[id := Missed])
    case Bump(id) =>
      var cache := Bumped(s.cache);
      s.(cache := cache, loaders := s.loaders[id := Holding(cache.gen)])
    case Count(id) => s.(loaders := s.loaders[id := Counted(s.loaders[id].gen, s.db)])
    case CountFails(id) => s.(loaders := s.loaders[id := Failed])
    case Store(id) =>
      var l := s.loaders[id];
      s.(cache := Stored(s.cache, l.gen, l.count),
         loaders := s.loaders[id := if l.gen == s.cache.gen then Done(StatusOf(l.count)) else Overtaken(l.count)])
    case Reload(id) =>
      var answer := if s.cache.ready then s.cache.status else StatusOf(s.loaders[id].count);
      s.(loaders := s.loaders[id := Done(answer)])
    case Mark => s.(cache := Marked(s.cache))
    case Clear => s.(cache := Cleared(s.cache), tainted := false)
    case Create => s.(db := s.db + 1)
    case Restore(count) => s.(db := count, tainted := true)
  }

  predicate Legal(init: nat, evs: seq<Event>)
    decreases |evs|, 0
  {
    evs == [] || (Legal(init, evs[..|evs| - 1]) && Enabled(After(init, evs[..|evs| - 1]), evs[|evs| - 1]))
  }

  /** The state after a legal run that starts with `init` admins and an empty cache. */
  function After(init: nat, evs: seq<Event>): State
    requires Legal(init, evs)
    decreases |evs|, 1
  {
    if evs == [] then State(Cache(0, false, UNKNOWN), init, map[], false)
    else Next(After(init, evs[..|evs| - 1]), evs[|evs| - 1])
  }

  /** A loader that has taken a generation number and not yet stored. */
  predicate InFlight(l: Loader) {
    l.Holding? || l.Counted?
  }

  /** The count may still be stored. */
  predicate Current(s: State, l: Loader) {
    l.Counted? && l.gen == s.cache.gen
  }

  // ----- The invariant -----

  predicate Generations(s: State) {
    && (forall i :: i in s.loaders && InFlight(s.loaders[i]) ==> s.loaders[i].gen <= s.cache.gen)
    && (forall i, j :: i in s.loaders && j in s.loaders && i != j && InFlight(s.loaders[i]) && InFlight(s.loaders[j])
          ==> s.loaders[i].gen != s.loaders[j].gen)
  }

  predicate CacheShape(c: Cache) {
    c.status == StatusOf(c.status.adminCount) && (!c.ready ==> c.status == UNKNOWN)
  }

  /** Unless a restore is still unacknowledged, the cached count and every count that may still
      be stored are true lower bounds of the database, and storing never loses admins. */
  predicate Truthful(s: State) {
    !s.tainted ==>
      && s.cache.status.adminCount <= s.db
      && (forall i :: i in s.loaders && Current(s, s.loaders[i]) ==>
            s.cache.status.adminCount <= s.loaders[i].count <= s.db)
  }

  predicate Inv(s: State) {
    Generations(s) && CacheShape(s.cache) && Truthful(s)
  }

  lemma StepKeepsGenerations(s: State, e: Event)
    requires Generations(s) && Enabled(s, e)
    ensures Generations(Next(s, e))
  {
  }

  lemma StepKeepsTruthful(s: State, e: Event)
    requires Inv(s) && Enabled(s, e)
    ensures Truthful(Next(s, e))
  {
  }

  lemma StepKeepsInv(s: State, e: Event)
    requires Inv(s) && Enabled(s, e)
    ensures Inv(Next(s, e))
  {
    StepKeepsGenerations(s, e);
    StepKeepsTruthful(s, e);
  }

  lemma {:induction false} RunKeepsInv(init: nat, evs: seq<Event>)
    requires Legal(init, evs)
    ensures Inv(After(init, evs))
  {
    if evs != [] {
      RunKeepsInv(init, evs[..|evs| - 1]);
      StepKeepsInv(After(init, evs[..|evs| - 1]), evs[|evs| - 1]);
    }
  }

  // ----- What the protocol guarantees -----

  /** A cached or about-to-be-cached "initialized" is true of the database, in every interleaving
      and even across restores, once the restore has been followed by a clear. */
  lemma InitializedIsTrue(init: nat, evs: seq<Event>)
    requires Legal(init, evs)
    ensures var s := After(init, evs);
            !s.tainted && s.cache.ready && s.cache.status.initialized ==> s.db > 0
    ensures var s := After(init, evs);
            forall i :: i in s.loaders && Current(s, s.loaders[i]) && !s.tainted && s.loaders[i].count > 0 ==> s.db > 0
  {
    RunKeepsInv(init, evs);
  }

  /** What a finished or overtaken loader holds. */
  function Answer(l: Loader): nat {
    match l
    case Overtaken(count) => count
    case Counted(_, count) => count
    case Done(status) => status.adminCount
    case _ => 0
  }

  /** As long as the database is never restored, no loader ever answers with more admins than
      exist: "initialized" is never reported before there is an admin. */
  lemma {:induction false} AnswersAreTrue(init: nat, evs: seq<Event>)
    requires Legal(init, evs) && forall e :: e in evs ==> !e.Restore?
    ensures var s := After(init, evs);
            && !s.tainted
            && forall i :: i in s.loaders ==>
                 && Answer(s.loaders[i]) <= s.db
                 && (s.loaders[i].Done? && s.loaders[i].status.initialized ==> s.db > 0)
  {
    if evs != [] {
      AnswersAreTrue(init, evs[..|evs| - 1]);
      RunKeepsInv(init, evs[..|evs| - 1]);
      assert evs[|evs| - 1] in evs;
    }
  }

  lemma StepNeverForgets(s: State, e: Event)
    requires Inv(s) && Enabled(s, e) && !s.tainted && !e.Clear? && s.cache.ready
    ensures var c := Next(s, e).cache;
            c.ready && s.cache.status.adminCount <= c.status.adminCount
            && (s.cache.status.initialized ==> c.status.initialized)
  {
  }

  /** Between clears (and away from restores) the cache stays ready and its count only grows, so
      "initialized" never turns false: a loader that counted zero before the admin existed cannot
      overwrite it. */
  lemma {:induction false} NeverForgets(init: nat, evs: seq<Event>, more: seq<Event>)
    requires Legal(init, evs) && Legal(init, evs + more)
    requires !After(init, evs).tainted && After(init, evs).cache.ready
    requires forall e :: e in more ==> !e.Clear? && !e.Restore?
    ensures var c, c' := After(init, evs).cache, After(init, evs + more).cache;
            && c'.ready && c.status.adminCount <= c'.status.adminCount
            && (c.status.initialized ==> c'.status.initialized)
    ensures !After(init, evs + more).tainted
  {
    if more == [] {
      assert evs + more == evs;
    } else {
      var k := |more| - 1;
      assert (evs + more)[..|evs + more| - 1] == evs + more[..k];
      assert more[k] in more;
      NeverForgets(init, evs, more[..k]);
      RunKeepsInv(init, evs + more[..k]);
      StepNeverForgets(After(init, evs + more[..k]), more[k]);
    }
  }

  // ----- What a mark and a clear achieve -----

  /** Since a mark took generation `g`: the cache says initialized, and so does every count read
      under a later generation. */
  predicate MarkStands(s: State, g: nat) {
    && s.cache.ready && s.cache.status.initialized && s.cache.status.adminCount >= 1
    && s.cache.gen >= g && s.db >= 1
    && (forall i :: i in s.loaders && s.loaders[i].Counted? && s.loaders[i].gen >= g ==> s.loaders[i].count >= 1)
  }

  lemma MarkTakesHold(s: State)
    requires Generations(s) && Enabled(s, Mark)
    ensures MarkStands(Next(s, Mark), s.cache.gen + 1)
  {
  }

  /** A loader that has answered "not initialized". */
  predicate Denies(s: State, i: nat) {
    i in s.loaders && s.loaders[i].Done? && !s.loaders[i].status.initialized
  }

  lemma StepKeepsMark(s: State, e: Event, g: nat)
    requires MarkStands(s, g) && Enabled(s, e) && !e.Clear? && !e.Restore?
    ensures MarkStands(Next(s, e), g)
    ensures forall i :: Denies(Next(s, e), i) ==> Denies(s, i)
  {
  }

  lemma {:induction false} MarkedRun(init: nat, evs: seq<Event>, more: seq<Event>)
    requires Legal(init, evs) && Enabled(After(init, evs), Mark) && Legal(init, evs + [Mark] + more)
    requires forall e :: e in more ==> !e.Clear? && !e.Restore?
    ensures var s, s' := After(init, evs), After(init, evs + [Mark] + more);
            MarkStands(s', s.cache.gen + 1) && forall i :: Denies(s', i) ==> Denies(s, i)
  {
    var marked := evs + [Mark];
    if more == [] {
      assert marked + more == marked && marked[..|evs|] == evs;
      RunKeepsInv(init, evs);
      MarkTakesHold(After(init, evs));
    } else {
      var k := |more| - 1;
      assert (marked + more)[..|marked + more| - 1] == marked + more[..k];
      assert more[k] in more;
      MarkedRun(init, evs, more[..k]);
      StepKeepsMark(After(init, marked + more[..k]), more[k], After(init, evs).cache.gen + 1);
    }
  }

  /** After a mark, until a clear or a restore, in every interleaving: the cache is ready and says
      initialized with at least one admin, and no loader, not even one that counted zero before
      the mark, answers otherwise from then on. */
  lemma MarkIsLasting(init: nat, evs: seq<Event>, more: seq<Event>)
    requires Legal(init, evs) && Enabled(After(init, evs), Mark) && Legal(init, evs + [Mark] + more)
    requires forall e :: e in more ==> !e.Clear? && !e.Restore?
    ensures var s, s' := After(init, evs), After(init, evs + [Mark] + more);
            && s'.cache.ready && s'.cache.status.initialized && s'.cache.status.adminCount >= 1
            && forall i :: i in s'.loaders && s'.loaders[i].Done? && !s'.loaders[i].status.initialized ==>
                 i in s.loaders && s.loaders[i].Done? && !s.loaders[i].status.initialized
  {
    MarkedRun(init, evs, more);
    var s, s' := After(init, evs), After(init, evs + [Mark] + more);
    forall i | i in s'.loaders && s'.loaders[i].Done? && !s'.loaders[i].status.initialized
      ensures i in s.loaders && s.loaders[i].Done? && !s.loaders[i].status.initialized
    {
      assert Denies(s', i);
    }
  }

  lemma AfterSnoc(init: nat, evs: seq<Event>, e: Event)
    requires Legal(init, evs + [e])
    ensures Legal(init, evs) && Enabled(After(init, evs), e) && After(init, evs + [e]) == Next(After(init, evs), e)
  {
    assert (evs + [e])[..|evs|] == evs;
  }

  /** Right after a clear nothing is cached: whoever asks next has to count. */
  lemma ClearIsComplete(init: nat, evs: seq<Event>, id: nat)
    requires Legal(init, evs + [Clear]) && Legal(init, evs + [Clear] + [Ask(id)])
    ensures After(init, evs + [Clear]).cache.ready == false
    ensures After(init, evs + [Clear] + [Ask(id)]).loaders[id] == Missed
  {
    AfterSnoc(init, evs, Clear);
    AfterSnoc(init, evs + [Clear], Ask(id));
  }

  /** Whoever asks while a status is cached gets exactly that, and leaves the cache alone. */
  lemma HitAnswers(init: nat, evs: seq<Event>, id: nat)
    requires Legal(init, evs + [Ask(id)]) && Legal(init, evs) && After(init, evs).cache.ready
    ensures After(init, evs + [Ask(id)]).loaders[id] == Done(After(init, evs).cache.status)
    ensures After(init, evs + [Ask(id)]).cache == After(init, evs).cache
  {
    AfterSnoc(init, evs, Ask(id));
  }

  /** A loader that nobody overtakes stores its count and answers with it. */
  lemma LoneLoaderAnswers(init: nat, evs: seq<Event>, id: nat)
    requires Legal(init, evs) && id in After(init, evs).loaders && After(init, evs).loaders[id].Missed?
    requires Legal(init, evs + [Bump(id)] + [Count(id)] + [Store(id)])
    ensures var s, n := After(init, evs + [Bump(id)] + [Count(id)] + [Store(id)]), After(init, evs).db;
            && s.cache.ready && s.cache.status == Status(n > 0, n) && s.loaders[id] == Done(Status(n > 0, n))
  {
    AfterSnoc(init, evs + [Bump(id)] + [Count(id)], Store(id));
    AfterSnoc(init, evs + [Bump(id)], Count(id));
    AfterSnoc(init, evs, Bump(id));
  }

  // ----- Where a stored count comes from -----

  /** Steps that take a new generation number. */
  predicate TakesGeneration(e: Event) {
    e.Bump? || e.Mark? || e.Clear?
  }

  lemma {:induction false} LegalPrefix(init: nat, evs: seq<Event>, n: nat)
    requires Legal(init, evs) && n <= |evs|
    ensures Legal(init, evs[..n])
  {
    if n < |evs| {
      LegalPrefix(init, evs[..|evs| - 1], n);
      assert evs[..|evs| - 1][..n] == evs[..n];
    } else {
      assert evs[..n] == evs;
    }
  }

  /** Step `r` is where loader `id` counted the admins; no generation was taken since, if its
      own is still the current one. */
  predicate ReadAt(init: nat, evs: seq<Event>, id: nat, l: Loader, r: nat)
    requires Legal(init, evs) && l.Counted? && r < |evs|
  {
    LegalPrefix(init, evs, r);
    && evs[r] == Count(id)
    && After(init, evs[..r]).db == l.count
    && (l.gen == After(init, evs).cache.gen ==> forall j :: r < j < |evs| ==> !TakesGeneration(evs[j]))
  }

  /** A count that a loader already held stays as it is, and while its generation stays the
      current one nobody takes another. */
  lemma CountIsKept(s: State, e: Event, id: nat)
    requires Generations(s) && Enabled(s, e) && e != Count(id)
    requires id in Next(s, e).loaders && Next(s, e).loaders[id].Counted?
    ensures id in s.loaders && s.loaders[id] == Next(s, e).loaders[id]
    ensures s.loaders[id].gen == Next(s, e).cache.gen ==> s.loaders[id].gen == s.cache.gen && !TakesGeneration(e)
  {
  }

  lemma {:induction false} CountedWasRead(init: nat, evs: seq<Event>, id: nat) returns (r: nat)
    requires Legal(init, evs)
    requires id in After(init, evs).loaders && After(init, evs).loaders[id].Counted?
    ensures r < |evs| && ReadAt(init, evs, id, After(init, evs).loaders[id], r)
  {
    var before, e := evs[..|evs| - 1], evs[|evs| - 1];
    if e == Count(id) {
      r := |evs| - 1;
    } else {
      RunKeepsInv(init, before);
      CountIsKept(After(init, before), e, id);
      r := CountedWasRead(init, before, id);
      assert before[..r] == evs[..r];
      assert evs[r] == before[r];
    }
  }

  /** Every count that a loader manages to store was read from the database after the latest
      Clear, Mark or other loader's generation bump. */
  lemma StoredCountIsFresh(init: nat, evs: seq<Event>, id: nat) returns (r: nat)
    requires Legal(init, evs + [Store(id)])
    ensures Legal(init, evs) && id in After(init, evs).loaders && After(init, evs).loaders[id].Counted?
    ensures var s, l := After(init, evs), After(init, evs).loaders[id];
            l.gen == s.cache.gen ==>
              && r < |evs| && evs[r] == Count(id) && Legal(init, evs[..r])
              && After(init, evs + [Store(id)]).cache == Cache(s.cache.gen, true, StatusOf(After(init, evs[..r]).db))
              && (forall j :: r < j < |evs| ==> !TakesGeneration(evs[j]))
  {
    assert (evs + [Store(id)])[..|evs|] == evs;
    r := CountedWasRead(init, evs, id);
    LegalPrefix(init, evs, r);
  }
}
