/** One-time use of TOTP codes (section 5.2 of RFC 6238): the guard keeps the last accepted
    time step of every admin and forgets it after a retention period. Instants are
    nanoseconds since the Unix epoch. */
module TotpReplay {
  import opened Common
  import opened Totp

  const SECOND: nat := 1_000_000_000
  const RETENTION: nat := 300 * SECOND

  type AdminId = nat

  datatype Entry = Entry(counter: int, seenAt: nat)

  type Used = map<AdminId, Entry>

  function Pruned(used: Used, now: nat): Used {
    map id | id in used && now - used[id].seenAt <= RETENTION :: used[id]
  }

  function Accepting(used: Used, admin: AdminId, counter: int, now: nat): (Used, bool) {
    var live := Pruned(used, now);
    if admin in live && counter <= live[admin].counter then (live, false)
    else (live[admin := Entry(counter, now)], true)
  }

  /** An equal or later step of the admin was accepted within the last five minutes. */
  predicate Replays(used: Used, admin: AdminId, counter: int, now: nat) {
    admin in used && now - used[admin].seenAt <= 300_000_000_000 && counter <= used[admin].counter
  }

  /** The code of a verification is genuine for the step. */
  ghost predicate Genuine(mac: Mac, v: Verification, step: int) {
    v.secret.Some? && GenuineFor(mac, v.secret.value, v.code, v.matchAt / 1_000_000_000, step)
  }

  class Guard {
    var used: Used

    constructor ()
      ensures used == map[]
    {
      used := map[];
    }

    method Accept(admin: AdminId, counter: int, now: nat) returns (ok: bool)
      modifies this
      ensures (used, ok) == Accepting(old(used), admin, counter, now)
      ensures ok <==> !Replays(old(used), admin, counter, now)
      ensures ok ==> admin in used && used[admin] == Entry(counter, now)
      ensures forall id :: id in used && (id != admin || !ok) ==>
                id in old(used) && used[id] == old(used)[id] && now - used[id].seenAt <= 300_000_000_000
    {
      PruneLocked(now);
      if admin in used && counter <= used[admin].counter { return false; }
      used := used[admin := Entry(counter, now)];
      return true;
    }

    method PruneLocked(now: nat)
      modifies this
      ensures used == Pruned(old(used), now)
    {
      ghost var before := used;
      var todo := used.Keys;
      while todo != {}
        invariant todo <= before.Keys
        invariant used == map id | id in before && (id in todo || now - before[id].seenAt <= RETENTION) :: before[id]
        decreases todo
      {
        var id :| id in todo;
        if now - used[id].seenAt > RETENTION {
          used := used - {id};
        }
        todo := todo - {id};
      }
    }

    /** The whole verification: the code is matched at one clock reading, accepted at another. It
        succeeds exactly when the code is genuine for a step that is no replay. */
    method Verify(mac: Mac, v: Verification) returns (ok: bool)
      modifies this
      ensures used == Step(MatcherOf(mac), old(used), v).0
      ensures ok == Step(MatcherOf(mac), old(used), v).1.Some?
      ensures ok <==> exists step :: Genuine(mac, v, step) && !Replays(old(used), v.admin, step, v.acceptAt)
    {
      var matched := MatchCounter(mac, v.secret, v.code, v.matchAt / SECOND);
      if matched.None? {
        assert forall step :: !Genuine(mac, v, step);
        return false;
      }
      assert forall step :: Genuine(mac, v, step) <==> matched == Some(step);
      ok := Accept(v.admin, matched.value, v.acceptAt);
      assert Genuine(mac, v, matched.value);
    }
  }

  // ----- Runs of verifications -----

  /** One call from Login, EnableTOTP or DisableTOTP, with its two clock readings. */
  datatype Verification = Verification(
    admin: AdminId, secret: Option<seq<Byte>>, code: string, matchAt: nat, acceptAt: nat)

  /** How a code is matched to a time step at a given second. */
  type Matcher = (Option<seq<Byte>>, string, nat) -> Option<int>

  function MatcherOf(mac: Mac): Matcher {
    (secret: Option<seq<Byte>>, code: string, unix: nat) => Matched(mac, secret, code, unix)
  }

  /** A matched step is the previous, current or next one. */
  ghost predicate Windowed(matcher: Matcher) {
    forall secret: Option<seq<Byte>>, code: string, unix: nat ::
      var r := matcher(secret, code, unix);
      r.Some? ==> unix / PERIOD - 1 <= r.value <= unix / PERIOD + 1
  }

  /** The new guard and, when the code is accepted, its time step. */
  function Step(matcher: Matcher, used: Used, v: Verification): (Used, Option<int>) {
    var matched := matcher(v.secret, v.code, v.matchAt / SECOND);
    if matched.None? then (used, None)
    else
      var (used', ok) := Accepting(used, v.admin, matched.value, v.acceptAt);
      (used', if ok then matched else None)
  }

  function After(matcher: Matcher, vs: seq<Verification>): Used {
    if vs == [] then map[] else Step(matcher, After(matcher, vs[..|vs| - 1]), vs[|vs| - 1]).0
  }

  /** The acceptances of one admin, in order, with the readings of each. */
  datatype Acceptance = Acceptance(counter: int, matchAt: nat, acceptAt: nat)

  function Accepted(matcher: Matcher, vs: seq<Verification>, admin: AdminId): seq<Acceptance> {
    if vs == [] then []
    else
      var before, v := vs[..|vs| - 1], vs[|vs| - 1];
      var outcome := Step(matcher, After(matcher, before), v).1;
      Accepted(matcher, before, admin) +
      (if v.admin == admin && outcome.Some? then [Acceptance(outcome.value, v.matchAt, v.acceptAt)] else [])
  }

  /** The clock never goes back between verifications, and within each one the acceptance
      comes at most `delay` after the match. */
  predicate Timed(vs: seq<Verification>, delay: nat) {
    && (forall i :: 0 <= i < |vs| ==> vs[i].matchAt <= vs[i].acceptAt <= vs[i].matchAt + delay)
    && (forall i, j :: 0 <= i < j < |vs| ==> vs[i].acceptAt <= vs[j].acceptAt)
  }

  predicate Increasing(acceptances: seq<Acceptance>) {
    forall i, j :: 0 <= i < j < |acceptances| ==> acceptances[i].counter < acceptances[j].counter
  }

  /** No code is accepted twice, nor an older one after a newer one, in any run. */
  ghost predicate OneTimeUse(delay: nat) {
    forall mac: Mac, vs: seq<Verification>, admin: AdminId ::
      Timed(vs, delay) ==> Increasing(Accepted(MatcherOf(mac), vs, admin))
  }

  /** The longest delay the retention period tolerates. */
  const TOLERATED: nat := 210 * SECOND + 1

  // ----- Within the tolerated delay -----

  function Latest(vs: seq<Verification>): nat {
    if vs == [] then 0 else vs[|vs| - 1].acceptAt
  }

  /** What the guard still knows of the last acceptance of an admin. */
  predicate Remembers(used: Used, admin: AdminId, last: Acceptance, latest: nat) {
    && last.matchAt <= last.acceptAt <= latest
    && last.counter <= last.matchAt / SECOND / PERIOD + 1
    && if admin in used then used[admin] == Entry(last.counter, last.acceptAt)
       else latest - last.acceptAt > RETENTION
  }

  predicate Tracks(used: Used, admin: AdminId, acceptances: seq<Acceptance>, latest: nat) {
    if acceptances == [] then admin !in used
    else Remembers(used, admin, acceptances[|acceptances| - 1], latest)
  }

  /** Ninety seconds later, the earliest acceptable step is past the latest one acceptable then. */
  lemma StepsMoveOn(m1: nat, m2: nat)
    requires m1 + 90 * SECOND <= m2
    ensures m1 / SECOND / PERIOD + 1 < m2 / SECOND / PERIOD - 1
  {
    assert m1 / SECOND + 90 <= m2 / SECOND;
  }

  lemma StepTracks(matcher: Matcher, used: Used, v: Verification, admin: AdminId, acceptances: seq<Acceptance>,
                   latest: nat)
    requires Windowed(matcher)
    requires Tracks(used, admin, acceptances, latest) && Increasing(acceptances)
    requires latest <= v.acceptAt && v.matchAt <= v.acceptAt <= v.matchAt + TOLERATED
    ensures var (used', outcome) := Step(matcher, used, v);
            var acceptances' := acceptances +
              if v.admin == admin && outcome.Some? then [Acceptance(outcome.value, v.matchAt, v.acceptAt)] else [];
            Tracks(used', admin, acceptances', v.acceptAt) && Increasing(acceptances')
  {
    var matched := matcher(v.secret, v.code, v.matchAt / SECOND);
    if matched.Some? {
      var (used', ok) := Accepting(used, v.admin, matched.value, v.acceptAt);
      if v.admin == admin && ok && acceptances != [] {
        var last := acceptances[|acceptances| - 1];
        if admin !in Pruned(used, v.acceptAt) {
          StepsMoveOn(last.matchAt, v.matchAt);
        }
        assert last.counter < matched.value;
      }
    }
  }

  lemma {:induction false} RunTracks(matcher: Matcher, vs: seq<Verification>, admin: AdminId)
    requires Windowed(matcher) && Timed(vs, TOLERATED)
    ensures Tracks(After(matcher, vs), admin, Accepted(matcher, vs, admin), Latest(vs))
    ensures Increasing(Accepted(matcher, vs, admin))
  {
    if vs != [] {
      var before := vs[..|vs| - 1];
      RunTracks(matcher, before, admin);
      StepTracks(matcher, After(matcher, before), vs[|vs| - 1], admin, Accepted(matcher, before, admin),
                 Latest(before));
    }
  }

  /** The step is later than all that were accepted. */
  predicate Newer(acceptances: seq<Acceptance>, step: int) {
    forall i :: 0 <= i < |acceptances| ==> acceptances[i].counter < step
  }

  /** Within the tolerated delay, a matched step is accepted exactly when it is later than every
      step accepted before: the guard refuses replays and nothing else. */
  lemma {:induction false} AcceptedIffNewer(matcher: Matcher, vs: seq<Verification>, v: Verification, step: int)
    requires Windowed(matcher) && Timed(vs + [v], TOLERATED)
    requires matcher(v.secret, v.code, v.matchAt / SECOND) == Some(step)
    ensures Step(matcher, After(matcher, vs), v).1.Some? <==> Newer(Accepted(matcher, vs, v.admin), step)
  {
    TimedPrefix(vs, v, TOLERATED);
    RunTracks(matcher, vs, v.admin);
    NewerThanLast(matcher, After(matcher, vs), Accepted(matcher, vs, v.admin), Latest(vs), v, step);
  }

  lemma TimedPrefix(vs: seq<Verification>, v: Verification, delay: nat)
    requires Timed(vs + [v], delay)
    ensures Timed(vs, delay) && Latest(vs) <= v.acceptAt && v.matchAt <= v.acceptAt <= v.matchAt + delay
  {
    assert (vs + [v])[|vs|] == v;
    assert forall i :: 0 <= i < |vs| ==> (vs + [v])[i] == vs[i];
  }

  lemma NewerThanLast(matcher: Matcher, used: Used, acceptances: seq<Acceptance>, latest: nat, v: Verification,
                      step: int)
    requires Windowed(matcher) && Tracks(used, v.admin, acceptances, latest) && Increasing(acceptances)
    requires latest <= v.acceptAt && v.matchAt <= v.acceptAt <= v.matchAt + TOLERATED
    requires matcher(v.secret, v.code, v.matchAt / SECOND) == Some(step)
    ensures Step(matcher, used, v).1.Some? <==> Newer(acceptances, step)
  {
    if acceptances != [] {
      var last := acceptances[|acceptances| - 1];
      if v.admin !in Pruned(used, v.acceptAt) { StepsMoveOn(last.matchAt, v.matchAt); }
      assert Step(matcher, used, v).1.Some? <==> last.counter < step;
    }
  }

  // ----- Beyond it -----

  /** A MAC whose code at time step `k` differs from every other code. */
  function MarkedMac(k: int): Mac {
    (secret: seq<Byte>, message: seq<Byte>) => seq(20, _ => if message == Message(k) then 1 else 0)
  }

  lemma ConstantTruncation(mac: seq<Byte>, b: nat)
    requires |mac| == 20 && b <= 1 && forall i :: 0 <= i < 20 ==> mac[i] == b
    ensures DynamicTruncation(mac) == b * 16843009
  {
    assert mac[b..b + 4] == [b, b, b, b];
    FourBytes(mac[b..b + 4], b, b, b, b);
  }

  lemma MarkedTruncation(k: int, counter: int)
    requires -TWO_63 <= k < TWO_63 && -TWO_63 <= counter < TWO_63
    ensures DynamicTruncation(MarkedMac(k)([], Message(counter))) == if counter == k then 16843009 else 0
  {
    MessagesAreFaithful(counter, k);
    ConstantTruncation(MarkedMac(k)([], Message(counter)), if counter == k then 1 else 0);
  }

  lemma HotpValue(mac: Mac, counter: int, value: nat)
    requires DynamicTruncation(mac([], Message(counter))) == value
    ensures Digits(Code(mac, [], counter)) && DecimalValue(Code(mac, [], counter)) == value % 1_000_000
  {
    CodeIsHotp(mac, [], counter);
  }

  lemma DifferentValues(a: string, b: string)
    requires Digits(a) && Digits(b) && DecimalValue(a) != DecimalValue(b)
    ensures a != b
  {
  }

  lemma DistinctTruncations(mac: Mac, c: int, k: int, value: nat)
    requires DynamicTruncation(mac([], Message(k))) == value && value % 1_000_000 != 0
    requires DynamicTruncation(mac([], Message(c))) == 0
    ensures Code(mac, [], c) != Code(mac, [], k)
  {
    HotpValue(mac, c, 0);
    HotpValue(mac, k, value);
    DifferentValues(Code(mac, [], c), Code(mac, [], k));
  }

  lemma DigitsAreTrimmed(code: string)
    requires Digits(code)
    ensures TrimSpace(code) == code
  {
    TrimNoSpace(code);
  }

  lemma SoleHit(codes: int -> string, k: int, step: int)
    requires step - 1 <= k <= step + 1
    requires forall c :: step - 1 <= c < k ==> codes(c) != codes(k)
    ensures FirstHit(codes, codes(k), step) == Some(k)
  {
  }

  /** The code stands for time step `k` at second `unix`. */
  predicate ReadAs(matcher: Matcher, code: string, unix: nat, k: int) {
    matcher(Some([]), code, unix) == Some(k)
  }

  lemma MarkedCodeMatches(mac: Mac, matcher: Matcher, code: string, k: nat, unix: nat)
    requires mac == MarkedMac(k) && matcher == MatcherOf(mac) && code == Code(mac, [], k)
    requires 0 < k < 1000 && unix / PERIOD - 1 <= k <= unix / PERIOD + 1
    ensures ReadAs(matcher, code, unix, k)
  {
    MarkedTruncation(k, k);
    forall c | unix / PERIOD - 1 <= c < k
      ensures Codes(mac, [])(c) != Codes(mac, [])(k)
    {
      MarkedTruncation(k, c);
      DistinctTruncations(mac, c, k, 16843009);
    }
    CodeIsHotp(mac, [], k);
    DigitsAreTrimmed(code);
    SoleHit(Codes(mac, []), k, unix / PERIOD);
  }

  /** A code that still matches 90 seconds later is accepted twice once it may be accepted
      more than the tolerated delay after that second match. */
  lemma AcceptedTwice(matcher: Matcher, code: string, k: nat, delay: nat) returns (vs: seq<Verification>)
    requires delay > TOLERATED
    requires Accepts(matcher, code, k)
    ensures Timed(vs, delay) && !Increasing(Accepted(matcher, vs, 0))
  {
    var m1 := 30 * k * SECOND;
    var m2, a2 := m1 + 90 * SECOND - 1, m1 + RETENTION + 1;
    var v1 := Verification(0, Some([]), code, m1, m1);
    var v2 := Verification(0, Some([]), code, m2, a2);
    assert m1 / SECOND == 30 * k && m2 / SECOND == 30 * k + 89;
    var used1 := map[0 := Entry(k + 1, m1)];
    assert Step(matcher, map[], v1) == (used1, Some(k + 1));
    assert Pruned(used1, a2) == map[];
    assert Step(matcher, used1, v2).1 == Some(k + 1);
    TwoSteps(matcher, v1, v2);
    vs := [v1, v2];
    assert Accepted(matcher, vs, 0)[0].counter == Accepted(matcher, vs, 0)[1].counter;
  }

  lemma TwoSteps(matcher: Matcher, v1: Verification, v2: Verification)
    requires v1.admin == v2.admin
    requires Step(matcher, map[], v1).1.Some? && Step(matcher, Step(matcher, map[], v1).0, v2).1.Some?
    ensures var (used1, c1) := Step(matcher, map[], v1);
            Accepted(matcher, [v1, v2], v1.admin) ==
            [Acceptance(c1.value, v1.matchAt, v1.acceptAt),
             Acceptance(Step(matcher, used1, v2).1.value, v2.matchAt, v2.acceptAt)]
  {
    assert [v1, v2][..1] == [v1] && [v1][..0] == [];
    assert After(matcher, [v1]) == Step(matcher, map[], v1).0;
    assert Accepted(matcher, [v1], v1.admin)
        == [Acceptance(Step(matcher, map[], v1).1.value, v1.matchAt, v1.acceptAt)];
  }

  lemma OneTimeUseApplies(mac: Mac, matcher: Matcher, vs: seq<Verification>, delay: nat)
    ensures OneTimeUse(delay) && matcher == MatcherOf(mac) && Timed(vs, delay) ==> Increasing(Accepted(matcher, vs, 0))
  {
  }

  /** The matcher maps the code to time step `k + 1` during all ninety seconds of its window. */
  predicate Accepts(matcher: Matcher, code: string, k: nat) {
    ReadAs(matcher, code, 30 * k, k + 1) && ReadAs(matcher, code, 30 * k + 89, k + 1)
  }

  lemma ReplayWith(mac: Mac, matcher: Matcher, code: string, k: nat, delay: nat)
    requires delay > TOLERATED
    ensures matcher == MatcherOf(mac) && Accepts(matcher, code, k) ==> !OneTimeUse(delay)
  {
    if matcher == MatcherOf(mac) && Accepts(matcher, code, k) {
      var vs := AcceptedTwice(matcher, code, k, delay);
      OneTimeUseApplies(mac, matcher, vs, delay);
    }
  }

  lemma NinetySeconds(k: nat)
    ensures (30 * k) / PERIOD == k && (30 * k + 89) / PERIOD == k + 2
  {
  }

  lemma MarkedMatcher(k: nat) returns (mac: Mac, matcher: Matcher, code: string)
    requires 0 < k < 1000
    ensures matcher == MatcherOf(mac)
    ensures forall unix: nat :: unix / PERIOD - 1 <= k <= unix / PERIOD + 1 ==> ReadAs(matcher, code, unix, k)
  {
    mac := MarkedMac(k);
    matcher := MatcherOf(mac);
    code := Code(mac, [], k);
    forall unix: nat | unix / PERIOD - 1 <= k <= unix / PERIOD + 1 ensures ReadAs(matcher, code, unix, k) {
      MarkedCodeMatches(mac, matcher, code, k, unix);
    }
  }

  /** Any early time step serves for the replay; this one is five minutes after the epoch. */
  const SAMPLE_STEP: nat := 10

  lemma ReplayBeyondTolerance(delay: nat)
    requires delay > TOLERATED
    ensures !OneTimeUse(delay)
  {
    var mac, matcher, code := MarkedMatcher(SAMPLE_STEP + 1);
    NinetySeconds(SAMPLE_STEP);
    ReplayWith(mac, matcher, code, SAMPLE_STEP, delay);
  }

  /** Codes are one-time exactly when every acceptance follows its match within 210 seconds
      (and one nanosecond): five minutes of retention less the ninety-second window. */
  lemma OneTimeUseIffPrompt(delay: nat)
    ensures OneTimeUse(delay) <==> delay <= TOLERATED
  {
    if delay <= TOLERATED {
      forall mac: Mac, vs: seq<Verification>, admin: AdminId | Timed(vs, delay)
        ensures Increasing(Accepted(MatcherOf(mac), vs, admin))
      {
        RunTracks(MatcherOf(mac), vs, admin);
      }
    } else {
      ReplayBeyondTolerance(delay);
    }
  }
}
