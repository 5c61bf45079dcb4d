/** The failover trace of a request: its attempts, with consecutive attempts on one channel merged. */
module Failover {
  import opened Common
  import opened Sorting

  /** How attempts are read: the channel key, the channel payload (absent when the attempt names
      no site), and the credential payload (absent when it used none). */
  datatype Projection<!A, P, C> = Projection(key: A -> string, channel: A -> Option<P>, credential: A -> Option<C>)

  datatype Channel<A> = Channel(key: string, item: A)

  function Displayable<A, P, C>(p: Projection<A, P, C>): A -> bool {
    (a: A) => p.channel(a).Some?
  }

  // ----- What the channels are -----

  /** Attempt `e` is the last of a run of adjacent attempts with equal keys. */
  predicate EndsRun<A>(key: A -> string, s: seq<A>, e: int) {
    0 <= e < |s| && (e + 1 == |s| || key(s[e]) != key(s[e + 1]))
  }

  predicate Increasing(ends: seq<int>) {
    forall i, j :: 0 <= i < j < |ends| ==> ends[i] < ends[j]
  }

  /** `ends` lists exactly the ends of runs, in order. */
  ghost predicate RunEnds<A>(key: A -> string, s: seq<A>, ends: seq<int>) {
    Increasing(ends) && forall e :: e in ends <==> EndsRun(key, s, e)
  }

  /** There is one channel per run, in order, and it carries the last attempt of its run. */
  ghost predicate Merges<A>(key: A -> string, s: seq<A>, channels: seq<Channel<A>>, ends: seq<int>) {
    && RunEnds(key, s, ends) && |ends| == |channels|
    && forall i :: 0 <= i < |ends| ==> ends[i] in ends && channels[i] == Channel(key(s[ends[i]]), s[ends[i]])
  }

  /** The channels of a list of displayable attempts. */
  ghost predicate ChannelsOf<A>(key: A -> string, s: seq<A>, channels: seq<Channel<A>>) {
    exists ends :: Merges(key, s, channels, ends)
  }

  lemma LastEnd<A>(key: A -> string, s: seq<A>, ends: seq<int>)
    requires RunEnds(key, s, ends)
    ensures s == [] <==> ends == []
    ensures s != [] ==> ends[|ends| - 1] == |s| - 1
  {
    if s != [] {
      assert EndsRun(key, s, |s| - 1);
      var i :| 0 <= i < |ends| && ends[i] == |s| - 1;
      assert ends[|ends| - 1] in ends;
    }
  }

  lemma EndsRunSnoc<A>(key: A -> string, s: seq<A>, a: A, e: int)
    ensures EndsRun(key, s + [a], e) <==>
            e == |s| || (EndsRun(key, s, e) && !(e == |s| - 1 && key(s[e]) == key(a)))
  {
  }

  lemma WithoutLast(ends: seq<int>, e: int)
    requires Increasing(ends) && ends != []
    ensures e in ends[..|ends| - 1] <==> e in ends && e != ends[|ends| - 1]
  {
    if e in ends && e != ends[|ends| - 1] {
      var i :| 0 <= i < |ends| && ends[i] == e;
      assert ends[..|ends| - 1][i] == e;
    }
  }

  lemma EndsBelow<A>(key: A -> string, s: seq<A>, ends: seq<int>)
    requires RunEnds(key, s, ends)
    ensures forall i :: 0 <= i < |ends| ==> ends[i] < |s|
  {
    forall i | 0 <= i < |ends| ensures ends[i] < |s| { assert ends[i] in ends; }
  }

  /** A new attempt with the key of the last run moves the end of that run. */
  lemma RunGrows<A>(key: A -> string, s: seq<A>, ends: seq<int>, a: A)
    requires RunEnds(key, s, ends) && s != [] && ends != [] && key(s[|s| - 1]) == key(a)
    ensures RunEnds(key, s + [a], ends[..|ends| - 1] + [|s|])
  {
    LastEnd(key, s, ends);
    EndsBelow(key, s, ends);
    forall e ensures e in ends[..|ends| - 1] + [|s|] <==> EndsRun(key, s + [a], e) {
      EndsRunSnoc(key, s, a, e);
      WithoutLast(ends, e);
    }
  }

  /** A new attempt with another key opens a run. */
  lemma RunOpens<A>(key: A -> string, s: seq<A>, ends: seq<int>, a: A)
    requires RunEnds(key, s, ends) && (s == [] || key(s[|s| - 1]) != key(a))
    ensures RunEnds(key, s + [a], ends + [|s|])
  {
    EndsBelow(key, s, ends);
    forall e ensures e in ends + [|s|] <==> EndsRun(key, s + [a], e) {
      EndsRunSnoc(key, s, a, e);
    }
  }

  lemma MergeNext<A>(key: A -> string, s: seq<A>, channels: seq<Channel<A>>, ends: seq<int>, a: A)
    requires Merges(key, s, channels, ends)
    ensures if channels != [] && channels[|channels| - 1].key == key(a)
            then Merges(key, s + [a], channels[..|channels| - 1] + [Channel(key(a), a)], ends[..|ends| - 1] + [|s|])
            else Merges(key, s + [a], channels + [Channel(key(a), a)], ends + [|s|])
  {
    LastEnd(key, s, ends);
    var same := channels != [] && channels[|channels| - 1].key == key(a);
    if same { RunGrows(key, s, ends, a); } else { RunOpens(key, s, ends, a); }
    var cs := if same then channels[..|channels| - 1] else channels;
    var es := if same then ends[..|ends| - 1] else ends;
    var t := s + [a];
    forall i | 0 <= i < |es| ensures cs[i] == Channel(key(t[es[i]]), t[es[i]]) {
      assert ends[i] in ends;
    }
  }

  method FailoverChannels<A, P, C>(p: Projection<A, P, C>, attempts: seq<A>)
    returns (channels: seq<Channel<A>>)
    ensures ChannelsOf(p.key, Filter(attempts, Displayable(p)), channels)
  {
    channels := [];
    ghost var ends: seq<int> := [];
    for i := 0 to |attempts|
      invariant Merges(p.key, Filter(attempts[..i], Displayable(p)), channels, ends)
    {
      var item := attempts[i];
      ghost var shown := Filter(attempts[..i], Displayable(p));
      assert attempts[..i + 1] == attempts[..i] + [item];
      FilterSnoc(attempts[..i], item, Displayable(p));
      if p.channel(item).None? { continue; }
      var key := p.key(item);
      MergeNext(p.key, shown, channels, ends, item);
      if |channels| > 0 && channels[|channels| - 1].key == key {
        channels := channels[..|channels| - 1] + [channels[|channels| - 1].(item := item)];
        ends := ends[..|ends| - 1] + [|shown|];
        continue;
      }
      channels := channels + [Channel(key, item)];
      ends := ends + [|shown|];
    }
    assert attempts[..|attempts|] == attempts;
  }

  lemma HasMember(s: seq<int>)
    ensures s != [] ==> s[0] in s
  {
  }

  lemma {:induction false} IncreasingIsUnique(es: seq<int>, fs: seq<int>)
    requires Increasing(es) && Increasing(fs) && forall e :: e in es <==> e in fs
    ensures es == fs
  {
    HasMember(es);
    HasMember(fs);
    if es != [] {
      var m := |es| - 1;
      assert es[m] in es;
      var n := |fs| - 1;
      assert fs[n] in fs;
      assert es[m] == fs[n];
      forall e ensures e in es[..m] <==> e in fs[..n] {
        assert e in es[..m] <==> e in es && e != es[m];
        assert e in fs[..n] <==> e in fs && e != fs[n];
      }
      IncreasingIsUnique(es[..m], fs[..n]);
    }
  }

  /** The attempts determine the channels. */
  lemma ChannelsAreUnique<A>(key: A -> string, s: seq<A>, cs: seq<Channel<A>>, ds: seq<Channel<A>>)
    requires ChannelsOf(key, s, cs) && ChannelsOf(key, s, ds)
    ensures cs == ds
  {
    var es :| Merges(key, s, cs, es);
    var fs :| Merges(key, s, ds, fs);
    IncreasingIsUnique(es, fs);
  }

  lemma {:induction false} EqualUpToEnd<A>(key: A -> string, s: seq<A>, k: int, e: int)
    requires 0 <= k <= e < |s| && forall j :: k <= j < e ==> !EndsRun(key, s, j)
    ensures key(s[k]) == key(s[e])
    decreases e - k
  {
    if k < e {
      assert !EndsRun(key, s, k);
      EqualUpToEnd(key, s, k + 1, e);
    }
  }

  /** Every attempt between two neighbouring ends has the key of its channel, and neighbouring
      channels have different keys. */
  lemma ChannelsCoverRuns<A>(key: A -> string, s: seq<A>, channels: seq<Channel<A>>, ends: seq<int>, i: nat, k: int)
    requires Merges(key, s, channels, ends) && i < |ends|
    requires (if i == 0 then 0 else ends[i - 1] + 1) <= k <= ends[i]
    ensures k < |s| && key(s[k]) == channels[i].key
    ensures i > 0 ==> channels[i - 1].key != channels[i].key
  {
    assert ends[i] in ends;
    NoEndBetween(key, s, ends, i, k);
    EqualUpToEnd(key, s, k, ends[i]);
    if i > 0 {
      var e := ends[i - 1];
      assert e in ends && EndsRun(key, s, e);
      NoEndBetween(key, s, ends, i, e + 1);
      EqualUpToEnd(key, s, e + 1, ends[i]);
    }
  }

  lemma NoEndBetween<A>(key: A -> string, s: seq<A>, ends: seq<int>, i: nat, k: int)
    requires RunEnds(key, s, ends) && i < |ends|
    requires (if i == 0 then 0 else ends[i - 1] + 1) <= k <= ends[i]
    ensures ends[i] < |s| && forall j :: k <= j < ends[i] ==> !EndsRun(key, s, j)
  {
    assert ends[i] in ends;
    forall j | k <= j < ends[i] ensures !EndsRun(key, s, j) {
      if j in ends {
        var n :| 0 <= n < |ends| && ends[n] == j;
        assert false;
      }
    }
  }

  // ----- The trace -----

  datatype Trace<P, C> = Trace(default: P, intermediates: seq<P>, final: P, credentials: seq<C>)

  function Items<A>(channels: seq<Channel<A>>): seq<A> {
    seq(|channels|, i requires 0 <= i < |channels| => channels[i].item)
  }

  /** Every channel carries a displayable attempt. */
  ghost predicate AllShown<A, P, C>(p: Projection<A, P, C>, channels: seq<Channel<A>>) {
    forall i :: 0 <= i < |channels| ==> p.channel(channels[i].item).Some?
  }

  lemma ChannelsAreShown<A(!new), P, C>(p: Projection<A, P, C>, attempts: seq<A>, channels: seq<Channel<A>>)
    requires ChannelsOf(p.key, Filter(attempts, Displayable(p)), channels)
    ensures AllShown(p, channels)
  {
    var s := Filter(attempts, Displayable(p));
    var ends :| Merges(p.key, s, channels, ends);
    FilterMembers(attempts, Displayable(p));
    forall i | 0 <= i < |channels| ensures p.channel(channels[i].item).Some? {
      assert ends[i] in ends;
      assert s[ends[i]] in s;
      assert Displayable(p)(s[ends[i]]);
    }
  }

  method Collect<A, Q>(of: A -> Option<Q>, s: seq<A>) returns (found: seq<Q>)
    ensures found == Present(of, s)
  {
    found := [];
    for i := 0 to |s|
      invariant found == Present(of, s[..i])
    {
      assert s[..i + 1][..i] == s[..i];
      var payload := of(s[i]);
      if payload.Some? { found := found + [payload.value]; }
    }
    assert s[..|s|] == s;
  }

  function Max(a: int, b: int): int {
    if a > b then a else b
  }

  /** The trace of a channel list: nothing to show without a second channel or credential. */
  ghost predicate TraceOf<A, P, C>(p: Projection<A, P, C>, attempts: seq<A>, channels: seq<Channel<A>>,
                                   r: Option<Trace<P, C>>)
  {
    var credentials := Present(p.credential, attempts);
    && (r.None? <==> |channels| == 0 || (|channels| == 1 && |credentials| <= 1))
    && (r.Some? ==>
          && r.value.credentials == credentials
          && Some(r.value.default) == p.channel(channels[0].item)
          && Some(r.value.final) == p.channel(channels[|channels| - 1].item)
          && (|channels| == 1 ==> r.value.intermediates == [])
          && (|channels| >= 2 ==>
                && |r.value.intermediates| == |channels| - 2
                && [r.value.default] + r.value.intermediates + [r.value.final] == Present(p.channel, Items(channels))))
  }

  /** With two or more channels the trace lists all of them, each once and in order. A channel's
      payload is never absent, so the trace is never dropped for that reason. */
  method FailoverTrace<A(!new), P, C>(p: Projection<A, P, C>, attempts: seq<A>) returns (r: Option<Trace<P, C>>)
    ensures exists channels ::
              ChannelsOf(p.key, Filter(attempts, Displayable(p)), channels) && TraceOf(p, attempts, channels, r)
  {
    var channels := FailoverChannels(p, attempts);
    ChannelsAreShown(p, attempts, channels);
    r := TraceChannels(p, attempts, channels);
  }

  method TraceChannels<A, P, C>(p: Projection<A, P, C>, attempts: seq<A>, channels: seq<Channel<A>>)
    returns (r: Option<Trace<P, C>>)
    requires AllShown(p, channels)
    ensures TraceOf(p, attempts, channels, r)
  {
    var credentials := Collect(p.credential, attempts);
    if |channels| == 0 || (|channels| == 1 && |credentials| <= 1) { return None; }
    var default := p.channel(channels[0].item);
    var intermediates := Collect(p.channel, Items(channels[1..Max(|channels| - 1, 1)]));
    var final := p.channel(channels[|channels| - 1].item);
    MiddleIsPresent(p, channels);
    r := Some(Trace(default.value, intermediates, final.value, credentials));
  }

  lemma {:induction false} PresentOfShown<A, P, C>(p: Projection<A, P, C>, channels: seq<Channel<A>>)
    requires AllShown(p, channels)
    ensures |Present(p.channel, Items(channels))| == |channels|
    ensures forall i :: 0 <= i < |channels| ==>
              Some(Present(p.channel, Items(channels))[i]) == p.channel(channels[i].item)
  {
    if channels != [] {
      PresentOfShown(p, channels[..|channels| - 1]);
      assert Items(channels)[..|channels| - 1] == Items(channels[..|channels| - 1]);
    }
  }

  lemma MiddleIsPresent<A, P, C>(p: Projection<A, P, C>, cs: seq<Channel<A>>)
    requires AllShown(p, cs) && cs != []
    ensures var middle := Present(p.channel, Items(cs[1..Max(|cs| - 1, 1)]));
            && (|cs| == 1 ==> middle == [])
            && (|cs| >= 2 ==>
                  && |middle| == |cs| - 2
                  && [p.channel(cs[0].item).value] + middle + [p.channel(cs[|cs| - 1].item).value]
                     == Present(p.channel, Items(cs)))
  {
    PresentOfShown(p, cs);
    PresentOfShown(p, cs[1..Max(|cs| - 1, 1)]);
  }

  /** There is something to trace exactly with a second channel, or with one channel and a second
      credential. */
  lemma TraceIsShownIff<A, P, C>(p: Projection<A, P, C>, attempts: seq<A>, channels: seq<Channel<A>>,
                                 r: Option<Trace<P, C>>)
    requires TraceOf(p, attempts, channels, r)
    ensures r.Some? <==> |channels| >= 2 || (|channels| == 1 && |Present(p.credential, attempts)| >= 2)
  {
  }
}
