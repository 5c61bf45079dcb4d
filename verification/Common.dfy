/** Shared vocabulary: optional values, bytes, powers of two, white-space trimming and byte-order string comparison. */
module Common {

  datatype Option<+T> = None | Some(value: T)

  type Byte = b: int | 0 <= b < 256

  /** The all-zero identifier. */
  const NIL := "00000000-0000-0000-0000-000000000000"

  function Pow2(k: nat): (p: nat)
    ensures p >= 1
  {
    if k == 0 then 1 else 2 * Pow2(k - 1)
  }

  // ----- Optional parts of a list -----

  /** The values that are present, in order. */
  function Present<A, Q>(of: A -> Option<Q>, s: seq<A>): seq<Q> {
    if s == [] then []
    else
      var init, last := Present(of, s[..|s| - 1]), of(s[|s| - 1]);
      if last.Some? then init + [last.value] else init
  }

  lemma {:induction false} PresentConcat<A, Q>(of: A -> Option<Q>, a: seq<A>, b: seq<A>)
    ensures Present(of, a + b) == Present(of, a) + Present(of, b)
  {
    if b == [] {
      assert a + b == a;
    } else {
      PresentConcat(of, a, b[..|b| - 1]);
      assert (a + b)[..|a + b| - 1] == a + b[..|b| - 1];
    }
  }

  lemma PresentOne<A, Q>(of: A -> Option<Q>, a: A)
    ensures Present(of, [a]) == if of(a).Some? then [of(a).value] else []
  {
    assert [a][..0] == [];
  }

  lemma PresentSnoc<A, Q>(of: A -> Option<Q>, s: seq<A>, a: A)
    ensures Present(of, s + [a]) == if of(a).Some? then Present(of, s) + [of(a).value] else Present(of, s)
  {
    assert (s + [a])[..|s|] == s;
  }

  lemma {:induction false} PresentCongruent<A, Q>(f: A -> Option<Q>, g: A -> Option<Q>, s: seq<A>)
    requires forall x :: x in s ==> f(x) == g(x)
    ensures Present(f, s) == Present(g, s)
  {
    if s != [] {
      PresentCongruent(f, g, s[..|s| - 1]);
      assert s[|s| - 1] in s;
    }
  }

  // ----- White space -----

  /** The characters the platform's TrimSpace removes. */
  predicate IsSpace(c: char) {
    || c in {'\t', '\n', '\U{000B}', '\U{000C}', '\r', ' ', '\U{0085}', '\U{00A0}', '\U{1680}'}
    || '\U{2000}' <= c <= '\U{200A}'
    || c in {'\U{2028}', '\U{2029}', '\U{202F}', '\U{205F}', '\U{3000}'}
  }

  function TrimLeft(s: string): string {
    if s != "" && IsSpace(s[0]) then TrimLeft(s[1..]) else s
  }

  function TrimRight(s: string): string {
    if s != "" && IsSpace(s[|s| - 1]) then TrimRight(s[..|s| - 1]) else s
  }

  function TrimSpace(s: string): string {
    TrimRight(TrimLeft(s))
  }

  predicate NoSpace(s: string) {
    forall i :: 0 <= i < |s| ==> !IsSpace(s[i])
  }

  lemma TrimNoSpace(s: string)
    requires NoSpace(s)
    ensures TrimSpace(s) == s
  {
  }

  predicate AllSpace(s: string) {
    forall i :: 0 <= i < |s| ==> IsSpace(s[i])
  }

  lemma {:induction false} TrimLeftCuts(s: string) returns (front: string)
    ensures s == front + TrimLeft(s) && AllSpace(front)
    ensures TrimLeft(s) != "" ==> !IsSpace(TrimLeft(s)[0])
  {
    front := "";
    if s != "" && IsSpace(s[0]) {
      var rest := TrimLeftCuts(s[1..]);
      front := [s[0]] + rest;
      assert s == [s[0]] + s[1..];
    }
  }

  lemma {:induction false} TrimRightCuts(s: string) returns (back: string)
    ensures s == TrimRight(s) + back && AllSpace(back)
    ensures TrimRight(s) != "" ==> !IsSpace(TrimRight(s)[|TrimRight(s)| - 1])
  {
    back := "";
    if s != "" && IsSpace(s[|s| - 1]) {
      var rest := TrimRightCuts(s[..|s| - 1]);
      back := rest + [s[|s| - 1]];
      assert s == s[..|s| - 1] + [s[|s| - 1]];
    }
  }

  /** Trimming cuts white space at both ends and nothing else. */
  lemma TrimCutsSpace(s: string) returns (front: string, back: string)
    ensures s == front + TrimSpace(s) + back && AllSpace(front) && AllSpace(back)
    ensures TrimSpace(s) != "" ==> !IsSpace(TrimSpace(s)[0]) && !IsSpace(TrimSpace(s)[|TrimSpace(s)| - 1])
  {
    front := TrimLeftCuts(s);
    back := TrimRightCuts(TrimLeft(s));
    assert TrimSpace(s) != "" ==> TrimSpace(s)[0] == TrimLeft(s)[0];
  }

  // ----- String order -----

  /** Byte-wise lexicographic order of strings. */
  predicate Less(a: string, b: string) {
    b != "" && (a == "" || a[0] < b[0] || (a[0] == b[0] && Less(a[1..], b[1..])))
  }

  lemma {:induction false} LessTransitive(a: string, b: string, c: string)
    requires Less(a, b) && Less(b, c)
    ensures Less(a, c)
  {
    if a != "" && a[0] == b[0] == c[0] { LessTransitive(a[1..], b[1..], c[1..]); }
  }

  lemma {:induction false} LessIrreflexive(a: string)
    ensures !Less(a, a)
  {
    if a != "" { LessIrreflexive(a[1..]); }
  }

  lemma {:induction false} LessTotal(a: string, b: string)
    ensures a == b || Less(a, b) || Less(b, a)
  {
    if a != "" && b != "" && a[0] == b[0] {
      LessTotal(a[1..], b[1..]);
      if a[1..] == b[1..] { assert a == [a[0]] + a[1..] == [b[0]] + b[1..] == b; }
    }
  }

  /** After a common beginning, the string that ends first or has the smaller character precedes. */
  lemma {:induction false} LessAfterCommon(a: string, b: string, n: nat)
    requires n <= |a| && n < |b| && a[..n] == b[..n] && (n < |a| ==> a[n] < b[n])
    ensures Less(a, b)
  {
    if n > 0 {
      assert a[0] == a[..n][0] == b[..n][0] == b[0];
      assert a[1..][..n - 1] == a[..n][1..] && b[1..][..n - 1] == b[..n][1..];
      LessAfterCommon(a[1..], b[1..], n - 1);
    }
  }

  /** Failing to precede is transitive too. */
  lemma LessIsWeak(a: string, b: string, c: string)
    ensures Less(a, b) && Less(b, c) ==> Less(a, c)
    ensures !Less(a, b) && !Less(b, c) ==> !Less(a, c)
  {
    LessTotal(a, b);
    LessTotal(b, c);
    if Less(a, b) && Less(b, c) { LessTransitive(a, b, c); }
    if Less(c, b) && Less(b, a) {
      LessTransitive(c, b, a);
      LessIrreflexive(c);
      if Less(a, c) { LessTransitive(c, a, c); }
    }
  }
}
