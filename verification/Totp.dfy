/** Time-based one-time passwords: the counter message, dynamic truncation
    (section 5.3 of RFC 4226) and the three-step acceptance window. */
module Totp {
  import opened Common

  /** HMAC-SHA1 is any function from a secret and a message to twenty bytes. */
  type Mac = mac: (seq<Byte>, seq<Byte>) -> seq<Byte> | TwentyBytes(mac)
    witness (secret: seq<Byte>, message: seq<Byte>) => seq(20, _ => 0)

  ghost predicate TwentyBytes(mac: (seq<Byte>, seq<Byte>) -> seq<Byte>) {
    forall secret: seq<Byte>, message: seq<Byte> :: |mac(secret, message)| == 20
  }

  const PERIOD: int := 30
  const TWO_63: int := 0x8000_0000_0000_0000
  const TWO_64: int := 0x1_0000_0000_0000_0000

  // ----- The eight-byte counter message -----

  /** The number a byte string denotes, most significant byte first. */
  function BigEndian(bytes: seq<Byte>): nat {
    if bytes == [] then 0 else 256 * BigEndian(bytes[..|bytes| - 1]) + bytes[|bytes| - 1]
  }

  /** The low `n` bytes of a two's-complement integer, most significant first. */
  function LowBytes(counter: int, n: nat): (bytes: seq<Byte>)
    ensures |bytes| == n
    decreases n
  {
    if n == 0 then [] else LowBytes(counter / 256, n - 1) + [counter % 256]
  }

  function Pow256(n: nat): (p: nat)
    ensures p >= 1
  {
    if n == 0 then 1 else 256 * Pow256(n - 1)
  }

  lemma {:induction false} LowBytesDenote(counter: int, n: nat)
    ensures BigEndian(LowBytes(counter, n)) == counter % Pow256(n)
    decreases n
  {
    if n > 0 {
      LowBytesDenote(counter / 256, n - 1);
      var bytes := LowBytes(counter, n);
      assert bytes[..n - 1] == LowBytes(counter / 256, n - 1);
      SplitModulo(counter, Pow256(n - 1));
    }
  }

  lemma SplitModulo(c: int, p: nat)
    requires p >= 1
    ensures 256 * ((c / 256) % p) + c % 256 == c % (256 * p)
  {
    var q := c / 256;
    var r := 256 * (q % p) + c % 256;
    assert c == (256 * p) * (q / p) + r by {
      assert q == p * (q / p) + q % p;
      assert 256 * (p * (q / p)) == (256 * p) * (q / p);
    }
    assert q % p <= p - 1;
    UniqueRemainder(c, 256 * p, q / p, r);
  }

  lemma UniqueRemainder(c: int, d: int, q: int, r: int)
    requires d >= 1 && c == d * q + r && 0 <= r < d
    ensures c % d == r
  {
    var k := q - c / d;
    assert d * k == d * q - d * (c / d);
    assert d * k == c % d - r;
    assert -d < d * k < d;
    SmallMultiple(d, k);
  }

  lemma SmallMultiple(d: int, k: int)
    requires -d < d * k < d
    ensures k == 0
  {
  }

  const MESSAGE_BYTES: nat := 8

  function Message(counter: int): seq<Byte> {
    LowBytes(counter, MESSAGE_BYTES)
  }

  /** The shifting loop of the source: byte 7 first, the counter shifted right by eight. */
  method CounterMessage(counter: int) returns (message: seq<Byte>)
    ensures message == Message(counter)
  {
    var buf := new Byte[8](_ => 0);
    var rest := counter;
    var i := 7;
    while i >= 0
      invariant -1 <= i <= 7
      invariant Message(counter) == LowBytes(rest, i + 1) + buf[i + 1..]
    {
      buf[i] := rest % 256;
      assert buf[i..] == [rest % 256] + buf[i + 1..];
      rest := rest / 256;
      i := i - 1;
    }
    message := buf[..];
  }

  lemma Pow256Eight()
    ensures Pow256(MESSAGE_BYTES) == TWO_64
  {
    assert Pow256(2) == 0x1_0000;
    assert Pow256(4) == 0x1_0000_0000;
    assert Pow256(6) == 0x1_0000_0000_0000;
  }

  /** Distinct 64-bit counters are sent as distinct messages, and a non-negative counter's
      message denotes it. */
  lemma MessagesAreFaithful(c: int, d: int)
    requires -TWO_63 <= c < TWO_63 && -TWO_63 <= d < TWO_63
    ensures Message(c) == Message(d) ==> c == d
    ensures c >= 0 ==> BigEndian(Message(c)) == c
  {
    Pow256Eight();
    LowBytesDenote(c, MESSAGE_BYTES);
    LowBytesDenote(d, MESSAGE_BYTES);
    SignedResidue(c);
    SignedResidue(d);
  }

  lemma SignedResidue(c: int)
    requires -TWO_63 <= c < TWO_63
    ensures c % TWO_64 == if c >= 0 then c else c + TWO_64
  {
    UniqueRemainder(c, TWO_64, if c >= 0 then 0 else -1, if c >= 0 then c else c + TWO_64);
  }

  // ----- Bit operations on non-negative integers -----

  function BitAnd(a: nat, b: nat): nat {
    if a == 0 || b == 0 then 0 else 2 * BitAnd(a / 2, b / 2) + (if a % 2 == 1 && b % 2 == 1 then 1 else 0)
  }

  function BitOr(a: nat, b: nat): nat
    decreases a + b
  {
    if a == 0 then b else if b == 0 then a
    else 2 * BitOr(a / 2, b / 2) + (if a % 2 == 1 || b % 2 == 1 then 1 else 0)
  }

  lemma {:induction false} MaskIsModulo(a: nat, k: nat)
    ensures BitAnd(a, Pow2(k) - 1) == a % Pow2(k)
    decreases k
  {
    if k > 0 {
      MaskIsModulo(a / 2, k - 1);
      HalvedModulo(a, Pow2(k - 1));
      assert (Pow2(k) - 1) / 2 == Pow2(k - 1) - 1;
    }
  }

  lemma HalvedModulo(a: nat, p: nat)
    requires p >= 1
    ensures a % (2 * p) == 2 * ((a / 2) % p) + a % 2
  {
    var h := a / 2;
    assert h == p * (h / p) + h % p;
    assert a == (2 * p) * (h / p) + (2 * (h % p) + a % 2) by {
      assert 2 * (p * (h / p)) == (2 * p) * (h / p);
    }
    assert h % p <= p - 1;
    UniqueRemainder(a, 2 * p, h / p, 2 * (h % p) + a % 2);
  }

  /** Or-ing a shifted value with bits below the shift adds them. */
  lemma {:induction false} OrOfDisjointBits(high: nat, low: nat, k: nat)
    requires low < Pow2(k)
    ensures BitOr(high * Pow2(k), low) == high * Pow2(k) + low
    decreases k
  {
    if k > 0 {
      var p := Pow2(k - 1);
      OrOfDisjointBits(high, low / 2, k - 1);
      DoubledProduct(high, p);
      OrOfDoubled(high * p, low);
    }
  }

  lemma DoubledProduct(high: nat, p: nat)
    ensures high * (2 * p) == 2 * (high * p)
  {
  }

  lemma OrOfDoubled(half: nat, low: nat)
    requires BitOr(half, low / 2) == half + low / 2
    ensures BitOr(2 * half, low) == 2 * half + low
  {
  }

  // ----- Dynamic truncation -----

  lemma PowersOfTwo()
    ensures Pow2(4) == 16 && Pow2(7) == 128 && Pow2(8) == 256
    ensures Pow2(16) == 0x1_0000 && Pow2(24) == 0x100_0000
  {
    assert Pow2(4) == 16;
    assert Pow2(8) == 256;
    assert Pow2(16) == 0x1_0000;
  }

  lemma LowNibble(b: nat)
    ensures BitAnd(b, 0x0f) == b % 16
  {
    PowersOfTwo();
    MaskIsModulo(b, 4);
  }

  lemma LowSeven(b: nat)
    ensures BitAnd(b, 0x7f) == b % 128
  {
    PowersOfTwo();
    MaskIsModulo(b, 7);
  }

  lemma LowEight(b: nat)
    ensures BitAnd(b, 0xff) == b % 256
  {
    PowersOfTwo();
    MaskIsModulo(b, 8);
  }

  lemma WholeByte(b: nat)
    requires b < 256
    ensures BitAnd(b, 0xff) == b
  {
    LowEight(b);
    UniqueRemainder(b, 256, 0, b);
  }

  lemma OrBelow8(high: nat, low: nat)
    requires low < 0x100
    ensures BitOr(high * 0x100, low) == high * 0x100 + low
  {
    PowersOfTwo();
    OrOfDisjointBits(high, low, 8);
  }

  lemma OrBelow16(high: nat, low: nat)
    requires low < 0x1_0000
    ensures BitOr(high * 0x1_0000, low) == high * 0x1_0000 + low
  {
    PowersOfTwo();
    OrOfDisjointBits(high, low, 16);
  }

  lemma OrBelow24(high: nat, low: nat)
    requires low < 0x100_0000
    ensures BitOr(high * 0x100_0000, low) == high * 0x100_0000 + low
  {
    PowersOfTwo();
    OrOfDisjointBits(high, low, 24);
  }

  function Joined(top: nat, b1: nat, b2: nat, b3: nat): nat {
    BitOr(BitOr(BitOr(top * 0x100_0000, b1 * 0x1_0000), b2 * 0x100), b3)
  }

  /** The masking and shifting the source performs on four bytes of the MAC. */
  function Combine(b0: nat, b1: nat, b2: nat, b3: nat): nat {
    Joined(BitAnd(b0, 0x7f), BitAnd(b1, 0xff), BitAnd(b2, 0xff), BitAnd(b3, 0xff))
  }

  lemma JoinedConcatenates(top: nat, b1: nat, b2: nat, b3: nat)
    requires b1 < 256 && b2 < 256 && b3 < 256
    ensures Joined(top, b1, b2, b3) == top * 0x100_0000 + b1 * 0x1_0000 + b2 * 0x100 + b3
  {
    OrBelow24(top, b1 * 0x1_0000);
    OrBelow16(top * 256 + b1, b2 * 0x100);
    OrBelow8(top * 0x1_0000 + b1 * 256 + b2, b3);
  }

  lemma CombineConcatenates(b0: nat, b1: nat, b2: nat, b3: nat)
    requires b1 < 256 && b2 < 256 && b3 < 256
    ensures Combine(b0, b1, b2, b3) == (b0 % 128) * 0x100_0000 + b1 * 0x1_0000 + b2 * 0x100 + b3
  {
    LowSeven(b0);
    WholeByte(b1);
    WholeByte(b2);
    WholeByte(b3);
    JoinedConcatenates(b0 % 128, b1, b2, b3);
  }

  function Truncate(mac: seq<Byte>): nat
    requires |mac| == 20
  {
    LowNibble(mac[19]);
    var offset := BitAnd(mac[19], 0x0f);
    Combine(mac[offset], mac[offset + 1], mac[offset + 2], mac[offset + 3])
  }

  /** Section 5.3 of RFC 4226: the low 31 bits of the four bytes at the offset given by the
      low four bits of the last byte. */
  function DynamicTruncation(mac: seq<Byte>): nat
    requires |mac| == 20
  {
    var offset := mac[19] % 16;
    BigEndian(mac[offset..offset + 4]) % 0x8000_0000
  }

  lemma FourBytes(b: seq<Byte>, b0: int, b1: int, b2: int, b3: int)
    requires b == [b0, b1, b2, b3]
    ensures BigEndian(b) == b0 * 0x100_0000 + b1 * 0x1_0000 + b2 * 0x100 + b3
  {
    assert b[..3][..2] == b[..2];
    assert b[..2][..1] == b[..1];
    assert b[..1][..0] == [];
    assert BigEndian(b[..1]) == b0;
    assert BigEndian(b[..2]) == 256 * b0 + b1;
    assert BigEndian(b[..3]) == 256 * BigEndian(b[..2]) + b2;
  }

  lemma Low31Bits(b0: nat, rest: nat)
    requires rest < 0x100_0000
    ensures (b0 * 0x100_0000 + rest) % 0x8000_0000 == (b0 % 128) * 0x100_0000 + rest
  {
    UniqueRemainder(b0 * 0x100_0000 + rest, 0x8000_0000, b0 / 128, (b0 % 128) * 0x100_0000 + rest);
  }

  lemma TruncateIsDynamicTruncation(mac: seq<Byte>)
    requires |mac| == 20
    ensures Truncate(mac) == DynamicTruncation(mac)
  {
    LowNibble(mac[19]);
    var o := mac[19] % 16;
    assert Truncate(mac) == Combine(mac[o], mac[o + 1], mac[o + 2], mac[o + 3]);
    var b0: int, b1: int, b2: int, b3: int := mac[o], mac[o + 1], mac[o + 2], mac[o + 3];
    CombineConcatenates(b0, b1, b2, b3);
    Low31Bits(b0, b1 * 0x1_0000 + b2 * 0x100 + b3);
    assert mac[o..o + 4] == [b0, b1, b2, b3];
    FourBytes(mac[o..o + 4], b0, b1, b2, b3);
  }

  // ----- Six decimal digits -----

  function Digit(d: nat): char
    requires d < 10
  {
    '0' + d as char
  }

  function Decimal(n: nat): string {
    if n < 10 then [Digit(n)] else Decimal(n / 10) + [Digit(n % 10)]
  }

  /** The `%06d` verb. */
  function ZeroPadded(s: string): string
    decreases 6 - |s|
  {
    if |s| >= 6 then s else ZeroPadded("0" + s)
  }

  predicate Digits(s: string) {
    forall i :: 0 <= i < |s| ==> '0' <= s[i] <= '9'
  }

  function DecimalValue(s: string): nat
    requires Digits(s)
  {
    if s == "" then 0 else 10 * DecimalValue(s[..|s| - 1]) + (s[|s| - 1] - '0') as nat
  }

  function Pow10(k: nat): nat {
    if k == 0 then 1 else 10 * Pow10(k - 1)
  }

  lemma {:induction false} DecimalDenotes(n: nat, k: nat)
    requires k >= 1 && n < Pow10(k)
    ensures Digits(Decimal(n)) && DecimalValue(Decimal(n)) == n
    ensures 1 <= |Decimal(n)| <= k
  {
    if n >= 10 {
      assert k > 1;
      DecimalDenotes(n / 10, k - 1);
      var s := Decimal(n);
      assert s[..|s| - 1] == Decimal(n / 10);
    } else {
      assert Decimal(n)[..0] == "";
    }
  }

  lemma {:induction false} LeadingZero(s: string)
    requires Digits(s)
    ensures Digits("0" + s) && DecimalValue("0" + s) == DecimalValue(s)
  {
    var z := "0" + s;
    if s != "" {
      LeadingZero(s[..|s| - 1]);
      assert z[..|z| - 1] == "0" + s[..|s| - 1];
    } else {
      assert z[..0] == "";
    }
  }

  lemma {:induction false} PaddingKeepsValue(s: string)
    requires Digits(s) && |s| <= 6
    ensures |ZeroPadded(s)| == 6 && Digits(ZeroPadded(s))
    ensures DecimalValue(ZeroPadded(s)) == DecimalValue(s)
    decreases 6 - |s|
  {
    if |s| < 6 {
      LeadingZero(s);
      PaddingKeepsValue("0" + s);
    }
  }

  // ----- Codes -----

  function Code(mac: Mac, secret: seq<Byte>, counter: int): string
  {
    ZeroPadded(Decimal(Truncate(mac(secret, Message(counter))) % 1_000_000))
  }

  /** The code is the six-digit HOTP value of section 5.3 of RFC 4226. */
  lemma CodeIsHotp(mac: Mac, secret: seq<Byte>, counter: int)
    ensures var code := Code(mac, secret, counter);
            && |code| == 6 && Digits(code)
            && DecimalValue(code) == DynamicTruncation(mac(secret, Message(counter))) % 1_000_000
  {
    var sum := mac(secret, Message(counter));
    TruncateIsDynamicTruncation(sum);
    var n := Truncate(sum) % 1_000_000;
    assert Pow10(3) == 1000;
    assert Pow10(6) == 1_000_000;
    DecimalDenotes(n, 6);
    PaddingKeepsValue(Decimal(n));
  }

  method ComputeCode(mac: Mac, secret: seq<Byte>, counter: int) returns (code: string)
    ensures code == Code(mac, secret, counter)
  {
    var message := CounterMessage(counter);
    var sum := mac(secret, message);
    code := ZeroPadded(Decimal(Truncate(sum) % 1_000_000));
  }

  // ----- The acceptance window -----

  /** The well-formedness checks that precede any comparison. */
  predicate WellFormed(code: string) {
    |TrimSpace(code)| == 6 && Digits(TrimSpace(code))
  }

  /** The earliest of the previous, current and next step whose code it is. */
  function FirstHit(codes: int -> string, trimmed: string, step: int): Option<int> {
    if codes(step - 1) == trimmed then Some(step - 1)
    else if codes(step) == trimmed then Some(step)
    else if codes(step + 1) == trimmed then Some(step + 1)
    else None
  }

  /** The answer is the least matching step of the three, or none when none of them matches. */
  method SearchWindow(codes: int -> string, trimmed: string, step: int) returns (r: Option<int>)
    ensures r == FirstHit(codes, trimmed, step)
    ensures r.Some? ==> step - 1 <= r.value <= step + 1 && codes(r.value) == trimmed
    ensures forall c :: step - 1 <= c <= step + 1 && codes(c) == trimmed ==> r.Some? && r.value <= c
  {
    for offset := -1 to 2
      invariant forall c :: step - 1 <= c < step + offset ==> codes(c) != trimmed
    {
      var candidate := step + offset;
      if codes(candidate) == trimmed { return Some(candidate); }
    }
    return None;
  }

  function Codes(mac: Mac, secret: seq<Byte>): int -> string {
    counter => Code(mac, secret, counter)
  }

  /** The matched time step. A secret that does not decode is `None`. */
  function Matched(mac: Mac, secret: Option<seq<Byte>>, code: string, unix: nat): (r: Option<int>)
    ensures r.Some? ==> unix / PERIOD - 1 <= r.value <= unix / PERIOD + 1
  {
    if !WellFormed(code) || secret.None? then None
    else FirstHit(Codes(mac, secret.value), TrimSpace(code), unix / PERIOD)
  }

  // ----- What a match means -----

  /** Digit strings of one length are told apart by their values. */
  lemma {:induction false} DigitsAreFaithful(a: string, b: string)
    requires |a| == |b| && Digits(a) && Digits(b) && DecimalValue(a) == DecimalValue(b)
    ensures a == b
  {
    if a != "" {
      var n := |a| - 1;
      assert DecimalValue(a) / 10 == DecimalValue(a[..n]) && DecimalValue(b) / 10 == DecimalValue(b[..n]);
      DigitsAreFaithful(a[..n], b[..n]);
      assert a == a[..n] + [a[n]] && b == b[..n] + [b[n]];
    }
  }

  /** The code shows the HOTP value of the time step (section 5.3 of RFC 4226). */
  ghost predicate Shows(mac: Mac, secret: seq<Byte>, code: string, step: int) {
    Digits(code) && DecimalValue(code) == DynamicTruncation(mac(secret, Message(step))) % 1_000_000
  }

  lemma CodeShows(mac: Mac, secret: seq<Byte>, code: string, step: int)
    requires |code| == 6 && Digits(code)
    ensures Code(mac, secret, step) == code <==> Shows(mac, secret, code, step)
  {
    CodeIsHotp(mac, secret, step);
    if Shows(mac, secret, code, step) { DigitsAreFaithful(Code(mac, secret, step), code); }
  }

  /** Six digits that show the value of a step at most one away from the current thirty-second
      step, and of no earlier such step. */
  ghost predicate GenuineFor(mac: Mac, secret: seq<Byte>, code: string, unix: nat, step: int) {
    var trimmed := TrimSpace(code);
    && |trimmed| == 6 && unix / 30 - 1 <= step <= unix / 30 + 1 && Shows(mac, secret, trimmed, step)
    && forall c :: unix / 30 - 1 <= c < step ==> !Shows(mac, secret, trimmed, c)
  }

  lemma FirstHitIsLeast(codes: int -> string, trimmed: string, step: int, c: int)
    ensures FirstHit(codes, trimmed, step) == Some(c) <==>
            && step - 1 <= c <= step + 1 && codes(c) == trimmed
            && forall b :: step - 1 <= b < c ==> codes(b) != trimmed
  {
  }

  /** A code is matched to a step exactly when it is genuine for it. */
  lemma MatchedIffGenuine(mac: Mac, secret: seq<Byte>, code: string, unix: nat, step: int)
    ensures Matched(mac, Some(secret), code, unix) == Some(step) <==> GenuineFor(mac, secret, code, unix, step)
  {
    var trimmed := TrimSpace(code);
    FirstHitIsLeast(Codes(mac, secret), trimmed, unix / PERIOD, step);
    if |trimmed| == 6 && Digits(trimmed) {
      forall c ensures Codes(mac, secret)(c) == trimmed <==> Shows(mac, secret, trimmed, c) {
        CodeShows(mac, secret, trimmed, c);
      }
    }
  }

  /** The matched step, if the code is genuine for one; never without a secret. */
  method MatchCounter(mac: Mac, secret: Option<seq<Byte>>, code: string, unix: nat) returns (r: Option<int>)
    ensures r == Matched(mac, secret, code, unix)
    ensures secret.None? ==> r == None
    ensures secret.Some? ==> forall step :: r == Some(step) <==> GenuineFor(mac, secret.value, code, unix, step)
  {
    r := FindCounter(mac, secret, code, unix);
    if secret.Some? {
      forall step ensures r == Some(step) <==> GenuineFor(mac, secret.value, code, unix, step) {
        MatchedIffGenuine(mac, secret.value, code, unix, step);
      }
    }
  }

  method FindCounter(mac: Mac, secret: Option<seq<Byte>>, code: string, unix: nat) returns (r: Option<int>)
    ensures r == Matched(mac, secret, code, unix)
  {
    var trimmed := TrimSpace(code);
    if |trimmed| != 6 { return None; }
    for i := 0 to |trimmed|
      invariant forall j :: 0 <= j < i ==> '0' <= trimmed[j] <= '9'
    {
      if trimmed[i] < '0' || trimmed[i] > '9' { return None; }
    }
    if secret.None? { return None; }
    r := SearchWindow(Codes(mac, secret.value), trimmed, unix / PERIOD);
  }
}
