/** The two spellings of generated gateway keys and the rules for custom ones. */
module Tokens {
  import opened Common

  const PUBLIC_PREFIX := "xlyra-"
  const COMPATIBLE_PREFIX := "sk-"
  const SECRET_LENGTH: nat := 48
  const ALPHABET_SIZE: nat := 62

  predicate IsAlphanumeric(c: char) {
    'a' <= c <= 'z' || 'A' <= c <= 'Z' || '0' <= c <= '9'
  }

  predicate ValidSecret(secret: string) {
    |secret| == SECRET_LENGTH && forall i :: 0 <= i < |secret| ==> IsAlphanumeric(secret[i])
  }

  predicate ValidCustomKey(key: string) {
    key != "" && forall i :: 0 <= i < |key| ==> IsAlphanumeric(key[i]) || key[i] == '-'
  }

  function GeneratedKey(secret: string): string {
    PUBLIC_PREFIX + secret
  }

  function CompatibleKey(secret: string): string {
    COMPATIBLE_PREFIX + secret
  }

  /** The generated key a presented `sk-` spelling stands for. */
  function GeneratedAlias(key: string): Option<string> {
    var k := TrimSpace(key);
    if COMPATIBLE_PREFIX <= k && ValidSecret(k[|COMPATIBLE_PREFIX|..])
    then Some(GeneratedKey(k[|COMPATIBLE_PREFIX|..]))
    else None
  }

  method CheckSecret(secret: string) returns (ok: bool)
    ensures ok == ValidSecret(secret)
    ensures ok <==> |secret| == 48 && forall i :: 0 <= i < |secret| ==>
              'a' <= secret[i] <= 'z' || 'A' <= secret[i] <= 'Z' || '0' <= secret[i] <= '9'
  {
    if |secret| != SECRET_LENGTH { return false; }
    for i := 0 to |secret|
      invariant forall j :: 0 <= j < i ==> IsAlphanumeric(secret[j])
    {
      if !IsAlphanumeric(secret[i]) { return false; }
    }
    return true;
  }

  method CheckCustomKey(key: string) returns (ok: bool)
    ensures ok == ValidCustomKey(key)
    ensures ok <==> key != "" && forall i :: 0 <= i < |key| ==>
              'a' <= key[i] <= 'z' || 'A' <= key[i] <= 'Z' || '0' <= key[i] <= '9' || key[i] == '-'
  {
    if key == "" { return false; }
    for i := 0 to |key|
      invariant forall j :: 0 <= j < i ==> IsAlphanumeric(key[j]) || key[j] == '-'
    {
      if !IsAlphanumeric(key[i]) && key[i] != '-' { return false; }
    }
    return true;
  }

  method Alias(key: string) returns (r: Option<string>)
    ensures r == GeneratedAlias(key)
    ensures forall secret :: TrimSpace(key) == "sk-" + secret && ValidSecret(secret) ==> r == Some("xlyra-" + secret)
    ensures r.Some? ==> exists secret :: ValidSecret(secret) && TrimSpace(key) == "sk-" + secret
  {
    var k := TrimSpace(key);
    if !(COMPATIBLE_PREFIX <= k) { return None; }
    var secret := k[|COMPATIBLE_PREFIX|..];
    var ok := CheckSecret(secret);
    forall other | k == "sk-" + other ensures other == secret { assert k[3..] == other; }
    if !ok { return None; }
    assert ValidSecret(secret) && k == "sk-" + secret;
    return Some(PUBLIC_PREFIX + secret);
  }

  // ----- Random generation -----

  /** What the random source yields for one key: an error, or one alphabet index per position. */
  datatype Draw = Unreadable | Indices(at: seq<nat>)

  predicate ProperDraw(d: Draw) {
    d.Indices? ==> |d.at| == SECRET_LENGTH && forall i :: 0 <= i < |d.at| ==> d.at[i] < ALPHABET_SIZE
  }

  /** The alphabet: lower-case letters, upper-case letters, digits. */
  function Letter(i: nat): (c: char)
    requires i < ALPHABET_SIZE
    ensures IsAlphanumeric(c)
  {
    if i < 26 then 'a' + i as char else if i < 52 then 'A' + (i - 26) as char else '0' + (i - 52) as char
  }

  /** Indices 0 to 25 are the lower-case letters, 26 to 51 the upper-case ones, 52 to 61 the digits. */
  predicate IsLetter(c: char, i: nat) {
    || (i < 26 && c as int == 'a' as int + i)
    || (26 <= i < 52 && c as int == 'A' as int + i - 26)
    || (52 <= i < 62 && c as int == '0' as int + i - 52)
  }

  /** Every draw gives another secret. */
  lemma LettersTellDraws(i: nat, j: nat)
    requires i < ALPHABET_SIZE && j < ALPHABET_SIZE && Letter(i) == Letter(j)
    ensures i == j
  {
  }

  function SecretOf(at: seq<nat>): string
    requires forall i :: 0 <= i < |at| ==> at[i] < ALPHABET_SIZE
  {
    seq(|at|, i requires 0 <= i < |at| => Letter(at[i]))
  }

  lemma DrawnSecretIsValid(at: seq<nat>)
    requires ProperDraw(Indices(at))
    ensures ValidSecret(SecretOf(at))
  {
  }

  method NewGatewayKey(at: seq<nat>) returns (key: string)
    requires ProperDraw(Indices(at))
    ensures key == GeneratedKey(SecretOf(at)) && ValidSecret(SecretOf(at))
    ensures |key| == 54 && "xlyra-" <= key && forall i :: 0 <= i < 48 ==> IsLetter(key[6 + i], at[i])
  {
    var result := new char[SECRET_LENGTH](_ => ' ');
    for i := 0 to SECRET_LENGTH
      invariant forall j :: 0 <= j < i ==> result[j] == SecretOf(at)[j]
    {
      result[i] := Letter(at[i]);
    }
    DrawnSecretIsValid(at);
    assert result[..] == SecretOf(at);
    key := PUBLIC_PREFIX + result[..];
  }
}
