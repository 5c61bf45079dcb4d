/** The table of gateway API keys: creation, rotation and deletion keep every presented string
    unambiguous, so both validators resolve it to the same record. */
module KeyNamespace {
  import opened Common
  import opened Tokens

  type KeyId = nat

  /** SHA-256, taken to be injective. */
  datatype Digest = Sha256(token: string)

  /** The agent's own row is stored like a key, under a fixed text. */
  datatype Kind = Generated | Custom | AgentInternal

  const AGENT_KEY := "xLyra-agent"

  const AGENT_ROW := Record(AgentInternal, Sha256(AGENT_KEY), true, None, false)

  datatype Record = Record(kind: Kind, hash: Digest, active: bool, expiresAt: Option<int>, quotaSpent: bool)

  type Table = map<KeyId, Record>

  const ATTEMPTS: nat := 10

  type Draws = ds: seq<Draw> | |ds| == ATTEMPTS && forall i :: 0 <= i < |ds| ==> ProperDraw(ds[i])
    witness seq(ATTEMPTS, _ => Unreadable)

  // ----- Choosing a key value -----

  predicate Taken(t: Table, key: string) {
    exists id :: id in t && t[id].hash == Sha256(key)
  }

  predicate TakenByGenerated(t: Table, key: string) {
    exists id :: id in t && t[id].kind == Generated && t[id].hash == Sha256(key)
  }

  datatype Refusal = Malformed | AlreadyExists | ConflictsWithAlias | RandomUnreadable | TooManyCollisions

  datatype Choice = Chosen(key: string, kind: Kind) | Refused(why: Refusal)

  function ChooseCustom(t: Table, key: string): Choice {
    if !ValidCustomKey(key) then Refused(Malformed)
    else if Taken(t, key) then Refused(AlreadyExists)
    else if GeneratedAlias(key).Some? && TakenByGenerated(t, GeneratedAlias(key).value) then Refused(ConflictsWithAlias)
    else Chosen(key, Custom)
  }

  predicate Free(t: Table, secret: string) {
    !Taken(t, GeneratedKey(secret)) && !Taken(t, CompatibleKey(secret))
  }

  function ChooseGenerated(t: Table, draws: Draws, from: nat): Choice
    requires from <= ATTEMPTS
    decreases ATTEMPTS - from
  {
    if from == ATTEMPTS then Refused(TooManyCollisions)
    else if draws[from].Unreadable? then Refused(RandomUnreadable)
    else
      var secret := SecretOf(draws[from].at);
      if Free(t, secret) then Chosen(GeneratedKey(secret), Generated) else ChooseGenerated(t, draws, from + 1)
  }

  function Choose(t: Table, customKey: string, draws: Draws): Choice {
    if customKey != "" then ChooseCustom(t, customKey) else ChooseGenerated(t, draws, 0)
  }

  // ----- Operations -----

  datatype Op =
    | Create(id: KeyId, customKey: string, draws: Draws, expiresAt: Option<int>)
    | Rotate(id: KeyId, draws: Draws)
    | Delete(id: KeyId)
    | Amend(id: KeyId, active: bool, expiresAt: Option<int>, quotaSpent: bool)
    | EnsureAgent(id: KeyId)

  predicate HasAgent(t: Table) {
    exists id :: id in t && t[id].kind == AgentInternal
  }

  /** Failed operations leave the table as it is. A created row takes an unused id, and the
      database refuses a second row with the same hash. */
  function Apply(t: Table, op: Op): Table {
    match op
    case Create(id, customKey, draws, expiresAt) =>
      var choice := Choose(t, customKey, draws);
      if id in t || choice.Refused? then t
      else t[id := Record(choice.kind, Sha256(choice.key), true, expiresAt, false)]
    case Rotate(id, draws) =>
      if id !in t || t[id].kind == Custom then t
      else
        var choice := Choose(t, "", draws);
        if choice.Refused? then t
        else t[id := t[id].(kind := choice.kind, hash := Sha256(choice.key))]
    case Delete(id) => t - {id}
    case Amend(id, active, expiresAt, quotaSpent) =>
      if id !in t then t else t[id := t[id].(active := active, expiresAt := expiresAt, quotaSpent := quotaSpent)]
    case EnsureAgent(id) =>
      if HasAgent(t) then map k | k in t :: if t[k].kind == AgentInternal then t[k].(active := true) else t[k]
      else if id in t || Taken(t, AGENT_KEY) then t
      else t[id := AGENT_ROW]
  }

  function Run(ops: seq<Op>): Table {
    if ops == [] then map[] else Apply(Run(ops[..|ops| - 1]), ops[|ops| - 1])
  }

  // ----- Matching a presented string -----

  predicate Direct(r: Record, presented: string) {
    r.hash == Sha256(presented)
  }

  predicate ByAlias(r: Record, presented: string) {
    r.kind == Generated && GeneratedAlias(presented).Some? && r.hash == Sha256(GeneratedAlias(presented).value)
  }

  predicate Matches(r: Record, presented: string) {
    Direct(r, presented) || ByAlias(r, presented)
  }

  /** Every string a client can present matches at most one stored key. */
  ghost predicate Unambiguous(t: Table) {
    forall presented: string, a: KeyId, b: KeyId ::
      a in t && b in t && Matches(t[a], presented) && Matches(t[b], presented) ==> a == b
  }

  // ----- The table invariant -----

  predicate WellFormed(r: Record) {
    match r.kind
    case Custom => ValidCustomKey(r.hash.token)
    case Generated => PUBLIC_PREFIX <= r.hash.token && ValidSecret(r.hash.token[|PUBLIC_PREFIX|..])
    case AgentInternal => r.hash.token == AGENT_KEY
  }

  function SecretOfKey(token: string): string
    requires PUBLIC_PREFIX <= token
  {
    token[|PUBLIC_PREFIX|..]
  }

  /** Different values, and `b` is not the compatible spelling of a generated `a`. */
  predicate NoClash(a: Record, b: Record)
    requires WellFormed(a)
  {
    a.hash != b.hash && (a.kind == Generated ==> b.hash.token != CompatibleKey(SecretOfKey(a.hash.token)))
  }

  predicate Inv(t: Table) {
    && (forall id :: id in t ==> WellFormed(t[id]))
    && (forall a, b :: a in t && b in t && a != b ==> NoClash(t[a], t[b]))
  }

  /** Stored values contain no white space. */
  lemma StoredIsTrimmed(r: Record)
    requires WellFormed(r)
    ensures TrimSpace(r.hash.token) == r.hash.token
  {
    var token := r.hash.token;
    forall i | 0 <= i < |token| ensures !IsSpace(token[i]) {
      if r.kind == Generated && i >= |PUBLIC_PREFIX| {
        assert token[i] == SecretOfKey(token)[i - |PUBLIC_PREFIX|];
      }
    }
    TrimNoSpace(token);
  }

  /** A generated key is reached through an alias exactly by its compatible spelling. */
  lemma AliasOfCompatible(secret: string)
    requires ValidSecret(secret)
    ensures GeneratedAlias(CompatibleKey(secret)) == Some(GeneratedKey(secret))
  {
    var k := CompatibleKey(secret);
    assert k[|COMPATIBLE_PREFIX|..] == secret;
    forall i | 0 <= i < |k| ensures !IsSpace(k[i]) {
      if i >= |COMPATIBLE_PREFIX| { assert k[i] == secret[i - |COMPATIBLE_PREFIX|]; }
    }
    TrimNoSpace(k);
  }

  /** A custom key and the agent's row are reached by their own text only; a generated key by its public spelling and,
      with or without surrounding white space, by its compatible one; neither by anything else. */
  lemma SpellingsReach(r: Record, presented: string)
    requires WellFormed(r)
    ensures r.kind != Generated ==> (Matches(r, presented) <==> presented == r.hash.token)
    ensures r.kind == Generated ==>
              (Matches(r, presented) <==>
                 presented == r.hash.token || TrimSpace(presented) == CompatibleKey(SecretOfKey(r.hash.token)))
  {
    if r.kind == Generated {
      var secret := SecretOfKey(r.hash.token);
      var k := CompatibleKey(secret);
      assert r.hash.token == GeneratedKey(secret);
      assert k[|COMPATIBLE_PREFIX|..] == secret;
      if ByAlias(r, presented) {
        var p := TrimSpace(presented);
        var other := p[|COMPATIBLE_PREFIX|..];
        assert GeneratedKey(other)[|PUBLIC_PREFIX|..] == other;
        assert p == CompatibleKey(other);
      }
    }
  }

  /** A string that is stored as such is nobody's alias. */
  lemma DirectExcludesAlias(t: Table, a: KeyId, b: KeyId, presented: string)
    requires Inv(t) && a in t && b in t && Direct(t[a], presented)
    ensures !ByAlias(t[b], presented)
  {
    StoredIsTrimmed(t[a]);
    if GeneratedAlias(presented).Some? {
      var secret := presented[|COMPATIBLE_PREFIX|..];
      assert presented == CompatibleKey(secret);
      assert SecretOfKey(GeneratedKey(secret)) == secret;
      assert GeneratedKey(secret)[0] != CompatibleKey(secret)[0];
    }
  }

  lemma InvIsUnambiguous(t: Table)
    requires Inv(t)
    ensures Unambiguous(t)
  {
    forall presented: string, a: KeyId, b: KeyId |
      a in t && b in t && Matches(t[a], presented) && Matches(t[b], presented)
      ensures a == b
    {
      if Direct(t[a], presented) { DirectExcludesAlias(t, a, b, presented); }
      if Direct(t[b], presented) { DirectExcludesAlias(t, b, a, presented); }
      assert t[a].hash == t[b].hash;
    }
  }

  // ----- Which values are chosen -----

  /** A custom key is accepted exactly when it is a nonempty string of letters, digits and hyphens
      that no stored key answers to, under either spelling. */
  lemma CustomIsChosenIff(t: Table, key: string, draws: Draws)
    requires key != ""
    ensures Choose(t, key, draws) == Chosen(key, Custom) <==>
            && (forall i :: 0 <= i < |key| ==>
                  'a' <= key[i] <= 'z' || 'A' <= key[i] <= 'Z' || '0' <= key[i] <= '9' || key[i] == '-')
            && Unknown(t, key)
    ensures Choose(t, key, draws).Chosen? ==> Choose(t, key, draws) == Chosen(key, Custom)
  {
    if Unknown(t, key) {
      assert forall id :: id in t ==> !Direct(t[id], key) && !ByAlias(t[id], key);
    }
    if ValidCustomKey(key) && Taken(t, key) {
      var id :| id in t && t[id].hash == Sha256(key);
      assert Direct(t[id], key);
    } else if GeneratedAlias(key).Some? && TakenByGenerated(t, GeneratedAlias(key).value) {
      var id :| id in t && t[id].kind == Generated && t[id].hash == Sha256(GeneratedAlias(key).value);
      assert ByAlias(t[id], key);
    }
  }

  /** No stored key has either spelling of the secret. */
  predicate SecretIsFree(t: Table, secret: string) {
    forall id :: id in t ==> t[id].hash.token != "xlyra-" + secret && t[id].hash.token != "sk-" + secret
  }

  /** A generated key is made of the first draw whose secret is free, among ten; a draw that
      cannot be read before that ends the search. */
  lemma {:induction false} FirstFreeDraw(t: Table, draws: Draws, from: nat, i: nat)
    requires from <= i < 10
    requires forall j :: from <= j < i ==> draws[j].Indices? && !SecretIsFree(t, SecretOf(draws[j].at))
    ensures draws[i].Unreadable? ==> ChooseGenerated(t, draws, from) == Refused(RandomUnreadable)
    ensures draws[i].Indices? && SecretIsFree(t, SecretOf(draws[i].at)) ==>
              ChooseGenerated(t, draws, from) == Chosen("xlyra-" + SecretOf(draws[i].at), Generated)
    decreases i - from
  {
    if from < i {
      FreeIsFree(t, SecretOf(draws[from].at));
      FirstFreeDraw(t, draws, from + 1, i);
    } else if draws[i].Indices? {
      FreeIsFree(t, SecretOf(draws[i].at));
    }
  }

  lemma FreeIsFree(t: Table, secret: string)
    ensures Free(t, secret) <==> SecretIsFree(t, secret)
  {
    forall id | id in t ensures t[id].hash == Sha256(t[id].hash.token) {}
    forall key ensures Taken(t, key) <==> exists id :: id in t && t[id].hash.token == key {}
  }

  lemma {:induction false} NoFreeDraw(t: Table, draws: Draws, from: nat)
    requires from <= 10
    requires forall j :: from <= j < 10 ==> draws[j].Indices? && !SecretIsFree(t, SecretOf(draws[j].at))
    ensures ChooseGenerated(t, draws, from) == Refused(TooManyCollisions)
    decreases 10 - from
  {
    if from < 10 {
      FreeIsFree(t, SecretOf(draws[from].at));
      NoFreeDraw(t, draws, from + 1);
    }
  }

  // ----- Every operation keeps the invariant -----

  lemma CustomChoiceFits(t: Table, key: string, other: KeyId)
    requires Inv(t) && other in t && ChooseCustom(t, key).Chosen?
    ensures key != t[other].hash.token
    ensures t[other].kind == Generated ==> key != CompatibleKey(SecretOfKey(t[other].hash.token))
  {
    if t[other].kind == Generated {
      var secret := SecretOfKey(t[other].hash.token);
      AliasOfCompatible(secret);
      assert GeneratedKey(secret) == t[other].hash.token;
    }
  }

  lemma {:induction false} GeneratedChoice(t: Table, draws: Draws, from: nat) returns (secret: string)
    requires from <= ATTEMPTS && ChooseGenerated(t, draws, from).Chosen?
    ensures ChooseGenerated(t, draws, from) == Chosen(GeneratedKey(secret), Generated)
    ensures ValidSecret(secret) && Free(t, secret)
    decreases ATTEMPTS - from
  {
    var at := draws[from].at;
    if Free(t, SecretOf(at)) {
      DrawnSecretIsValid(at);
      secret := SecretOf(at);
    } else {
      secret := GeneratedChoice(t, draws, from + 1);
    }
  }

  /** A chosen value clashes with no stored one, in either direction. */
  lemma ChoiceFits(t: Table, customKey: string, draws: Draws, r: Record)
    requires Inv(t) && Choose(t, customKey, draws).Chosen?
    requires r.kind == Choose(t, customKey, draws).kind && r.hash == Sha256(Choose(t, customKey, draws).key)
    ensures WellFormed(r)
    ensures forall id :: id in t ==> NoClash(t[id], r) && NoClash(r, t[id])
  {
    if customKey != "" {
      forall id | id in t ensures NoClash(t[id], r) && NoClash(r, t[id]) {
        CustomChoiceFits(t, customKey, id);
      }
    } else {
      var secret := GeneratedChoice(t, draws, 0);
      assert SecretOfKey(GeneratedKey(secret)) == secret;
      forall id | id in t ensures NoClash(t[id], r) && NoClash(r, t[id]) {
        assert t[id].hash.token != GeneratedKey(secret) && t[id].hash.token != CompatibleKey(secret);
        assert t[id].kind == Generated ==> GeneratedKey(secret)[0] != CompatibleKey(SecretOfKey(t[id].hash.token))[0];
      }
    }
  }

  lemma PutKeepsInv(t: Table, id: KeyId, r: Record)
    requires Inv(t) && WellFormed(r)
    requires forall k :: k in t && k != id ==> NoClash(t[k], r) && NoClash(r, t[k])
    ensures Inv(t[id := r])
  {
  }

  lemma AmendKeepsInv(t: Table, id: KeyId, r: Record)
    requires Inv(t) && id in t && r.kind == t[id].kind && r.hash == t[id].hash
    ensures Inv(t[id := r])
  {
    forall k | k in t && k != id ensures NoClash(t[k], r) && NoClash(r, t[k]) {
      assert NoClash(t[k], t[id]) && NoClash(t[id], t[k]);
    }
    PutKeepsInv(t, id, r);
  }

  lemma OpKeepsInv(t: Table, op: Op)
    requires Inv(t)
    ensures Inv(Apply(t, op))
  {
    match op
    case Create(id, customKey, draws, expiresAt) =>
      var choice := Choose(t, customKey, draws);
      if choice.Chosen? && id !in t {
        var r := Record(choice.kind, Sha256(choice.key), true, expiresAt, false);
        ChoiceFits(t, customKey, draws, r);
        PutKeepsInv(t, id, r);
      }
    case Rotate(id, draws) =>
      var choice := Choose(t, "", draws);
      if choice.Chosen? && id in t {
        var r := t[id].(kind := choice.kind, hash := Sha256(choice.key));
        ChoiceFits(t, "", draws, r);
        PutKeepsInv(t, id, r);
      }
    case Delete(id) =>
    case Amend(id, active, expiresAt, quotaSpent) =>
      if id in t { AmendKeepsInv(t, id, t[id].(active := active, expiresAt := expiresAt, quotaSpent := quotaSpent)); }
    case EnsureAgent(id) => AgentKeepsInv(t, id);
  }

  /** After every run of creations, rotations, deletions and amendments, a presented string
      matches at most one stored key, directly or through its alias. */
  lemma {:induction false} RunsStayUnambiguous(ops: seq<Op>)
    ensures Inv(Run(ops)) && Unambiguous(Run(ops))
  {
    if ops != [] {
      RunsStayUnambiguous(ops[..|ops| - 1]);
      OpKeepsInv(Run(ops[..|ops| - 1]), ops[|ops| - 1]);
    }
    InvIsUnambiguous(Run(ops));
  }

  // ----- The agent's row -----

  /** The agent's text is no spelling of a generated key. */
  lemma AgentKeyIsNotGenerated(r: Record)
    requires WellFormed(r) && r.kind == Generated
    ensures r.hash.token != AGENT_KEY && CompatibleKey(SecretOfKey(r.hash.token)) != AGENT_KEY
  {
    assert r.hash.token[1] == PUBLIC_PREFIX[1] && AGENT_KEY[1] != PUBLIC_PREFIX[1];
    assert CompatibleKey(SecretOfKey(r.hash.token))[0] == COMPATIBLE_PREFIX[0];
  }

  lemma OnlyOneAgent(t: Table, a: KeyId, b: KeyId)
    requires Inv(t) && a in t && b in t && t[a].kind == t[b].kind == AgentInternal
    ensures a == b
  {
    assert t[a].hash == t[b].hash;
  }

  /** Under the invariant there is one row to activate. */
  lemma AgentIsActivated(t: Table, id: KeyId, a: KeyId)
    requires Inv(t) && a in t && t[a].kind == AgentInternal
    ensures Apply(t, EnsureAgent(id)) == t[a := t[a].(active := true)]
  {
    forall b | b in t && t[b].kind == AgentInternal ensures a == b { OnlyOneAgent(t, a, b); }
  }

  lemma AgentKeepsInv(t: Table, id: KeyId)
    requires Inv(t)
    ensures Inv(Apply(t, EnsureAgent(id)))
  {
    if HasAgent(t) {
      var a :| a in t && t[a].kind == AgentInternal;
      AgentIsActivated(t, id, a);
      AmendKeepsInv(t, a, t[a].(active := true));
    } else if id !in t && !Taken(t, AGENT_KEY) {
      forall k | k in t ensures NoClash(t[k], AGENT_ROW) && NoClash(AGENT_ROW, t[k]) {
        if t[k].kind == Generated { AgentKeyIsNotGenerated(t[k]); }
      }
      PutKeepsInv(t, id, AGENT_ROW);
    }
  }

  /** Some administrator chose the agent's text as a custom key. */
  predicate NameIsCustom(t: Table) {
    exists id :: id in t && t[id].kind == Custom && t[id].hash == Sha256(AGENT_KEY)
  }

  /** The agent's row leaves no room for a custom key with its text. */
  lemma AgentHasTheName(t: Table, a: KeyId)
    requires Inv(t) && a in t && t[a].kind == AgentInternal
    ensures !NameIsCustom(t)
  {
    forall c | c in t && t[c].hash == t[a].hash ensures c == a {}
  }

  /** Without an agent's row, only a custom key can have its text. */
  lemma NameIsTakenByCustom(t: Table)
    requires Inv(t) && !HasAgent(t) && Taken(t, AGENT_KEY)
    ensures NameIsCustom(t)
  {
    var c :| c in t && t[c].hash == Sha256(AGENT_KEY);
    if t[c].kind == Generated { AgentKeyIsNotGenerated(t[c]); }
  }

  /** The agent gets its row if and only if no custom key has its text; in either case the text
      matches a stored key afterwards. */
  lemma AgentIsEnsuredIff(t: Table, id: KeyId)
    requires Inv(t) && id !in t
    ensures HasAgent(Apply(t, EnsureAgent(id))) <==> !NameIsCustom(t)
    ensures !Unknown(Apply(t, EnsureAgent(id)), AGENT_KEY)
  {
    if HasAgent(t) {
      var a :| a in t && t[a].kind == AgentInternal;
      AgentIsActivated(t, id, a);
      AgentHasTheName(t, a);
      assert Direct(Apply(t, EnsureAgent(id))[a], AGENT_KEY);
    } else if Taken(t, AGENT_KEY) {
      NameIsTakenByCustom(t);
      var c :| c in t && t[c].hash == Sha256(AGENT_KEY);
      assert Direct(Apply(t, EnsureAgent(id))[c], AGENT_KEY);
    } else {
      assert Direct(Apply(t, EnsureAgent(id))[id], AGENT_KEY);
    }
  }

  /** Once the agent has a new row, its text resolves to that row, at any time. */
  lemma AgentTextResolves(t: Table, id: KeyId, now: int, l: Lookup)
    requires Inv(t) && id !in t && !HasAgent(t) && !NameIsCustom(t)
    requires Resolves(Apply(t, EnsureAgent(id)), AGENT_KEY, now, l)
    ensures l == Found(id)
  {
    if Taken(t, AGENT_KEY) { NameIsTakenByCustom(t); }
    assert Apply(t, EnsureAgent(id))[id] == AGENT_ROW;
  }

  /** A custom key with the agent's text, created first, keeps the agent out. */
  lemma CustomKeyBlocksAgent(draws: Draws)
    ensures !HasAgent(Run([Create(0, AGENT_KEY, draws, None), EnsureAgent(1)]))
  {
    var ops := [Create(0, AGENT_KEY, draws, None), EnsureAgent(1)];
    var r := Record(Custom, Sha256(AGENT_KEY), true, None, false);
    assert ops[..1] == [ops[0]] && [ops[0]][..0] == [];
    assert ValidCustomKey(AGENT_KEY);
    var t := map[0 := r];
    assert Run([ops[0]]) == t;
    assert 0 in t && t[0].hash == Sha256(AGENT_KEY);
  }

  // ----- Rotation and deletion retire the old spellings -----

  predicate Unknown(t: Table, presented: string) {
    forall id :: id in t ==> !Matches(t[id], presented)
  }

  /** The operation takes the value of its row out of use. */
  predicate Retires(t: Table, op: Op) {
    match op
    case Rotate(id, draws) => id in t && t[id].kind != Custom && Choose(t, "", draws).Chosen?
    case Delete(id) => id in t
    case _ => false
  }

  /** The new value of a rotated row shares no string with the old one. */
  lemma RotationRetires(t: Table, id: KeyId, draws: Draws, presented: string)
    requires Inv(t) && Retires(t, Rotate(id, draws)) && Matches(t[id], presented)
    ensures !Matches(Apply(t, Rotate(id, draws))[id], presented)
  {
    var choice := Choose(t, "", draws);
    var r := t[id].(kind := choice.kind, hash := Sha256(choice.key));
    ChoiceFits(t, "", draws, r);
    var secret := GeneratedChoice(t, draws, 0);
    RotatedDiffers(t[id], r, presented);
  }

  /** Once a row is rotated or deleted, every string that matched it matches nothing. */
  lemma RetiredStringsMatchNothing(t: Table, op: Op, presented: string)
    requires Inv(t) && Retires(t, op) && Matches(t[op.id], presented)
    ensures Unknown(Apply(t, op), presented)
  {
    InvIsUnambiguous(t);
    if op.Rotate? { RotationRetires(t, op.id, op.draws, presented); }
    forall id | id in Apply(t, op) ensures !Matches(Apply(t, op)[id], presented) {
      if id != op.id { assert Apply(t, op)[id] == t[id]; }
    }
  }

  /** Two well-formed records without a clash share no string. */
  lemma RotatedDiffers(before: Record, after: Record, presented: string)
    requires WellFormed(before) && WellFormed(after)
    requires NoClash(before, after) && NoClash(after, before)
    requires Matches(before, presented)
    ensures !Matches(after, presented)
  {
    var pair := map[0 := before, 1 := after];
    assert Inv(pair);
    InvIsUnambiguous(pair);
    assert pair[0] == before && pair[1] == after;
  }

  // ----- Resolving a presented string -----

  datatype Lookup = NotFound | QuotaExceeded | Found(id: KeyId)

  predicate Usable(r: Record, now: int) {
    r.active && (r.expiresAt.Some? ==> r.expiresAt.value > now)
  }

  /** The one record a presented string matches answers for it, usable or not. */
  ghost predicate Resolves(t: Table, key: string, now: int, l: Lookup) {
    && (l.Found? ==> l.id in t && Matches(t[l.id], key) && Usable(t[l.id], now) && !t[l.id].quotaSpent)
    && (forall id :: id in t && Matches(t[id], key) && key != "" ==>
          l == if !Usable(t[id], now) then NotFound else if t[id].quotaSpent then QuotaExceeded else Found(id))
    && (key == "" || Unknown(t, key) ==> l == NotFound)
  }

  /** A row answers for a string it matches: refused unless active and before its expiry, then
      refused when its quota is spent, found otherwise. */
  lemma RowAnswers(t: Table, id: KeyId, key: string, now: int, l: Lookup)
    requires id in t && key != "" && Matches(t[id], key) && Resolves(t, key, now, l)
    ensures !t[id].active ==> l == NotFound
    ensures t[id].expiresAt.Some? && t[id].expiresAt.value <= now ==> l == NotFound
    ensures t[id].active && (t[id].expiresAt.None? || now < t[id].expiresAt.value) ==>
              l == if t[id].quotaSpent then QuotaExceeded else Found(id)
  {
  }

  lemma ChosenIsNotEmpty(t: Table, customKey: string, draws: Draws)
    requires Choose(t, customKey, draws).Chosen?
    ensures Choose(t, customKey, draws).key != ""
  {
    if customKey == "" { var secret := GeneratedChoice(t, draws, 0); }
  }

  /** A created key works at once and until its expiry, and not after it. */
  lemma CreatedKeyResolves(t: Table, id: KeyId, customKey: string, draws: Draws, expiresAt: Option<int>, now: int,
                           l: Lookup)
    requires id !in t && Choose(t, customKey, draws).Chosen?
    requires Resolves(Apply(t, Create(id, customKey, draws, expiresAt)), Choose(t, customKey, draws).key, now, l)
    ensures l == if expiresAt.Some? && expiresAt.value <= now then NotFound else Found(id)
  {
    var t', key := Apply(t, Create(id, customKey, draws, expiresAt)), Choose(t, customKey, draws).key;
    ChosenIsNotEmpty(t, customKey, draws);
    assert Direct(t'[id], key) && t'[id].active && t'[id].expiresAt == expiresAt && !t'[id].quotaSpent;
    RowAnswers(t', id, key, now, l);
  }

  /** A rotated row answers to its new key exactly as the old row answered to its own. */
  lemma RotatedKeyResolves(t: Table, id: KeyId, draws: Draws, now: int, before: Lookup, after: Lookup)
    requires id in t && t[id].kind != Custom && t[id].hash.token != "" && Choose(t, "", draws).Chosen?
    requires Resolves(t, t[id].hash.token, now, before)
    requires Resolves(Apply(t, Rotate(id, draws)), Choose(t, "", draws).key, now, after)
    ensures after == before
  {
    var t', key := Apply(t, Rotate(id, draws)), Choose(t, "", draws).key;
    ChosenIsNotEmpty(t, "", draws);
    assert Direct(t[id], t[id].hash.token) && Direct(t'[id], key);
    RowAnswers(t, id, t[id].hash.token, now, before);
    RowAnswers(t', id, key, now, after);
  }

  /** Deactivating, expiring and spending show at once, and touch no other row. */
  lemma AmendedKeyResolves(t: Table, id: KeyId, active: bool, expiresAt: Option<int>, spent: bool, now: int, l: Lookup)
    requires id in t && t[id].hash.token != ""
    requires Resolves(Apply(t, Amend(id, active, expiresAt, spent)), t[id].hash.token, now, l)
    ensures l == if !active || (expiresAt.Some? && expiresAt.value <= now) then NotFound
                 else if spent then QuotaExceeded else Found(id)
    ensures var t' := Apply(t, Amend(id, active, expiresAt, spent));
            forall other :: other in t && other != id ==> other in t' && t'[other] == t[other]
  {
    var t' := Apply(t, Amend(id, active, expiresAt, spent));
    assert Direct(t'[id], t[id].hash.token);
    RowAnswers(t', id, t[id].hash.token, now, l);
  }

  // ----- The service -----

  class Service {
    var table: Table

    constructor ()
      ensures table == map[]
    {
      table := map[];
    }

    method ExistsByHash(hash: Digest) returns (b: bool)
      ensures b == Taken(table, hash.token)
    {
      b := exists id :: id in table && table[id].hash == hash;
    }

    method ExistsGeneratedByHash(hash: Digest) returns (b: bool)
      ensures b == TakenByGenerated(table, hash.token)
    {
      b := exists id :: id in table && table[id].kind == Generated && table[id].hash == hash;
    }

    method CreateGatewayAPIKeyValue(customKey: string, draws: Draws) returns (c: Choice)
      ensures c == Choose(table, customKey, draws)
    {
      if customKey != "" {
        var ok := CheckCustomKey(customKey);
        if !ok { return Refused(Malformed); }
        var taken := ExistsByHash(Sha256(customKey));
        if taken { return Refused(AlreadyExists); }
        var alias := Alias(customKey);
        if alias.Some? {
          var clash := ExistsGeneratedByHash(Sha256(alias.value));
          if clash { return Refused(ConflictsWithAlias); }
        }
        return Chosen(customKey, Custom);
      }
      for attempts := 0 to ATTEMPTS
        invariant ChooseGenerated(table, draws, 0) == ChooseGenerated(table, draws, attempts)
      {
        if draws[attempts].Unreadable? { return Refused(RandomUnreadable); }
        var key := NewGatewayKey(draws[attempts].at);
        var secret := key[|PUBLIC_PREFIX|..];
        assert secret == SecretOf(draws[attempts].at);
        var taken := ExistsByHash(Sha256(key));
        if taken { continue; }
        taken := ExistsByHash(Sha256(COMPATIBLE_PREFIX + secret));
        if taken { continue; }
        return Chosen(key, Generated);
      }
      return Refused(TooManyCollisions);
    }

    method CreateAPIKey(id: KeyId, customKey: string, draws: Draws, expiresAt: Option<int>) returns (c: Choice)
      requires id !in table
      modifies this
      ensures table == Apply(old(table), Create(id, customKey, draws, expiresAt))
      ensures c == Choose(old(table), customKey, draws)
    {
      c := CreateGatewayAPIKeyValue(customKey, draws);
      if c.Chosen? {
        table := table[id := Record(c.kind, Sha256(c.key), true, expiresAt, false)];
      }
    }

    method RotateAPIKey(id: KeyId, draws: Draws) returns (c: Option<Choice>)
      modifies this
      ensures table == Apply(old(table), Rotate(id, draws))
      ensures c == if id !in old(table) || old(table)[id].kind == Custom then None
                   else Some(Choose(old(table), "", draws))
    {
      if id !in table { return None; }
      if table[id].kind == Custom { return None; }
      var choice := CreateGatewayAPIKeyValue("", draws);
      if choice.Chosen? {
        table := table[id := table[id].(kind := choice.kind, hash := Sha256(choice.key))];
      }
      return Some(choice);
    }

    method DeleteAPIKey(id: KeyId)
      modifies this
      ensures table == Apply(old(table), Delete(id))
    {
      table := table - {id};
    }

    /** Finds the agent's row and makes it active, or inserts it. */
    method EnsureInternalAPIKey(id: KeyId) returns (r: Option<KeyId>)
      requires Inv(table) && id !in table
      modifies this
      ensures table == Apply(old(table), EnsureAgent(id)) && Inv(table)
      ensures r.None? <==> NameIsCustom(old(table))
      ensures r.Some? ==> r.value in table && table[r.value].kind == AgentInternal && table[r.value].active
    {
      AgentKeepsInv(table, id);
      if exists a :: a in table && table[a].kind == AgentInternal {
        var a :| a in table && table[a].kind == AgentInternal;
        AgentIsActivated(table, id, a);
        AgentHasTheName(table, a);
        table := table[a := table[a].(active := true)];
        return Some(a);
      }
      var taken := ExistsByHash(Sha256(AGENT_KEY));
      if taken {
        NameIsTakenByCustom(table);
        return None;
      }
      table := table[id := AGENT_ROW];
      return Some(id);
    }

    /** The first row with this hash (and kind, when asked for), if it is usable. */
    method LookupActive(hash: Digest, generatedOnly: bool, requireQuota: bool, now: int) returns (l: Lookup)
      ensures l.NotFound? ==>
                (forall id :: id in table ==> table[id].hash != hash || (generatedOnly && table[id].kind != Generated))
                || (exists id :: id in table && table[id].hash == hash
                              && (generatedOnly ==> table[id].kind == Generated) && !Usable(table[id], now))
      ensures l.QuotaExceeded? ==>
                && requireQuota
                && exists id :: id in table && table[id].hash == hash && (generatedOnly ==> table[id].kind == Generated)
                      && Usable(table[id], now) && table[id].quotaSpent
      ensures l.Found? ==>
                && l.id in table && table[l.id].hash == hash && (generatedOnly ==> table[l.id].kind == Generated)
                && Usable(table[l.id], now) && (requireQuota ==> !table[l.id].quotaSpent)
    {
      if !(exists id :: id in table && table[id].hash == hash && (generatedOnly ==> table[id].kind == Generated)) {
        return NotFound;
      }
      var id :| id in table && table[id].hash == hash && (generatedOnly ==> table[id].kind == Generated);
      if !Usable(table[id], now) { return NotFound; }
      if requireQuota && table[id].quotaSpent { return QuotaExceeded; }
      return Found(id);
    }

    /** Resolves a presented string exactly to the one record it matches, and only when that
        record is usable: an unusable direct match never falls through to another record. */
    method ValidateAPIKey(key: string, now: int) returns (l: Lookup)
      requires Inv(table)
      ensures Resolves(table, key, now, l)
    {
      if key == "" { return NotFound; }
      InvIsUnambiguous(table);
      l := LookupActive(Sha256(key), false, true, now);
      if l.Found? || l.QuotaExceeded? { return l; }
      var alias := Alias(key);
      if alias.Some? {
        l := LookupActive(Sha256(alias.value), true, true, now);
        if l.Found? || l.QuotaExceeded? { return l; }
      }
      return NotFound;
    }

    /** As `ValidateAPIKey`, but indifferent to quotas. */
    method ValidateAPIKeyIdentity(key: string, now: int) returns (l: Lookup)
      requires Inv(table)
      ensures l.Found? ==> key != "" && l.id in table && Matches(table[l.id], key) && Usable(table[l.id], now)
      ensures forall id :: id in table && Matches(table[id], key) && key != "" ==>
                l == if Usable(table[id], now) then Found(id) else NotFound
      ensures key == "" || Unknown(table, key) ==> l == NotFound
    {
      if key == "" { return NotFound; }
      InvIsUnambiguous(table);
      l := LookupActive(Sha256(key), false, false, now);
      if l.Found? { return l; }
      var alias := Alias(key);
      if alias.Some? {
        l := LookupActive(Sha256(alias.value), true, false, now);
        if l.Found? { return l; }
      }
      return NotFound;
    }
  }
}
