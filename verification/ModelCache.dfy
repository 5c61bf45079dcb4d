/** The conditional-request cache of upstream model lists, as values: what is cached, what is
    answered, and that every answer is the server's current list. */
module ModelCache {
  import opened Common

  /** Only sites of the adapter's own type reach it, so a site is its base URL. */
  datatype Site = Site(baseUrl: string)

  datatype Value = Text(text: string) | Endpoints(types: seq<string>) | Metadata(entries: map<string, string>)

  /** One element of the decoded payload. */
  datatype Item = Item(id: string, kind: string, ownedBy: string, metadata: map<string, string>)

  /** A model as a value; `None` stands for a missing capability map. */
  datatype ModelValue = ModelValue(upstreamName: string, displayName: string, capabilities: Option<map<string, Value>>)

  /** The endpoint types inferred for a model name; of the base URL only the path matters, which
      is read without its trailing slashes. */
  type Inference = (string, string) -> seq<string>

  function TrimSlashes(s: string): string {
    if s != "" && s[|s| - 1] == '/' then TrimSlashes(s[..|s| - 1]) else s
  }

  function Base(site: Site): string {
    TrimSlashes(site.baseUrl)
  }

  function CapabilitiesOf(infer: Inference, site: Site, item: Item): map<string, Value> {
    var base := map["object" := Text(item.kind), "supported_endpoint_types" := Endpoints(infer(item.id, Base(site)))];
    var owned := if item.ownedBy != "" then base["owned_by" := Text(item.ownedBy)] else base;
    if |item.metadata| > 0 then owned["metadata" := Metadata(item.metadata)] else owned
  }

  function ModelOf(infer: Inference, site: Site, item: Item): ModelValue {
    ModelValue(item.id, item.id, Some(CapabilitiesOf(infer, site, item)))
  }

  /** An item with a blank identifier gives no model. */
  function ModelIn(infer: Inference, site: Site): Item -> Option<ModelValue> {
    (item: Item) => if TrimSpace(item.id) == "" then None else Some(ModelOf(infer, site, item))
  }

  /** The models of a payload. */
  function Parse(infer: Inference, site: Site, body: seq<Item>): seq<ModelValue> {
    Present(ModelIn(infer, site), body)
  }

  // ----- The cache -----

  datatype Cached = Cached(etag: string, models: seq<ModelValue>)

  type View = map<string, Cached>

  /** The digest of this text is the cache key; the digest is taken to be injective. */
  function CacheKey(site: Site, apiKey: string): string {
    Base(site) + "\n" + TrimSpace(apiKey)
  }

  /** No request can be made to a URL with a line break. */
  predicate Requestable(site: Site) {
    '\n' !in Base(site)
  }

  /** Requestable sites that share a cache key have the same base URL. */
  lemma KeyTellsSite(s: Site, a: string, t: Site, b: string)
    requires Requestable(s) && Requestable(t) && CacheKey(s, a) == CacheKey(t, b)
    ensures Base(s) == Base(t) && TrimSpace(a) == TrimSpace(b)
  {
    var x, y, k := Base(s), Base(t), CacheKey(s, a);
    assert k[|x|] == '\n' && k[|y|] == '\n';
    assert forall i :: 0 <= i < |x| ==> k[i] == x[i];
    assert forall i :: 0 <= i < |y| ==> k[i] == y[i];
    assert |x| == |y|;
    assert x == k[..|x|] == y;
    assert TrimSpace(a) == k[|x| + 1..] == TrimSpace(b);
  }

  /** What the If-None-Match header carries. */
  function Condition(view: View, key: string): Option<string> {
    if key in view && view[key].etag != "" then Some(view[key].etag) else None
  }

  /** `body` is absent when it does not decode. */
  datatype Response = Unreachable | Response(status: int, etag: string, body: Option<seq<Item>>)

  datatype Failure = CallFailed | NothingCached | HttpError(status: int) | DecodeFailed

  datatype Result<T> = Ok(value: T) | Error(failure: Failure)

  function Succeeded(status: int): bool {
    200 <= status < 300
  }

  function Answer(infer: Inference, view: View, site: Site, apiKey: string, r: Response): Result<seq<ModelValue>> {
    if !Requestable(site) || r.Unreachable? then Error(CallFailed)
    else if r.status == 304 then
      if CacheKey(site, apiKey) in view then Ok(view[CacheKey(site, apiKey)].models) else Error(NothingCached)
    else if !Succeeded(r.status) then Error(HttpError(r.status))
    else if r.body.None? then Error(DecodeFailed)
    else Ok(Parse(infer, site, r.body.value))
  }

  function Stored(infer: Inference, view: View, site: Site, apiKey: string, r: Response): View {
    if Requestable(site) && r.Response? && Succeeded(r.status) && r.body.Some? && TrimSpace(r.etag) != ""
    then view[CacheKey(site, apiKey) := Cached(TrimSpace(r.etag), Parse(infer, site, r.body.value))]
    else view
  }

  // ----- Runs -----

  /** One call: the representation current at the server, and how the server answers each
      possible condition. */
  datatype Call = Call(site: Site, apiKey: string, etag: string, body: seq<Item>, respond: Option<string> -> Response)

  function KeyOf(c: Call): string {
    CacheKey(c.site, c.apiKey)
  }

  /** The entity tag without its weakness indicator. */
  function Opaque(tag: string): string {
    if "W/" <= tag then tag[2..] else tag
  }

  /** Weak comparison, section 8.8.3.2 of RFC 9110. */
  predicate SameTag(a: string, b: string) {
    Opaque(a) == Opaque(b)
  }

  /** Sections 13.1.2 and 15.4.5 of RFC 9110: 304 only when the condition names the current entity
      tag, compared weakly. A success carries the current representation, and its entity tag or
      none. */
  ghost predicate HonestResponse(c: Call, condition: Option<string>, r: Response) {
    r.Response? ==>
      && (r.status == 304 ==> condition.Some? && TrimSpace(c.etag) != "" && SameTag(condition.value, TrimSpace(c.etag)))
      && (Succeeded(r.status) ==>
            && (r.body.Some? ==> r.body.value == c.body)
            && (TrimSpace(r.etag) != "" ==> TrimSpace(c.etag) != "" && SameTag(TrimSpace(r.etag), TrimSpace(c.etag))))
  }

  ghost predicate Honest(c: Call) {
    forall condition :: HonestResponse(c, condition, c.respond(condition))
  }

  /** Under one cache key, matching entity tags mean equal representations. */
  ghost predicate Agree(c: Call, d: Call) {
    var tag, tag' := TrimSpace(c.etag), TrimSpace(d.etag);
    KeyOf(c) == KeyOf(d) && tag != "" && tag' != "" && SameTag(tag, tag') ==> c.body == d.body
  }

  ghost predicate Trustworthy(calls: seq<Call>) {
    && (forall i :: 0 <= i < |calls| ==> Honest(calls[i]))
    && (forall i, j :: 0 <= i < j < |calls| ==> Agree(calls[i], calls[j]))
  }

  function ResponseTo(view: View, c: Call): Response {
    c.respond(Condition(view, KeyOf(c)))
  }

  function After(infer: Inference, calls: seq<Call>): View {
    if calls == [] then map[]
    else
      var view, last := After(infer, calls[..|calls| - 1]), calls[|calls| - 1];
      Stored(infer, view, last.site, last.apiKey, ResponseTo(view, last))
  }

  /** The answer of call `i` of a run that starts with an empty cache. */
  function AnswerAt(infer: Inference, calls: seq<Call>, i: nat): Result<seq<ModelValue>>
    requires i < |calls|
  {
    var view := After(infer, calls[..i]);
    Answer(infer, view, calls[i].site, calls[i].apiKey, ResponseTo(view, calls[i]))
  }

  lemma ParseAlike(infer: Inference, s: Site, t: Site, body: seq<Item>)
    requires Base(s) == Base(t)
    ensures Parse(infer, s, body) == Parse(infer, t, body)
  {
    PresentCongruent(ModelIn(infer, s), ModelIn(infer, t), body);
  }

  /** Entry `k` was stored by call `i`. */
  ghost predicate StoredBy(infer: Inference, calls: seq<Call>, i: int, k: string, entry: Cached) {
    && 0 <= i < |calls| && KeyOf(calls[i]) == k
    && Requestable(calls[i].site) && TrimSpace(calls[i].etag) != "" && SameTag(entry.etag, TrimSpace(calls[i].etag))
    && entry.models == Parse(infer, calls[i].site, calls[i].body)
  }

  /** Every cached entry is the parse of a representation served under its entity tag. */
  lemma {:induction false} EntriesWereServed(infer: Inference, calls: seq<Call>, k: string)
    requires forall i :: 0 <= i < |calls| ==> Honest(calls[i])
    requires k in After(infer, calls)
    ensures exists i :: StoredBy(infer, calls, i, k, After(infer, calls)[k])
  {
    var init, last := calls[..|calls| - 1], calls[|calls| - 1];
    var view := After(infer, init);
    var r := ResponseTo(view, last);
    assert HonestResponse(last, Condition(view, KeyOf(last)), r);
    if k == KeyOf(last) && After(infer, calls) != view {
      assert StoredBy(infer, calls, |calls| - 1, k, After(infer, calls)[k]);
    } else {
      EntriesWereServed(infer, init, k);
      var i :| StoredBy(infer, init, i, k, view[k]);
      assert StoredBy(infer, calls, i, k, After(infer, calls)[k]);
    }
  }

  ghost predicate Usable(c: Call, r: Response) {
    Requestable(c.site) && r.Response? && (r.status == 304 || (Succeeded(r.status) && r.body.Some?))
  }

  /** In every run, a requestable call is answered exactly when the server says 304 or sends a readable
      success, and the answer is then the parse of the server's current representation. */
  lemma RunsAnswerTheCurrentList(infer: Inference, calls: seq<Call>, i: nat)
    requires Trustworthy(calls) && i < |calls|
    ensures AnswerAt(infer, calls, i).Ok? <==> Usable(calls[i], ResponseTo(After(infer, calls[..i]), calls[i]))
    ensures AnswerAt(infer, calls, i).Ok? ==>
              AnswerAt(infer, calls, i).value == Parse(infer, calls[i].site, calls[i].body)
  {
    var c, view := calls[i], After(infer, calls[..i]);
    var r := ResponseTo(view, c);
    assert HonestResponse(c, Condition(view, KeyOf(c)), r);
    if Requestable(c.site) && r.Response? && r.status == 304 {
      EntriesWereServed(infer, calls[..i], KeyOf(c));
      var j :| StoredBy(infer, calls[..i], j, KeyOf(c), view[KeyOf(c)]);
      assert Agree(calls[j], c);
      KeyTellsSite(calls[j].site, calls[j].apiKey, c.site, c.apiKey);
      ParseAlike(infer, calls[j].site, c.site, c.body);
    }
  }

  // ----- What a model says -----

  /** The model of an item: named by its identifier, with its kind, the inferred endpoints, its
      owner if it names one, its metadata if there are any, and nothing else. */
  predicate Describes(infer: Inference, site: Site, m: ModelValue, item: Item) {
    && m.upstreamName == item.id && m.displayName == item.id && m.capabilities.Some?
    && var c := m.capabilities.value;
       && (forall k :: k in c ==>
             k == "object" || k == "supported_endpoint_types" || k == "owned_by" || k == "metadata")
       && "object" in c && c["object"] == Text(item.kind)
       && "supported_endpoint_types" in c
       && c["supported_endpoint_types"] == Endpoints(infer(item.id, TrimSlashes(site.baseUrl)))
       && ("owned_by" in c <==> item.ownedBy != "") && ("owned_by" in c ==> c["owned_by"] == Text(item.ownedBy))
       && ("metadata" in c <==> item.metadata != map[])
       && ("metadata" in c ==> c["metadata"] == Metadata(item.metadata))
  }

  lemma CapabilitiesAre(infer: Inference, site: Site, item: Item)
    ensures var c := CapabilitiesOf(infer, site, item);
            && "object" in c && c["object"] == Text(item.kind)
            && "supported_endpoint_types" in c
            && c["supported_endpoint_types"] == Endpoints(infer(item.id, TrimSlashes(site.baseUrl)))
            && ("owned_by" in c <==> item.ownedBy != "") && ("owned_by" in c ==> c["owned_by"] == Text(item.ownedBy))
            && ("metadata" in c <==> item.metadata != map[])
            && ("metadata" in c ==> c["metadata"] == Metadata(item.metadata))
  {
    assert |item.metadata| > 0 <==> item.metadata != map[];
  }

  lemma NoOtherCapabilities(infer: Inference, site: Site, item: Item, k: string)
    requires k in CapabilitiesOf(infer, site, item)
    ensures k == "object" || k == "supported_endpoint_types" || k == "owned_by" || k == "metadata"
  {
  }

  lemma ModelIsDescribed(infer: Inference, site: Site, item: Item)
    ensures Describes(infer, site, ModelOf(infer, site, item), item)
  {
    CapabilitiesAre(infer, site, item);
    forall k | k in CapabilitiesOf(infer, site, item)
      ensures k == "object" || k == "supported_endpoint_types" || k == "owned_by" || k == "metadata"
    {
      NoOtherCapabilities(infer, site, item, k);
    }
  }

  /** One item gives one model, or none when its identifier is blank. */
  lemma ParseOne(infer: Inference, site: Site, item: Item)
    ensures TrimSpace(item.id) == "" ==> Parse(infer, site, [item]) == []
    ensures TrimSpace(item.id) != "" ==>
              |Parse(infer, site, [item])| == 1 && Describes(infer, site, Parse(infer, site, [item])[0], item)
  {
    PresentOne(ModelIn(infer, site), item);
    ModelIsDescribed(infer, site, item);
  }

  /** Models come in the order of their items. */
  lemma ParseConcat(infer: Inference, site: Site, a: seq<Item>, b: seq<Item>)
    ensures Parse(infer, site, a + b) == Parse(infer, site, a) + Parse(infer, site, b)
  {
    PresentConcat(ModelIn(infer, site), a, b);
  }

  lemma {:induction false} TrimSlashesCuts(s: string) returns (back: string)
    ensures s == TrimSlashes(s) + back && forall i :: 0 <= i < |back| ==> back[i] == '/'
    ensures TrimSlashes(s) != "" ==> TrimSlashes(s)[|TrimSlashes(s)| - 1] != '/'
  {
    back := "";
    if s != "" && s[|s| - 1] == '/' {
      var rest := TrimSlashesCuts(s[..|s| - 1]);
      back := rest + "/";
      assert s == s[..|s| - 1] + "/";
    }
  }

  // ----- What is asked and what fails -----

  /** Call `i` got a readable success with an entity tag. */
  ghost predicate Tagged(infer: Inference, calls: seq<Call>, i: int) {
    && 0 <= i < |calls| && '\n' !in TrimSlashes(calls[i].site.baseUrl)
    && var r := ResponseTo(After(infer, calls[..i]), calls[i]);
       r.Response? && 200 <= r.status <= 299 && r.body.Some? && TrimSpace(r.etag) != ""
  }

  /** Call `i` is the latest such call under the key. */
  ghost predicate LatestTagged(infer: Inference, calls: seq<Call>, k: string, i: int) {
    && Tagged(infer, calls, i) && KeyOf(calls[i]) == k
    && forall j :: i < j < |calls| ==> !(Tagged(infer, calls, j) && KeyOf(calls[j]) == k)
  }

  lemma TaggedSnoc(infer: Inference, calls: seq<Call>, c: Call, i: int)
    requires i < |calls|
    ensures Tagged(infer, calls + [c], i) <==> Tagged(infer, calls, i)
  {
    if 0 <= i { assert (calls + [c])[..i] == calls[..i]; }
  }

  lemma StoresIffTagged(infer: Inference, calls: seq<Call>, c: Call)
    ensures var view, r := After(infer, calls), ResponseTo(After(infer, calls), c);
            After(infer, calls + [c]) ==
            if Tagged(infer, calls + [c], |calls|)
            then view[KeyOf(c) := Cached(TrimSpace(r.etag), Parse(infer, c.site, r.body.value))]
            else view
  {
    assert (calls + [c])[..|calls|] == calls;
  }

  function TagOf(infer: Inference, calls: seq<Call>, i: nat): string
    requires i < |calls| && ResponseTo(After(infer, calls[..i]), calls[i]).Response?
  {
    TrimSpace(ResponseTo(After(infer, calls[..i]), calls[i]).etag)
  }

  /** Under the key, calls ask with the entity tag of the latest tagged success, if there is one. */
  ghost predicate AsksLatest(infer: Inference, calls: seq<Call>, k: string, condition: Option<string>) {
    && (condition.Some? <==> exists i :: LatestTagged(infer, calls, k, i))
    && (forall i :: LatestTagged(infer, calls, k, i) ==> condition == Some(TagOf(infer, calls, i)))
  }

  lemma TaggedNow(infer: Inference, calls: seq<Call>, c: Call)
    requires Tagged(infer, calls + [c], |calls|)
    ensures AsksLatest(infer, calls + [c], KeyOf(c), Some(TagOf(infer, calls + [c], |calls|)))
  {
    assert LatestTagged(infer, calls + [c], KeyOf(c), |calls|);
  }

  lemma LatestStays(infer: Inference, calls: seq<Call>, c: Call, k: string, i: int)
    requires !(Tagged(infer, calls + [c], |calls|) && KeyOf(c) == k)
    ensures LatestTagged(infer, calls + [c], k, i) <==> LatestTagged(infer, calls, k, i)
    ensures LatestTagged(infer, calls, k, i) ==> TagOf(infer, calls + [c], i) == TagOf(infer, calls, i)
  {
    forall j | j < |calls| ensures Tagged(infer, calls + [c], j) <==> Tagged(infer, calls, j) {
      TaggedSnoc(infer, calls, c, j);
    }
    if 0 <= i < |calls| { assert (calls + [c])[..i] == calls[..i]; }
  }

  lemma NotTaggedNow(infer: Inference, calls: seq<Call>, c: Call, k: string, condition: Option<string>)
    requires AsksLatest(infer, calls, k, condition) && !(Tagged(infer, calls + [c], |calls|) && KeyOf(c) == k)
    ensures AsksLatest(infer, calls + [c], k, condition)
  {
    forall i
      ensures LatestTagged(infer, calls + [c], k, i) <==> LatestTagged(infer, calls, k, i)
      ensures LatestTagged(infer, calls, k, i) ==> TagOf(infer, calls + [c], i) == TagOf(infer, calls, i)
    {
      LatestStays(infer, calls, c, k, i);
    }
  }

  /** A call asks conditionally exactly when some earlier call under its key got a tagged success,
      and then with the entity tag of the latest one. */
  lemma {:induction false} ConditionIsLatest(infer: Inference, calls: seq<Call>, k: string)
    ensures AsksLatest(infer, calls, k, Condition(After(infer, calls), k))
  {
    if calls != [] {
      var init, c := calls[..|calls| - 1], calls[|calls| - 1];
      assert calls == init + [c];
      ConditionIsLatest(infer, init, k);
      ConditionStep(infer, init, c, k);
      if Tagged(infer, init + [c], |init|) && KeyOf(c) == k {
        TaggedNow(infer, init, c);
      } else {
        NotTaggedNow(infer, init, c, k, Condition(After(infer, init), k));
      }
    }
  }

  lemma ConditionStep(infer: Inference, init: seq<Call>, c: Call, k: string)
    ensures Condition(After(infer, init + [c]), k) ==
            if Tagged(infer, init + [c], |init|) && KeyOf(c) == k then Some(TagOf(infer, init + [c], |init|))
            else Condition(After(infer, init), k)
  {
    StoresIffTagged(infer, init, c);
    assert (init + [c])[..|init|] == init;
  }

  /** Failures are reported as what they are. */
  lemma FailuresAreReported(infer: Inference, view: View, site: Site, apiKey: string, r: Response)
    requires '\n' !in TrimSlashes(site.baseUrl)
    ensures r.Unreachable? ==> Answer(infer, view, site, apiKey, r) == Error(CallFailed)
    ensures r.Response? && r.status == 304 && TrimSlashes(site.baseUrl) + "\n" + TrimSpace(apiKey) !in view ==>
              Answer(infer, view, site, apiKey, r) == Error(NothingCached)
    ensures r.Response? && r.status != 304 && (r.status < 200 || r.status > 299) ==>
              Answer(infer, view, site, apiKey, r) == Error(HttpError(r.status))
    ensures r.Response? && 200 <= r.status <= 299 && r.body.None? ==>
              Answer(infer, view, site, apiKey, r) == Error(DecodeFailed)
  {
  }
}
