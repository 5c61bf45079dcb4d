/** The model cache on the heap: returned lists are arrays of models with mutable capability maps,
    which callers may overwrite. Cached lists are copies that no caller can reach. */
module ModelClient {
  import opened Common
  import opened ModelCache

  class Capabilities {
    var entries: map<string, Value>

    constructor (entries: map<string, Value>)
      ensures this.entries == entries
    {
      this.entries := entries;
    }
  }

  datatype Model = Model(upstreamName: string, displayName: string, capabilities: Capabilities?)

  function ValueOf(m: Model): ModelValue
    reads m.capabilities
  {
    ModelValue(m.upstreamName, m.displayName,
               if m.capabilities == null then None else Some(m.capabilities.entries))
  }

  /** The capability maps of a list of models. */
  ghost function Maps(s: seq<Model>): set<object> {
    set i | 0 <= i < |s| && s[i].capabilities != null :: s[i].capabilities
  }

  /** The list of models has these values. */
  ghost predicate Holds(s: seq<Model>, values: seq<ModelValue>)
    reads Maps(s)
  {
    |s| == |values| && forall i :: 0 <= i < |s| ==> ValueOf(s[i]) == values[i]
  }

  /** Copies the models and the top level of their capability maps. */
  method CloneModels(models: array<Model>, ghost values: seq<ModelValue>) returns (cloned: array<Model>)
    requires Holds(models[..], values)
    ensures fresh(cloned) && fresh(Maps(cloned[..]))
    ensures Holds(cloned[..], values)
  {
    cloned := new Model[models.Length];
    for i := 0 to models.Length
      invariant fresh(cloned) && models[..] == old(models[..])
      invariant forall j :: 0 <= j < i && cloned[j].capabilities != null ==> fresh(cloned[j].capabilities)
      invariant forall j :: 0 <= j < i ==> ValueOf(cloned[j]) == values[j]
    {
      assert models[..][i] == models[i];
      cloned[i] := CloneModel(models[i]);
    }
  }

  method CloneModel(model: Model) returns (copied: Model)
    ensures copied.capabilities != null ==> fresh(copied.capabilities)
    ensures ValueOf(copied) == ValueOf(model)
  {
    copied := model;
    if model.capabilities != null {
      var source := model.capabilities.entries;
      var target := new Capabilities(map[]);
      var todo := source.Keys;
      while todo != {}
        invariant todo <= source.Keys
        invariant target.entries == map k | k in source && k !in todo :: source[k]
        decreases todo
      {
        var k :| k in todo;
        target.entries := target.entries[k := source[k]];
        todo := todo - {k};
      }
      assert target.entries == source;
      copied := copied.(capabilities := target);
    }
  }

  method BuildModel(infer: Inference, site: Site, item: Item) returns (model: Model)
    ensures model.capabilities != null && fresh(model.capabilities)
    ensures ValueOf(model) == ModelOf(infer, site, item)
  {
    var capabilities := new Capabilities(map["object" := Text(item.kind),
                                             "supported_endpoint_types" := Endpoints(infer(item.id, Base(site)))]);
    if item.ownedBy != "" {
      capabilities.entries := capabilities.entries["owned_by" := Text(item.ownedBy)];
    }
    if |item.metadata| > 0 {
      capabilities.entries := capabilities.entries["metadata" := Metadata(item.metadata)];
    }
    model := Model(item.id, item.id, capabilities);
  }

  function Extended(infer: Inference, site: Site, values: seq<ModelValue>, item: Item): seq<ModelValue> {
    if TrimSpace(item.id) == "" then values else values + [ModelOf(infer, site, item)]
  }

  lemma ParseSnoc(infer: Inference, site: Site, body: seq<Item>, i: nat)
    requires i < |body|
    ensures Parse(infer, site, body[..i + 1]) == Extended(infer, site, Parse(infer, site, body[..i]), body[i])
  {
    assert body[..i + 1] == body[..i] + [body[i]];
    PresentSnoc(ModelIn(infer, site), body[..i], body[i]);
  }

  lemma HoldsSnoc(s: seq<Model>, values: seq<ModelValue>, m: Model)
    requires Holds(s, values)
    ensures Holds(s + [m], values + [ValueOf(m)])
  {
  }

  lemma MapsSnoc(s: seq<Model>, m: Model)
    requires m.capabilities != null
    ensures Maps(s + [m]) == Maps(s) + {m.capabilities}
  {
    assert (s + [m])[|s|] == m;
    forall i | 0 <= i < |s| ensures (s + [m])[i] == s[i] {}
  }

  /** Adds the model of one item, unless its identifier is blank. */
  method AddItem(infer: Inference, site: Site, item: Item, found: seq<Model>, ghost values: seq<ModelValue>)
    returns (found': seq<Model>)
    requires Holds(found, values)
    ensures fresh(Maps(found') - Maps(found))
    ensures Holds(found', Extended(infer, site, values, item))
  {
    if TrimSpace(item.id) == "" { return found; }
    var model := BuildModel(infer, site, item);
    HoldsSnoc(found, values, model);
    MapsSnoc(found, model);
    found' := found + [model];
  }

  /** Collects the models of a payload. */
  method FindModels(infer: Inference, site: Site, body: seq<Item>) returns (found: seq<Model>)
    ensures fresh(Maps(found)) && Holds(found, Parse(infer, site, body))
  {
    found := [];
    for i := 0 to |body|
      invariant fresh(Maps(found)) && Holds(found, Parse(infer, site, body[..i]))
    {
      ParseSnoc(infer, site, body, i);
      found := AddItem(infer, site, body[i], found, Parse(infer, site, body[..i]));
    }
    assert body[..|body|] == body;
  }

  /** Builds the models of a payload. */
  method ParseModels(infer: Inference, site: Site, body: seq<Item>) returns (models: array<Model>)
    ensures fresh(models) && fresh(Maps(models[..]))
    ensures Holds(models[..], Parse(infer, site, body))
  {
    var found := FindModels(infer, site, body);
    models := new Model[|found|](i requires 0 <= i < |found| => found[i]);
    assert models[..] == found;
  }

  datatype Entry = Entry(etag: string, models: array<Model>)

  class Cache {
    const infer: Inference
    var entries: map<string, Entry>
    /** What the entries hold, as values. */
    ghost var view: View
    /** Everything reachable from the entries. */
    ghost var repr: set<object>

    ghost predicate Backs(e: Entry, c: Cached)
      reads repr, this
    {
      && e.models in repr && Maps(e.models[..]) <= repr
      && e.etag == c.etag && Holds(e.models[..], c.models)
    }

    ghost predicate Valid()
      reads this, repr
    {
      && this !in repr
      && entries.Keys == view.Keys
      && forall k :: k in entries ==> Backs(entries[k], view[k])
    }

    constructor (infer: Inference)
      ensures Valid() && view == map[] && repr == {} && this.infer == infer
    {
      this.infer := infer;
      entries := map[];
      view := map[];
      repr := {};
    }

    method Load(key: string) returns (e: Option<Entry>)
      requires Valid()
      ensures e.Some? <==> key in view
      ensures e.Some? ==> Backs(e.value, view[key])
    {
      if key !in entries { return None; }
      return Some(entries[key]);
    }

    method Store(key: string, e: Entry, ghost c: Cached)
      requires Valid() && Maps(e.models[..]) !! {this} && Holds(e.models[..], c.models) && e.etag == c.etag
      modifies this
      ensures Valid() && view == old(view)[key := c]
      ensures repr == old(repr) + {e.models} + Maps(e.models[..])
    {
      repr := repr + {e.models} + Maps(e.models[..]);
      entries := entries[key := e];
      view := view[key := c];
    }

    /** A list that is new to the caller and shares nothing with what is cached. */
    twostate predicate Apart(new models: array<Model>)
      reads this, models
    {
      && fresh(models) && fresh(Maps(models[..]))
      && models !in repr && Maps(models[..]) !! repr
    }

    /** The answer to 304: a copy of what is cached. */
    method Reuse(key: string) returns (r: Result<array<Model>>)
      requires Valid()
      ensures r == Error(NothingCached) <==> key !in view
      ensures key in view ==> r.Ok? && Apart(r.value) && Holds(r.value[..], view[key].models)
    {
      var cached := Load(key);
      if cached.None? { return Error(NothingCached); }
      var copy := CloneModels(cached.value.models, view[key].models);
      return Ok(copy);
    }

    /** Caches a copy of a list. */
    method Remember(key: string, etag: string, models: array<Model>, ghost values: seq<ModelValue>)
      requires Valid() && Holds(models[..], values)
      modifies this
      ensures Valid() && fresh(repr - old(repr))
      ensures view == old(view)[key := Cached(etag, values)]
    {
      var copy := CloneModels(models, values);
      Store(key, Entry(etag, copy), Cached(etag, values));
    }

    /** The answer to a success: the parsed models; a copy is cached under their entity tag. */
    method Accept(key: string, site: Site, etag: string, body: seq<Item>) returns (models: array<Model>)
      requires Valid()
      modifies this
      ensures Valid() && fresh(repr - old(repr)) && Apart(models)
      ensures Holds(models[..], Parse(infer, site, body))
      ensures view == if etag == "" then old(view) else old(view)[key := Cached(etag, Parse(infer, site, body))]
    {
      models := ParseModels(infer, site, body);
      if etag != "" {
        Remember(key, etag, models, Parse(infer, site, body));
      }
    }

    /** What a response does to the cache, and what is answered. */
    twostate predicate Answers(site: Site, apiKey: string, response: Response, new r: Result<array<Model>>)
      reads this, if r.Ok? then {r.value} + Maps(r.value[..]) else {}
    {
      && view == Stored(infer, old(view), site, apiKey, response)
      && match Answer(infer, old(view), site, apiKey, response)
         case Error(f) => r == Error(f)
         case Ok(values) => r.Ok? && Apart(r.value) && Holds(r.value[..], values)
    }

    method Receive(site: Site, apiKey: string, response: Response) returns (r: Result<array<Model>>)
      requires Valid() && Requestable(site)
      modifies this
      ensures Valid() && fresh(repr - old(repr)) && Answers(site, apiKey, response, r)
    {
      var key := CacheKey(site, apiKey);
      if response.Unreachable? { return Error(CallFailed); }
      if response.status == 304 {
        r := Reuse(key);
        return;
      }
      if response.status < 200 || response.status >= 300 { return Error(HttpError(response.status)); }
      if response.body.None? { return Error(DecodeFailed); }
      var models := Accept(key, site, TrimSpace(response.etag), response.body.value);
      return Ok(models);
    }

    /** Asks for the models of a site. */
    method ListModels(site: Site, apiKey: string, respond: Option<string> -> Response) returns (r: Result<array<Model>>)
      requires Valid()
      modifies this
      ensures Valid() && fresh(repr - old(repr))
      ensures Answers(site, apiKey, respond(Condition(old(view), CacheKey(site, apiKey))), r)
    {
      if !Requestable(site) { return Error(CallFailed); }
      var condition := None;
      var cached := Load(CacheKey(site, apiKey));
      if cached.Some? && cached.value.etag != "" {
        condition := Some(cached.value.etag);
      }
      r := Receive(site, apiKey, respond(condition));
    }
  }
}
