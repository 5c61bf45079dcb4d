/** Sessions of a caller that asks for models and then overwrites what it was given. */
module ModelSession {
  import opened Common
  import opened ModelCache
  import opened ModelClient

  /** A caller asks, overwrites a returned model (taking its capability map from another returned
      model, or none), or replaces the entries of a returned capability map. */
  datatype Step =
    | Ask(call: Call)
    | Overwrite(list: nat, index: nat, upstreamName: string, displayName: string, from: Option<(nat, nat)>)
    | Scribble(list: nat, index: nat, entries: map<string, Value>)

  function Calls(steps: seq<Step>): seq<Call> {
    if steps == [] then []
    else
      var init, last := Calls(steps[..|steps| - 1]), steps[|steps| - 1];
      if last.Ask? then init + [last.call] else init
  }

  /** All a caller can reach through the lists it was given. */
  ghost predicate Reaches(held: seq<array<Model>>, mine: set<object>)
    reads held
  {
    forall i :: 0 <= i < |held| ==> held[i] in mine && Maps(held[i][..]) <= mine
  }

  method Meddle(held: seq<array<Model>>, step: Step, ghost mine: set<object>)
    requires Reaches(held, mine)
    modifies mine
    ensures Reaches(held, mine)
  {
    if step.Ask? || step.list >= |held| || step.index >= held[step.list].Length { return; }
    var models := held[step.list];
    var target := models[step.index];
    assert models[..][step.index] == target;
    if step.Scribble? {
      if target.capabilities != null { target.capabilities.entries := step.entries; }
    } else {
      var capabilities: Capabilities? := null;
      if step.from.Some? && step.from.value.0 < |held| && step.from.value.1 < held[step.from.value.0].Length {
        var source := held[step.from.value.0];
        capabilities := source[step.from.value.1].capabilities;
        assert source[..][step.from.value.1].capabilities == capabilities;
      }
      models[step.index] := Model(step.upstreamName, step.displayName, capabilities);
    }
  }

  /** The values of a returned list. */
  method Look(models: array<Model>, ghost values: seq<ModelValue>) returns (seen: seq<ModelValue>)
    requires Holds(models[..], values)
    ensures seen == values
  {
    seen := [];
    for i := 0 to models.Length
      invariant seen == values[..i]
    {
      assert models[..][i] == models[i];
      var value := ValueOf(models[i]);
      seen := seen + [value];
    }
  }

  method AskOnce(cache: Cache, c: Call) returns (r: Result<array<Model>>, seen: Result<seq<ModelValue>>)
    requires cache.Valid()
    modifies cache
    ensures cache.Valid() && fresh(cache.repr - old(cache.repr))
    ensures seen == Answer(cache.infer, old(cache.view), c.site, c.apiKey, ResponseTo(old(cache.view), c))
    ensures cache.view == Stored(cache.infer, old(cache.view), c.site, c.apiKey, ResponseTo(old(cache.view), c))
    ensures r.Ok? <==> seen.Ok?
    ensures r.Ok? ==> cache.Apart(r.value)
  {
    ghost var expected := Answer(cache.infer, cache.view, c.site, c.apiKey, ResponseTo(cache.view, c));
    r := cache.ListModels(c.site, c.apiKey, c.respond);
    if r.Error? { return r, Error(r.failure); }
    var values := Look(r.value, expected.value);
    seen := Ok(values);
  }

  /** What a caller holds and what is cached stay apart. */
  ghost predicate Separate(cache: Cache, held: seq<array<Model>>, mine: set<object>)
    reads cache, cache.repr, held
  {
    cache.Valid() && cache !in mine && mine !! cache.repr && Reaches(held, mine)
  }

  method Ask(cache: Cache, held: seq<array<Model>>, c: Call, ghost mine: set<object>)
    returns (seen: Result<seq<ModelValue>>, held': seq<array<Model>>, ghost mine': set<object>)
    requires Separate(cache, held, mine)
    modifies cache
    ensures Separate(cache, held', mine') && fresh(cache.repr - old(cache.repr)) && fresh(mine' - mine)
    ensures seen == Answer(cache.infer, old(cache.view), c.site, c.apiKey, ResponseTo(old(cache.view), c))
    ensures cache.view == Stored(cache.infer, old(cache.view), c.site, c.apiKey, ResponseTo(old(cache.view), c))
  {
    var r;
    r, seen := AskOnce(cache, c);
    held', mine' := held, mine;
    if r.Ok? {
      held' := held + [r.value];
      mine' := mine + {r.value} + Maps(r.value[..]);
    }
  }

  /** Whatever the caller does to the lists it was given, every call of a session is answered as
      if the caller had only asked; and with a trustworthy server every list answered is the
      server's current one. */
  method Session(infer: Inference, steps: seq<Step>) returns (answers: seq<Result<seq<ModelValue>>>)
    ensures Answered(infer, Calls(steps), answers)
    ensures Trustworthy(Calls(steps)) ==> Current(infer, Calls(steps), answers)
  {
    var cache := new Cache(infer);
    var held: seq<array<Model>> := [];
    ghost var mine: set<object> := {};
    answers := [];
    for n := 0 to |steps|
      invariant cache.infer == infer && fresh(cache) && fresh(cache.repr) && fresh(mine)
      invariant Separate(cache, held, mine)
      invariant AsIfOnlyAsked(infer, steps[..n], cache.view, answers)
    {
      StepKeepsAnswers(infer, steps, n, cache.view, answers);
      if steps[n].Ask? {
        var seen;
        seen, held, mine := Ask(cache, held, steps[n].call, mine);
        answers := answers + [seen];
      } else {
        Meddle(held, steps[n], mine);
      }
    }
    assert steps[..|steps|] == steps;
    if Trustworthy(Calls(steps)) { AnswersAreCurrent(infer, Calls(steps), answers); }
  }

  /** Every list answered is the parse of the representation current at its call. */
  ghost predicate Current(infer: Inference, calls: seq<Call>, answers: seq<Result<seq<ModelValue>>>)
    requires |answers| == |calls|
  {
    forall i :: 0 <= i < |answers| && answers[i].Ok? ==> answers[i].value == Parse(infer, calls[i].site, calls[i].body)
  }

  lemma AnswersAreCurrent(infer: Inference, calls: seq<Call>, answers: seq<Result<seq<ModelValue>>>)
    requires Answered(infer, calls, answers) && Trustworthy(calls)
    ensures Current(infer, calls, answers)
  {
    forall i | 0 <= i < |answers| && answers[i].Ok?
      ensures answers[i].value == Parse(infer, calls[i].site, calls[i].body)
    {
      RunsAnswerTheCurrentList(infer, calls, i);
    }
  }

  ghost predicate Answered(infer: Inference, calls: seq<Call>, answers: seq<Result<seq<ModelValue>>>) {
    |answers| == |calls| && forall i :: 0 <= i < |calls| ==> answers[i] == AnswerAt(infer, calls, i)
  }

  /** Cache and answers are those of the calls alone. */
  ghost predicate AsIfOnlyAsked(infer: Inference, steps: seq<Step>, view: View, answers: seq<Result<seq<ModelValue>>>) {
    view == After(infer, Calls(steps)) && Answered(infer, Calls(steps), answers)
  }

  lemma StepKeepsAnswers(infer: Inference, steps: seq<Step>, n: nat, view: View, answers: seq<Result<seq<ModelValue>>>)
    requires n < |steps| && AsIfOnlyAsked(infer, steps[..n], view, answers)
    ensures match steps[n]
            case Ask(c) =>
              var r := ResponseTo(view, c);
              AsIfOnlyAsked(infer, steps[..n + 1], Stored(infer, view, c.site, c.apiKey, r),
                            answers + [Answer(infer, view, c.site, c.apiKey, r)])
            case _ => AsIfOnlyAsked(infer, steps[..n + 1], view, answers)
  {
    assert steps[..n + 1][..n] == steps[..n];
    if steps[n].Ask? { AnsweredSnoc(infer, Calls(steps[..n]), steps[n].call, answers); }
  }

  lemma AnsweredSnoc(infer: Inference, calls: seq<Call>, c: Call, answers: seq<Result<seq<ModelValue>>>)
    requires Answered(infer, calls, answers)
    ensures var view := After(infer, calls);
            && Answered(infer, calls + [c], answers + [Answer(infer, view, c.site, c.apiKey, ResponseTo(view, c))])
            && After(infer, calls + [c]) == Stored(infer, view, c.site, c.apiKey, ResponseTo(view, c))
  {
    assert (calls + [c])[..|calls|] == calls;
    forall i | 0 <= i < |calls| ensures AnswerAt(infer, calls + [c], i) == AnswerAt(infer, calls, i) {
      assert (calls + [c])[..i] == calls[..i];
    }
  }
}
