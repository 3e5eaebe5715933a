/** The ranked list of models to try for one request. */
module Fallback {

  datatype Attempt = Attempt(modelId: string, provider: string, isFallback: bool)

  predicate Has(attempts: seq<Attempt>, model: string) {
    exists i :: 0 <= i < |attempts| && attempts[i].modelId == model
  }

  /** The selected model, the alternates that bring a model not yet in the list, and at last the
      requested model when it is not in it. */
  method Build(selectedModel: string, selectedProvider: string, requestedModel: string, requestedProvider: string,
               alternates: seq<(string, string)>)
    returns (attempts: seq<Attempt>)
    ensures attempts == Chain(selectedModel, selectedProvider, requestedModel, requestedProvider, alternates)
  {
    attempts := [Attempt(selectedModel, selectedProvider, false)];
    for i := 0 to |alternates|
      invariant attempts == WithAlternates(selectedModel, selectedProvider, alternates[..i])
    {
      var (model, provider) := alternates[i];
      assert alternates[..i + 1][..i] == alternates[..i];
      if !Has(attempts, model) {
        attempts := attempts + [Attempt(model, provider, true)];
      }
    }
    assert alternates[..|alternates|] == alternates;
    if !Has(attempts, requestedModel) {
      attempts := attempts + [Attempt(requestedModel, requestedProvider, true)];
    }
  }

  function WithAlternates(selectedModel: string, selectedProvider: string, alternates: seq<(string, string)>)
    : (r: seq<Attempt>)
    ensures |r| >= 1
  {
    if alternates == [] then [Attempt(selectedModel, selectedProvider, false)]
    else
      var n := |alternates| - 1;
      Extended(WithAlternates(selectedModel, selectedProvider, alternates[..n]), alternates[n].0, alternates[n].1)
  }

  /** The list, and the model at its end unless it is already in it. */
  function Extended(attempts: seq<Attempt>, model: string, provider: string): (r: seq<Attempt>)
    ensures |r| >= |attempts|
  {
    if Has(attempts, model) then attempts else attempts + [Attempt(model, provider, true)]
  }

  function Chain(selectedModel: string, selectedProvider: string, requestedModel: string, requestedProvider: string,
                 alternates: seq<(string, string)>): (r: seq<Attempt>)
    ensures |r| >= 1
  {
    Extended(WithAlternates(selectedModel, selectedProvider, alternates), requestedModel, requestedProvider)
  }

  predicate Distinct(attempts: seq<Attempt>) {
    forall i, j :: 0 <= i < j < |attempts| ==> attempts[i].modelId != attempts[j].modelId
  }

  /** Some alternate carries this model. */
  predicate IsAlternate(alternates: seq<(string, string)>, model: string) {
    exists i :: 0 <= i < |alternates| && alternates[i].0 == model
  }

  /** The list starts with the selection, repeats no model, marks everything after the first entry as
      a fallback, and holds exactly the selected model and the alternates. */
  lemma {:induction false} AlternatesOnce(selectedModel: string, selectedProvider: string, alternates: seq<(string, string)>)
    ensures var r := WithAlternates(selectedModel, selectedProvider, alternates);
            && r[0] == Attempt(selectedModel, selectedProvider, false)
            && Distinct(r)
            && (forall i :: 0 < i < |r| ==> r[i].isFallback)
            && (forall model :: Has(r, model) <==> model == selectedModel || IsAlternate(alternates, model))
  {
    if alternates == [] {
      var r := [Attempt(selectedModel, selectedProvider, false)];
      assert r[0].modelId == selectedModel;
    } else {
      var n := |alternates| - 1;
      var before := WithAlternates(selectedModel, selectedProvider, alternates[..n]);
      var r := WithAlternates(selectedModel, selectedProvider, alternates);
      AlternatesOnce(selectedModel, selectedProvider, alternates[..n]);
      forall model
        ensures Has(r, model) <==> model == selectedModel || IsAlternate(alternates, model)
      {
        HasExtended(before, alternates[n].0, alternates[n].1, model);
        if IsAlternate(alternates[..n], model) {
          var i :| 0 <= i < n && alternates[..n][i].0 == model;
          assert alternates[i].0 == model;
        }
        if IsAlternate(alternates, model) && model != alternates[n].0 {
          var i :| 0 <= i < |alternates| && alternates[i].0 == model;
          assert alternates[..n][i].0 == model;
        }
      }
    }
  }

  lemma HasExtended(attempts: seq<Attempt>, model: string, provider: string, other: string)
    ensures Has(Extended(attempts, model, provider), other) <==> Has(attempts, other) || other == model
  {
    var r := Extended(attempts, model, provider);
    if Has(attempts, other) {
      var i :| 0 <= i < |attempts| && attempts[i].modelId == other;
      assert r[i].modelId == other;
    }
    if !Has(attempts, model) {
      assert r[|attempts|].modelId == model;
    }
  }

  /** The whole chain starts with the selection, repeats no model, and always holds the requested one. */
  lemma ChainCovers(selectedModel: string, selectedProvider: string, requestedModel: string,
                    requestedProvider: string, alternates: seq<(string, string)>)
    ensures var r := Chain(selectedModel, selectedProvider, requestedModel, requestedProvider, alternates);
            && r[0] == Attempt(selectedModel, selectedProvider, false)
            && Distinct(r)
            && (forall i :: 0 < i < |r| ==> r[i].isFallback)
            && Has(r, requestedModel)
  {
    AlternatesOnce(selectedModel, selectedProvider, alternates);
    HasExtended(WithAlternates(selectedModel, selectedProvider, alternates), requestedModel, requestedProvider,
                requestedModel);
  }

  /** The first alternate that carries this model; their number when there is none. */
  function FirstOf(alternates: seq<(string, string)>, model: string): (k: nat)
    ensures k <= |alternates|
    ensures k < |alternates| ==> alternates[k].0 == model
    ensures forall i :: 0 <= i < k ==> alternates[i].0 != model
  {
    if alternates == [] then 0
    else
      var n := |alternates| - 1;
      var k := FirstOf(alternates[..n], model);
      if k < n then k else if alternates[n].0 == model then n else n + 1
  }

  /** After the selection come the alternates that bring a new model, each with its own provider and in the order
      of their first appearance. */
  predicate FollowsAlternates(r: seq<Attempt>, alternates: seq<(string, string)>) {
    && (forall i :: 0 < i < |r| ==>
          var k := FirstOf(alternates, r[i].modelId);
          k < |alternates| && alternates[k] == (r[i].modelId, r[i].provider))
    && (forall i, j :: 0 < i < j < |r| ==> FirstOf(alternates, r[i].modelId) < FirstOf(alternates, r[j].modelId))
  }

  lemma {:induction false} AlternatesInOrder(
    selectedModel: string, selectedProvider: string, alternates: seq<(string, string)>)
    ensures FollowsAlternates(WithAlternates(selectedModel, selectedProvider, alternates), alternates)
  {
    if alternates != [] {
      var n := |alternates| - 1;
      AlternatesInOrder(selectedModel, selectedProvider, alternates[..n]);
      AlternatesOnce(selectedModel, selectedProvider, alternates[..n]);
      OneMoreFollows(WithAlternates(selectedModel, selectedProvider, alternates[..n]), alternates);
    }
  }

  lemma OneMoreFollows(before: seq<Attempt>, alternates: seq<(string, string)>)
    requires alternates != [] && FollowsAlternates(before, alternates[..|alternates| - 1])
    requires forall i :: 0 <= i < |alternates| - 1 ==> Has(before, alternates[i].0)
    ensures var last := alternates[|alternates| - 1];
            FollowsAlternates(Extended(before, last.0, last.1), alternates)
  {
    var n := |alternates| - 1;
    var front := alternates[..n];
    forall i | 0 < i < |before|
      ensures FirstOf(front, before[i].modelId) < n && FirstOf(alternates, before[i].modelId) == FirstOf(front, before[i].modelId)
    {
    }
    if !Has(before, alternates[n].0) {
      assert FirstOf(front, alternates[n].0) == n;
    }
  }

  /** The requested model, when it is neither selected nor an alternate, comes with its own provider at the end; and
      otherwise the chain is the selection and the alternates. */
  lemma RequestedBringsItsProvider(selectedModel: string, selectedProvider: string, requestedModel: string,
                                   requestedProvider: string, alternates: seq<(string, string)>)
    ensures var r := Chain(selectedModel, selectedProvider, requestedModel, requestedProvider, alternates);
            var n := |r| - 1;
            if requestedModel == selectedModel || IsAlternate(alternates, requestedModel)
            then FollowsAlternates(r, alternates)
            else r[n] == Attempt(requestedModel, requestedProvider, true) && FollowsAlternates(r[..n], alternates)
  {
    AlternatesInOrder(selectedModel, selectedProvider, alternates);
    AlternatesOnce(selectedModel, selectedProvider, alternates);
    var before := WithAlternates(selectedModel, selectedProvider, alternates);
    assert (before + [Attempt(requestedModel, requestedProvider, true)])[..|before|] == before;
  }

  /** The last of the selected model and the alternates to appear for the first time. */
  function LastFresh(selectedModel: string, alternates: seq<(string, string)>): string {
    if alternates == [] then selectedModel
    else
      var n := |alternates| - 1;
      if alternates[n].0 == selectedModel || IsAlternate(alternates[..n], alternates[n].0)
      then LastFresh(selectedModel, alternates[..n]) else alternates[n].0
  }

  lemma {:induction false} LastOfAlternates(
    selectedModel: string, selectedProvider: string, alternates: seq<(string, string)>)
    ensures var r := WithAlternates(selectedModel, selectedProvider, alternates);
            r[|r| - 1].modelId == LastFresh(selectedModel, alternates)
  {
    if alternates != [] {
      var n := |alternates| - 1;
      LastOfAlternates(selectedModel, selectedProvider, alternates[..n]);
      AlternatesOnce(selectedModel, selectedProvider, alternates[..n]);
    }
  }

  /** The requested model is not always tried last: it is exactly when it is neither the selected
      model nor an alternate, or is the last of these to appear for the first time. */
  lemma RequestedIsLast(selectedModel: string, selectedProvider: string, requestedModel: string,
                        requestedProvider: string, alternates: seq<(string, string)>)
    ensures var r := Chain(selectedModel, selectedProvider, requestedModel, requestedProvider, alternates);
            r[|r| - 1].modelId == requestedModel <==>
            (requestedModel != selectedModel && !IsAlternate(alternates, requestedModel)) ||
            requestedModel == LastFresh(selectedModel, alternates)
  {
    AlternatesOnce(selectedModel, selectedProvider, alternates);
    LastOfAlternates(selectedModel, selectedProvider, alternates);
  }

  /** An input on which it is not: the model asked for was selected, and an alternate comes after it. */
  lemma RequestedCanBeFirst(requested: string, other: string, provider: string)
    requires requested != other
    ensures var r := Chain(requested, provider, requested, provider, [(other, provider)]);
            r[|r| - 1].modelId == other != requested
  {
    RequestedIsLast(requested, provider, requested, provider, [(other, provider)]);
    LastOfAlternates(requested, provider, [(other, provider)]);
    AlternatesOnce(requested, provider, [(other, provider)]);
  }
}
