/** The ranking configuration (`RankingConfig`): its weights dictionary, the
    defaults the rankings endpoint falls back to, and the validation
    `update_ranking_config` applies before storing a new configuration. */
module RankingWeights {
  import opened Wrappers
  import JsonValues

  /** A `Dict[str, float]`, as its items in insertion order. Python dictionaries
      have distinct keys; `DistinctKeys` states it where it matters. */
  type Weights = seq<(string, real)>

  datatype RankingConfig = RankingConfig(
    name: string,
    weights: Weights,
    params: map<string, JsonValues.PyValue>,
    active: bool)

  predicate DistinctKeys(w: Weights) {
    forall i, j :: 0 <= i < j < |w| ==> w[i].0 != w[j].0
  }

  function Keys(w: Weights): set<string> {
    set i | 0 <= i < |w| :: w[i].0
  }

  /** `w.get(key)`: the value stored under `key`, if any. */
  function Lookup(w: Weights, key: string): (r: Option<real>)
    ensures r.None? <==> key !in Keys(w)
    ensures r.Some? ==> exists i :: 0 <= i < |w| && w[i] == (key, r.value)
  {
    if |w| == 0 then None
    else if w[0].0 == key then Some(w[0].1)
    else
      var rest := Lookup(w[1..], key);
      assert Keys(w) == {w[0].0} + Keys(w[1..]);
      assert rest.Some? ==> exists i :: 1 <= i < |w| && w[i] == (key, rest.value);
      rest
  }

  /** In a dictionary every present key has exactly the value of its item. */
  lemma LookupDistinct(w: Weights, i: nat)
    requires DistinctKeys(w)
    requires i < |w|
    ensures Lookup(w, w[i].0) == Some(w[i].1)
  {
    var r := Lookup(w, w[i].0);
    assert w[i].0 in Keys(w);
    var j :| 0 <= j < |w| && w[j] == (w[i].0, r.value);
    assert j == i;
  }

  /** `sum(w.values())` */
  function Sum(w: Weights): real {
    if |w| == 0 then 0.0 else w[0].1 + Sum(w[1..])
  }

  /** The five weights the rankings score combines, in argument order. */
  const WeightKeys: seq<string> := ["trend", "rsi", "value", "size", "yield"]

  /** The weight used for a key the configuration does not mention, per key. */
  const DefaultWeights: seq<real> := [0.35, 0.25, 0.20, 0.10, 0.10]

  /** The keys `update_ranking_config` insists on. */
  const RequiredKeys: set<string> := {"trend", "rsi", "value", "size", "yield"}

  /** Why a configuration was refused: the detail of the 400 response. */
  datatype ConfigProblem =
    | EmptyWeights
    | BadWeightSum(sum: real)
    | MissingWeightKeys(missing: set<string>)

  /** `update_ranking_config`'s checks, in the order the source makes them; an
      accepted configuration is returned (and stored) unchanged. */
  function ValidateConfig(cfg: RankingConfig): (r: Result<RankingConfig, HttpError<ConfigProblem>>)
    ensures r.Success? <==> |cfg.weights| > 0 && 0.99 < Sum(cfg.weights) < 1.01
                            && RequiredKeys <= Keys(cfg.weights)
    ensures r.Success? ==> r.value == cfg
    ensures r.Failure? ==> r.error.status == 400
    ensures |cfg.weights| == 0 ==> r == Failure(HttpError(400, EmptyWeights))
    ensures |cfg.weights| > 0 && !(0.99 < Sum(cfg.weights) < 1.01)
            ==> r == Failure(HttpError(400, BadWeightSum(Sum(cfg.weights))))
    ensures |cfg.weights| > 0 && 0.99 < Sum(cfg.weights) < 1.01 && !(RequiredKeys <= Keys(cfg.weights))
            ==> r == Failure(HttpError(400, MissingWeightKeys(RequiredKeys - Keys(cfg.weights))))
    ensures r.Failure? && r.error.detail.MissingWeightKeys?
            ==> r.error.detail.missing == RequiredKeys - Keys(cfg.weights)
                && r.error.detail.missing != {}
  {
    var w := cfg.weights;
    if |w| == 0 then Failure(HttpError(400, EmptyWeights))
    else
      var s := Sum(w);
      if s <= 0.99 || s >= 1.01 then Failure(HttpError(400, BadWeightSum(s)))
      else
        var missing := RequiredKeys - Keys(w);
        if missing != {} then Failure(HttpError(400, MissingWeightKeys(missing)))
        else
          assert RequiredKeys <= Keys(w) by {
            forall k | k in RequiredKeys ensures k in Keys(w) {
              assert k !in missing;
            }
          }
          Success(cfg)
  }

  /** The weights dictionary holding exactly the defaults. */
  function DefaultWeightItems(): (w: Weights)
    ensures |w| == |WeightKeys|
    ensures forall k :: 0 <= k < |w| ==> w[k] == (WeightKeys[k], DefaultWeights[k])
  {
    [("trend", 0.35), ("rsi", 0.25), ("value", 0.20), ("size", 0.10), ("yield", 0.10)]
  }

  /** The fallback weights are themselves a configuration the validator accepts:
      they sum to 1 and name every required key. */
  lemma DefaultsAreValid(name: string, params: map<string, JsonValues.PyValue>)
    ensures ValidateConfig(RankingConfig(name, DefaultWeightItems(), params, true)).Success?
  {
    var w := DefaultWeightItems();
    assert Sum(w) == 1.0;
    assert w[0].0 == "trend" && w[1].0 == "rsi" && w[2].0 == "value"
        && w[3].0 == "size" && w[4].0 == "yield";
    assert RequiredKeys <= Keys(w);
  }

  /** A configuration that passes validation names every key the scorer reads,
      so no default weight is used for it. */
  lemma ValidatedConfigHasEveryWeight(cfg: RankingConfig)
    requires ValidateConfig(cfg).Success?
    ensures forall k :: 0 <= k < |WeightKeys| ==> Lookup(cfg.weights, WeightKeys[k]).Some?
  {
    forall k | 0 <= k < |WeightKeys|
      ensures Lookup(cfg.weights, WeightKeys[k]).Some?
    {
      assert WeightKeys[k] in RequiredKeys;
    }
  }

  /** The sum bounds are exclusive: weights summing to exactly 0.99 are refused. */
  lemma SumBoundIsExclusive(cfg: RankingConfig)
    requires |cfg.weights| > 0 && Sum(cfg.weights) == 0.99
    ensures ValidateConfig(cfg) == Failure(HttpError(400, BadWeightSum(0.99)))
  {
  }
}
