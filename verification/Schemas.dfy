/** The records samples and predictions travel in (src/robot_dh/models/schemas.py). */
module Schemas {
  import opened Wrappers

  /** One input; `payload` stands for the columns no rule looks at. */
  datatype Sample = Sample(id: string, dataset: Option<string>, version: Option<string>, episode: string, payload: int)

  /** One answer; an absent error message is the empty text. */
  datatype Prediction = Prediction(id: string, ok: bool, message: string, body: int, latency: Option<real>)

  predicate DistinctIds(xs: seq<Sample>) {
    forall i, j :: 0 <= i < j < |xs| ==> xs[i].id != xs[j].id
  }

  predicate AllOk(preds: seq<Prediction>) { forall i :: 0 <= i < |preds| ==> preds[i].ok }

  function CountOk(preds: seq<Prediction>): (n: nat)
    ensures n <= |preds|
  {
    if preds == [] then 0 else CountOk(preds[..|preds| - 1]) + if preds[|preds| - 1].ok then 1 else 0
  }

  lemma {:induction false} AllOkCounted(preds: seq<Prediction>)
    ensures CountOk(preds) == |preds| <==> AllOk(preds)
  {
    if preds != [] {
      var n := |preds| - 1;
      AllOkCounted(preds[..n]);
      assert preds == preds[..n] + [preds[n]];
    }
  }

  /** Every list glued into one, in order. */
  function Flatten<T>(xss: seq<seq<T>>): seq<T> {
    if xss == [] then [] else Flatten(xss[..|xss| - 1]) + xss[|xss| - 1]
  }
}
