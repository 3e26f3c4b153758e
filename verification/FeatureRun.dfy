/**
 build-features on one dataset (src/robot_dh/etl/features.py, lines 439-585): four tables
 are uploaded, in any order, and the manifest is written last. An attempt may fail before
 it uploads anything, or die after any put; nothing is ever deleted.
 */
module FeatureRun {
  import opened Wrappers

  datatype Table = PoseFeature | PressEvent | TrajectorySegment | EpisodeFeature

  datatype Name = Tbl(table: Table) | Manifest

  /** Contents, as far as which pose rows they were computed from. */
  type Store = map<Name, seq<int>>

  predicate AllTablesPresent(store: Store) { forall t: Table :: Tbl(t) in store }

  /** A manifest is there only if all four tables are. */
  predicate Committed(store: Store) { Manifest in store ==> AllTablesPresent(store) }

  /** What happens to an attempt: whether the features can be computed at all, the order of
      the uploads, and after how many puts it dies. */
  datatype World = World(computes: bool, order: seq<Table>, puts: nat)

  predicate Each(order: seq<Table>) { |order| == 4 && forall t: Table :: t in order }

  /** The store after the first `n` uploads of the order. */
  function Uploaded(store: Store, src: seq<int>, order: seq<Table>, n: nat): Store
    requires n <= |order|
  {
    if n == 0 then store else Uploaded(store, src, order, n - 1)[Tbl(order[n - 1]) := src]
  }

  /** The store an attempt leaves behind, `src` being what it read from the ods layer. */
  function After(store: Store, src: Option<seq<int>>, w: World): Store
    requires Each(w.order)
  {
    if src.None? || !w.computes then store
    else if w.puts <= 4 then Uploaded(store, src.value, w.order, w.puts)
    else Uploaded(store, src.value, w.order, 4)[Manifest := src.value]
  }

  predicate Succeeds(src: Option<seq<int>>, w: World) { src.Some? && w.computes && w.puts > 4 }

  class FeatureStore {
    var objects: Store

    constructor (objects: Store)
      ensures this.objects == objects
    {
      this.objects := objects;
    }

    /** build_features: read, compute, upload table by table, then seal. */
    method BuildFeatures(src: Option<seq<int>>, w: World) returns (ok: bool)
      requires Each(w.order)
      modifies this
      ensures objects == After(old(objects), src, w) && (ok <==> Succeeds(src, w))
    {
      if src.None? || !w.computes { return false; }
      var left := w.puts;
      for n := 0 to 4
        invariant left == w.puts - n
        invariant objects == Uploaded(old(objects), src.value, w.order, n)
      {
        if left == 0 { return false; }
        objects := objects[Tbl(w.order[n]) := src.value];
        left := left - 1;
      }
      if left == 0 { return false; }
      objects := objects[Manifest := src.value];
      ok := true;
    }
  }

  lemma {:induction false} UploadedKeeps(store: Store, src: seq<int>, order: seq<Table>, n: nat)
    requires n <= |order|
    ensures Uploaded(store, src, order, n).Keys == store.Keys + (set i | 0 <= i < n :: Tbl(order[i]))
    ensures forall i :: 0 <= i < n ==> Uploaded(store, src, order, n)[Tbl(order[i])] == src
    ensures forall name :: name in store && (forall i :: 0 <= i < n ==> name != Tbl(order[i])) ==>
      Uploaded(store, src, order, n)[name] == store[name]
  {
    if n > 0 { UploadedKeeps(store, src, order, n - 1); }
  }

  lemma AfterOne(store: Store, src: Option<seq<int>>, w: World)
    requires Each(w.order)
    ensures store.Keys <= After(store, src, w).Keys
    ensures Committed(store) ==> Committed(After(store, src, w))
    ensures Succeeds(src, w) ==>
      forall name: Name :: name in After(store, src, w) && After(store, src, w)[name] == src.value
  {
    if src.Some? && w.computes {
      var n := if w.puts <= 4 then w.puts else 4;
      UploadedKeeps(store, src.value, w.order, n);
      if w.puts > 4 {
        AllUploaded(store, src.value, w.order);
        forall name: Name ensures name in After(store, src, w) && After(store, src, w)[name] == src.value {
          match name case Tbl(t) => case Manifest =>
        }
      }
    }
  }

  lemma AllUploaded(store: Store, src: seq<int>, order: seq<Table>)
    requires Each(order)
    ensures forall t: Table :: Tbl(t) in Uploaded(store, src, order, 4) && Uploaded(store, src, order, 4)[Tbl(t)] == src
  {
    UploadedKeeps(store, src, order, 4);
    forall t: Table ensures Tbl(t) in Uploaded(store, src, order, 4) && Uploaded(store, src, order, 4)[Tbl(t)] == src {
      assert t in order;
      var i :| 0 <= i < |order| && order[i] == t;
    }
  }

  /** One attempt after the other, on the same output. */
  function History(store: Store, attempts: seq<(Option<seq<int>>, World)>): Store
    requires forall i :: 0 <= i < |attempts| ==> Each(attempts[i].1.order)
  {
    if attempts == [] then store
    else
      var n := |attempts| - 1;
      After(History(store, attempts[..n]), attempts[n].0, attempts[n].1)
  }

  /** After any history of attempts, whatever they read and wherever they died, a manifest
      is there only if all four tables are. */
  lemma {:induction false} ManifestImpliesTables(attempts: seq<(Option<seq<int>>, World)>)
    requires forall i :: 0 <= i < |attempts| ==> Each(attempts[i].1.order)
    ensures Committed(History(map[], attempts))
    ensures var store := History(map[], attempts);
      Manifest in store ==> forall t: Table :: Tbl(t) in store
  {
    if attempts != [] {
      var n := |attempts| - 1;
      ManifestImpliesTables(attempts[..n]);
      AfterOne(History(map[], attempts[..n]), attempts[n].0, attempts[n].1);
    }
  }
}
