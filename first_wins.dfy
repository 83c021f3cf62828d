/** The insertion-ordered `Map` of `searchMovies`, written only when its key
    is new: folding a sequence of optional entries keeps, for each id, the
    first entry carrying it, in the order the ids are first seen. */
module FirstWins {
  import opened Wrappers
  import opened Types

  function IdsOf(items: seq<MovieItem>): set<string>
    decreases |items|
  {
    if items == [] then {} else IdsOf(items[..|items| - 1]) + {items[|items| - 1].id}
  }

  lemma IdsOfSnoc(items: seq<MovieItem>, m: MovieItem)
    ensures IdsOf(items + [m]) == IdsOf(items) + {m.id}
  {
    assert (items + [m])[..|items|] == items;
  }

  /** `if (!items.has(id)) items.set(id, item)` on the values in insertion
      order. */
  function AddEntry(prev: seq<MovieItem>, e: Option<MovieItem>): seq<MovieItem> {
    match e
    case None => prev
    case Some(m) => if m.id in IdsOf(prev) then prev else prev + [m]
  }

  function Fold(es: seq<Option<MovieItem>>): seq<MovieItem>
    decreases |es|
  {
    if es == [] then [] else AddEntry(Fold(es[..|es| - 1]), es[|es| - 1])
  }

  lemma FoldStep(es: seq<Option<MovieItem>>, i: nat)
    requires i < |es|
    ensures Fold(es[..i + 1]) == AddEntry(Fold(es[..i]), es[i])
  {
    assert es[..i + 1][..i] == es[..i];
  }

  predicate HasId(e: Option<MovieItem>, id: string) {
    e.Some? && e.value.id == id
  }

  /** Index of the first entry with this id, or `|es|` when there is none. */
  function FirstIndex(es: seq<Option<MovieItem>>, id: string): (k: nat)
    ensures k <= |es|
    ensures k < |es| ==> HasId(es[k], id)
    ensures forall j :: 0 <= j < k ==> !HasId(es[j], id)
    decreases |es|
  {
    if es == [] then 0
    else if HasId(es[0], id) then 0
    else
      var k := FirstIndex(es[1..], id);
      assert forall j :: 1 <= j < |es| ==> es[j] == es[1..][j - 1];
      k + 1
  }

  /** The first index is determined by the property that defines it. */
  lemma FirstIndexIs(es: seq<Option<MovieItem>>, id: string, k: nat)
    requires k < |es| && HasId(es[k], id)
    requires forall j :: 0 <= j < k ==> !HasId(es[j], id)
    ensures FirstIndex(es, id) == k
  {
  }

  /** Extending the sequence keeps the first index of an id already seen. */
  lemma FirstIndexPrefix(es: seq<Option<MovieItem>>, id: string)
    requires es != []
    requires FirstIndex(es[..|es| - 1], id) < |es| - 1
    ensures FirstIndex(es, id) == FirstIndex(es[..|es| - 1], id)
  {
    var init := es[..|es| - 1];
    var f := FirstIndex(init, id);
    assert es[f] == init[f];
    forall j | 0 <= j < f ensures !HasId(es[j], id) {
      assert es[j] == init[j];
    }
    FirstIndexIs(es, id, f);
  }

  /** Every id carried by some entry is in the result. */
  lemma {:induction false} FoldComplete(es: seq<Option<MovieItem>>, j: nat)
    requires j < |es| && es[j].Some?
    ensures es[j].value.id in IdsOf(Fold(es))
    decreases |es|
  {
    var init := es[..|es| - 1];
    var prev := Fold(init);
    if j < |es| - 1 {
      assert es[j] == init[j];
      FoldComplete(init, j);
    }
    match es[|es| - 1]
    case None =>
    case Some(m) =>
      if m.id !in IdsOf(prev) {
        IdsOfSnoc(prev, m);
      }
  }

  /** Every id in the result is carried by some entry. */
  lemma {:induction false} FoldIdsOccur(es: seq<Option<MovieItem>>, id: string)
    requires id in IdsOf(Fold(es))
    ensures FirstIndex(es, id) < |es|
    decreases |es|
  {
    var init := es[..|es| - 1];
    var prev := Fold(init);
    if id in IdsOf(prev) {
      FoldIdsOccur(init, id);
      FirstIndexPrefix(es, id);
    } else {
      var m := es[|es| - 1].value;
      IdsOfSnoc(prev, m);
      assert HasId(es[|es| - 1], id);
    }
  }

  /** An entry appended for the last element is the first one with its id. */
  lemma NewIdFirstSeenLast(es: seq<Option<MovieItem>>, m: MovieItem)
    requires es != [] && es[|es| - 1] == Some(m)
    requires m.id !in IdsOf(Fold(es[..|es| - 1]))
    ensures FirstIndex(es, m.id) == |es| - 1
  {
    var init := es[..|es| - 1];
    forall j | 0 <= j < |es| - 1 ensures !HasId(es[j], m.id) {
      assert es[j] == init[j];
      if es[j].Some? {
        FoldComplete(init, j);
      }
    }
    FirstIndexIs(es, m.id, |es| - 1);
  }

  /** Each value in the result is the first entry carrying its id. */
  lemma {:induction false} FoldFromFirst(es: seq<Option<MovieItem>>, p: nat)
    requires p < |Fold(es)|
    ensures FirstIndex(es, Fold(es)[p].id) < |es|
    ensures es[FirstIndex(es, Fold(es)[p].id)] == Some(Fold(es)[p])
    decreases |es|
  {
    var init := es[..|es| - 1];
    var prev := Fold(init);
    var r := Fold(es);
    if p < |prev| {
      assert r[p] == prev[p];
      FoldFromFirst(init, p);
      FirstIndexPrefix(es, prev[p].id);
      assert es[FirstIndex(init, prev[p].id)] == init[FirstIndex(init, prev[p].id)];
    } else {
      var m := es[|es| - 1].value;
      assert r == prev + [m] && m.id !in IdsOf(prev);
      NewIdFirstSeenLast(es, m);
    }
  }

  /** Values appear in the order in which their ids are first seen. */
  lemma {:induction false} FoldFirstSeenOrder(es: seq<Option<MovieItem>>)
    ensures forall p, q :: 0 <= p < q < |Fold(es)| ==> FirstIndex(es, Fold(es)[p].id) < FirstIndex(es, Fold(es)[q].id)
    decreases |es|
  {
    if es != [] {
      var init := es[..|es| - 1];
      var prev := Fold(init);
      FoldFirstSeenOrder(init);
      forall p | 0 <= p < |prev|
        ensures FirstIndex(es, prev[p].id) == FirstIndex(init, prev[p].id) < |es| - 1
      {
        FoldFromFirst(init, p);
        FirstIndexPrefix(es, prev[p].id);
      }
      match es[|es| - 1]
      case None =>
      case Some(m) =>
        if m.id !in IdsOf(prev) {
          NewIdFirstSeenLast(es, m);
          assert (prev + [m])[|prev|] == m;
        }
    }
  }

  /** One value per distinct id, and exactly the ids the entries carry. */
  lemma FoldOnePerId(es: seq<Option<MovieItem>>)
    ensures forall p, q :: 0 <= p < q < |Fold(es)| ==> Fold(es)[p].id != Fold(es)[q].id
    ensures forall id :: id in IdsOf(Fold(es)) <==> exists j :: 0 <= j < |es| && HasId(es[j], id)
  {
    var r := Fold(es);
    FoldFirstSeenOrder(es);
    forall id ensures id in IdsOf(r) <==> exists j :: 0 <= j < |es| && HasId(es[j], id) {
      if id in IdsOf(r) {
        FoldIdsOccur(es, id);
        assert HasId(es[FirstIndex(es, id)], id);
      }
      if exists j :: 0 <= j < |es| && HasId(es[j], id) {
        var j :| 0 <= j < |es| && HasId(es[j], id);
        FoldComplete(es, j);
      }
    }
  }
}
