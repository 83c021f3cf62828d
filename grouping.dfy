/** The grouped strategy of `fetchDetails`, seen through what it reads from
    each element of the page: a `SessionBox` contributes its season name,
    any other element at most one episode. How the name and the episode are
    computed from the element is in module Details; here the elements are
    already reduced to those marks. */
module Grouping {
  import opened Wrappers
  import opened Types
  import opened Seasons

  /** What the box loop sees of one element: a box with its trimmed text,
      or another element with the episode pushed for it, if any. */
  datatype Mark =
    | Box(name: string)
    | Item(episode: Option<Episode>)

  /** The episodes picked up by walking `nextElementSibling` from index `j`
      until the next box or the end. */
  function Walk(ms: seq<Mark>, j: nat): seq<Episode>
    decreases |ms| - j
  {
    if j >= |ms| || ms[j].Box? then []
    else (if ms[j].episode.Some? then [ms[j].episode.value] else []) + Walk(ms, j + 1)
  }

  /** The result after the boxes among the first `n` elements: each box
      assigns its name the episodes of its walk. */
  function Grouped(ms: seq<Mark>, n: nat): SeasonData
    requires n <= |ms|
  {
    if n == 0 then Empty
    else
      var prev := Grouped(ms, n - 1);
      if ms[n - 1].Box? then Put(prev, ms[n - 1].name, Walk(ms, n)) else prev
  }

  /** One more element: a box assigns its name the walk after it, anything
      else changes nothing. */
  lemma GroupedNext(ms: seq<Mark>, n: nat)
    requires n < |ms|
    ensures ms[n].Box? ==> Grouped(ms, n + 1) == Put(Grouped(ms, n), ms[n].name, Walk(ms, n + 1))
    ensures ms[n].Item? ==> Grouped(ms, n + 1) == Grouped(ms, n)
  {
  }

  /** One step of the walk at an element that is not a box. */
  lemma WalkStep(ms: seq<Mark>, j: nat)
    requires j < |ms| && ms[j].Item?
    ensures ms[j].episode.Some? ==> Walk(ms, j) == [ms[j].episode.value] + Walk(ms, j + 1)
    ensures ms[j].episode.None? ==> Walk(ms, j) == Walk(ms, j + 1)
  {
  }

  /** The names of the boxes among the first `n` elements. */
  function BoxNames(ms: seq<Mark>, n: nat): seq<string>
    requires n <= |ms|
  {
    if n == 0 then []
    else BoxNames(ms, n - 1) + if ms[n - 1].Box? then [ms[n - 1].name] else []
  }

  /** `s` without repetitions, each element where it first occurs. */
  function Dedup(s: seq<string>): seq<string>
    decreases |s|
  {
    if s == [] then []
    else
      var p := Dedup(s[..|s| - 1]);
      if s[|s| - 1] in p then p else p + [s[|s| - 1]]
  }

  lemma DedupSnoc(s: seq<string>, x: string)
    ensures Dedup(s + [x]) == if x in Dedup(s) then Dedup(s) else Dedup(s) + [x]
  {
    assert (s + [x])[..|s|] == s;
  }

  /** `Dedup(s)` holds the elements of `s`, each once. */
  lemma {:induction false} DedupMembers(s: seq<string>)
    ensures forall x :: x in Dedup(s) <==> x in s
    ensures forall i, j :: 0 <= i < j < |Dedup(s)| ==> Dedup(s)[i] != Dedup(s)[j]
    decreases |s|
  {
    if s != [] {
      var init := s[..|s| - 1];
      DedupMembers(init);
      assert s == init + [s[|s| - 1]];
    }
  }

  /** The grouped result is a well-formed object. */
  lemma {:induction false} GroupedValid(ms: seq<Mark>, n: nat)
    requires n <= |ms|
    ensures Valid(Grouped(ms, n))
  {
    if n > 0 {
      GroupedValid(ms, n - 1);
      GroupedNext(ms, n - 1);
      if ms[n - 1].Box? {
        PutValid(Grouped(ms, n - 1), ms[n - 1].name, Walk(ms, n));
      }
    }
  }

  /** The grouped result has one key per distinct box name, even for boxes
      that get no episode, in the order in which the names first appear. */
  lemma {:induction false} GroupedKeys(ms: seq<Mark>, n: nat)
    requires n <= |ms|
    ensures Grouped(ms, n).keys == Dedup(BoxNames(ms, n))
  {
    if n > 0 {
      GroupedKeys(ms, n - 1);
      GroupedNext(ms, n - 1);
      if ms[n - 1].Box? {
        assert BoxNames(ms, n) == BoxNames(ms, n - 1) + [ms[n - 1].name];
        DedupSnoc(BoxNames(ms, n - 1), ms[n - 1].name);
      } else {
        assert BoxNames(ms, n) == BoxNames(ms, n - 1);
      }
    }
  }

  /** An element that is not a box with the given name leaves that name's
      season as it was. */
  lemma GroupedStepKeeps(ms: seq<Mark>, n: nat, name: string)
    requires 0 < n <= |ms|
    requires ms[n - 1] != Box(name)
    ensures Lookup(Grouped(ms, n), name) == Lookup(Grouped(ms, n - 1), name)
  {
    GroupedNext(ms, n - 1);
    if ms[n - 1].Box? {
      LookupPut(Grouped(ms, n - 1), ms[n - 1].name, Walk(ms, n), name);
    }
  }

  /** A name whose last box is at `i` holds exactly the episodes of the walk
      from that box: an earlier box with the same name is reset. */
  lemma {:induction false} GroupedLastBoxWins(ms: seq<Mark>, i: nat, n: nat)
    requires i < n <= |ms| && ms[i].Box?
    requires forall k :: i < k < n ==> ms[k] != ms[i]
    ensures Lookup(Grouped(ms, n), ms[i].name) == Some(Walk(ms, i + 1))
  {
    if n == i + 1 {
      GroupedNext(ms, i);
      LookupPut(Grouped(ms, i), ms[i].name, Walk(ms, i + 1), ms[i].name);
    } else {
      GroupedLastBoxWins(ms, i, n - 1);
      GroupedStepKeeps(ms, n, ms[i].name);
    }
  }

  /** Index of the first box at or after `j`, or `|ms|`. */
  function NextBox(ms: seq<Mark>, j: nat): (k: nat)
    requires j <= |ms|
    ensures j <= k <= |ms|
    ensures k < |ms| ==> ms[k].Box?
    ensures forall m :: j <= m < k ==> ms[m].Item?
    decreases |ms| - j
  {
    if j == |ms| || ms[j].Box? then j else NextBox(ms, j + 1)
  }

  /** The episodes of a run of elements, in order. */
  function Episodes(xs: seq<Mark>): seq<Episode>
    decreases |xs|
  {
    if xs == [] then []
    else (if xs[0].Item? && xs[0].episode.Some? then [xs[0].episode.value] else []) + Episodes(xs[1..])
  }

  /** The walk from `j` yields exactly the episodes, in order, of the
      elements between `j` and the next box. */
  lemma {:induction false} WalkIsSegment(ms: seq<Mark>, j: nat)
    requires j <= |ms|
    ensures Walk(ms, j) == Episodes(ms[j..NextBox(ms, j)])
    decreases |ms| - j
  {
    if j < |ms| && ms[j].Item? {
      WalkIsSegment(ms, j + 1);
      assert ms[j..NextBox(ms, j)][1..] == ms[j + 1..NextBox(ms, j + 1)];
    }
  }

  /** Two boxes with an episode and a non-playable element between them:
      two keys in box order, the second with no episode. */
  lemma TwoBoxes(n1: string, n2: string, e: Episode)
    requires n1 != n2
    ensures Grouped([Box(n1), Item(Some(e)), Item(None), Box(n2)], 4)
      == SeasonData([n1, n2], map[n1 := [e], n2 := []])
  {
    var ms := [Box(n1), Item(Some(e)), Item(None), Box(n2)];
    assert Walk(ms, 3) == [];
    assert Walk(ms, 2) == [];
    assert Walk(ms, 1) == [e];
    assert Grouped(ms, 1) == Put(Empty, n1, [e]);
    assert Grouped(ms, 3) == Grouped(ms, 1) by {
      GroupedNext(ms, 1);
      GroupedNext(ms, 2);
    }
    GroupedNext(ms, 3);
    assert Walk(ms, 4) == [];
  }

  /** One box followed by one episode. */
  lemma OneBox(n: string, e: Episode)
    ensures Grouped([Box(n), Item(Some(e))], 2) == SeasonData([n], map[n := [e]])
  {
    var ms := [Box(n), Item(Some(e))];
    assert Walk(ms, 1) == [e];
    assert Grouped(ms, 1) == Put(Empty, n, [e]);
    GroupedNext(ms, 1);
  }
}
