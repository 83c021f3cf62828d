/** `SeasonData` (types.ts): a JavaScript object from season name to a list
    of episodes. Its keys keep the order in which they were first assigned;
    assigning an existing key keeps its place and replaces its value. */
module Seasons {
  import opened Wrappers
  import opened Types

  /** The object as its keys, in insertion order, and the list stored under
      each key. */
  datatype SeasonData = SeasonData(keys: seq<string>, lists: map<string, seq<Episode>>)

  /** `{}`. */
  const Empty := SeasonData([], map[])

  /** The keys are exactly the names that hold a list, and no name appears
      twice among them. */
  predicate Valid(d: SeasonData) {
    (forall k :: k in d.lists ==> k in d.keys)
    && (forall i :: 0 <= i < |d.keys| ==> d.keys[i] in d.lists)
    && (forall i, j :: 0 <= i < j < |d.keys| ==> d.keys[i] != d.keys[j])
  }

  /** `d[key]`, undefined when the key is absent. */
  function Lookup(d: SeasonData, key: string): Option<seq<Episode>> {
    if key in d.lists then Some(d.lists[key]) else None
  }

  /** `d[key] = episodes`: an existing key keeps its position, a new key is
      appended. */
  function Put(d: SeasonData, key: string, episodes: seq<Episode>): SeasonData {
    SeasonData(if key in d.keys then d.keys else d.keys + [key], d.lists[key := episodes])
  }

  /** `d[key].push(e)`; the key has been assigned before. */
  function Push(d: SeasonData, key: string, e: Episode): SeasonData
    requires key in d.lists
  {
    Put(d, key, d.lists[key] + [e])
  }

  /** An assignment keeps the object well formed; the key list grows by the
      key exactly when the key is new. */
  lemma PutValid(d: SeasonData, key: string, episodes: seq<Episode>)
    requires Valid(d)
    ensures Valid(Put(d, key, episodes))
  {
    var r := Put(d, key, episodes);
    if key !in d.keys {
      forall i, j | 0 <= i < j < |r.keys| ensures r.keys[i] != r.keys[j] {
        if j == |d.keys| {
          assert r.keys[i] == d.keys[i];
        }
      }
    }
  }

  /** Reading after an assignment: the assigned key has the new list, every
      other key is unchanged. */
  lemma LookupPut(d: SeasonData, key: string, episodes: seq<Episode>, other: string)
    ensures Lookup(Put(d, key, episodes), other) == if other == key then Some(episodes) else Lookup(d, other)
  {
  }

  /** Assigning a key twice is the same as assigning it the second value. */
  lemma PutPut(d: SeasonData, key: string, a: seq<Episode>, b: seq<Episode>)
    ensures Put(Put(d, key, a), key, b) == Put(d, key, b)
  {
    assert d.lists[key := a][key := b] == d.lists[key := b];
  }

  /** Pushing onto a key just assigned extends the assigned list. */
  lemma PushAfterPut(d: SeasonData, key: string, eps: seq<Episode>, e: Episode)
    ensures key in Put(d, key, eps).lists
    ensures Push(Put(d, key, eps), key, e) == Put(d, key, eps + [e])
  {
    PutPut(d, key, eps, eps + [e]);
  }

  /** A season filled from a list of optional episodes: the next option
      pushes its episode if it has one and leaves the season as it is
      otherwise. */
  lemma PutPresentNext(key: string, os: seq<Option<Episode>>, k: nat)
    requires k < |os|
    ensures key in Put(Empty, key, Present(os, k)).lists
    ensures os[k].Some? ==>
      Push(Put(Empty, key, Present(os, k)), key, os[k].value) == Put(Empty, key, Present(os, k + 1))
    ensures os[k].None? ==> Put(Empty, key, Present(os, k)) == Put(Empty, key, Present(os, k + 1))
  {
    if os[k].Some? {
      assert Present(os, k + 1) == Present(os, k) + [os[k].value];
      PushAfterPut(Empty, key, Present(os, k), os[k].value);
    } else {
      assert Present(os, k + 1) == Present(os, k) + [];
      assert Present(os, k) + [] == Present(os, k);
    }
  }
}
