/**
 * The display order of a document's collaborators: online ones first (once
 * presence is known), then owners, then by name, then by id.
 */
module SortedCollaborators {
  import opened CollabTypes

  /**
   * `String.prototype.localeCompare` under the user's locale: negative,
   * zero or positive. Which collation it is stays open; `IsCollation` states
   * what the sort relies on.
   */
  type Collation = (string, string) -> int

  /** A consistent comparison: antisymmetric in sign, and its "not after" relation transitive. */
  ghost predicate IsCollation(lc: Collation) {
    && (forall a, b :: lc(a, b) < 0 <==> lc(b, a) > 0)
    && (forall a, b, c :: lc(a, b) <= 0 && lc(b, c) <= 0 ==> lc(a, c) <= 0)
  }

  /** 0 for an online collaborator, 1 for an offline one. */
  function OnlineRank(c: Collaborator, onlineIds: set<string>): int {
    if c.id in onlineIds then 0 else 1
  }

  /** 0 for an owner, 1 for anyone else. */
  function OwnerRank(c: Collaborator): int {
    if c.role == Owner then 0 else 1
  }

  /**
   * The comparator handed to `Array.prototype.sort`, returning what it
   * returns: once presence is known an online collaborator goes first (-1
   * or 1), then an owner goes first (-1 or 1), then the names are collated,
   * and the ids break a tie in name.
   */
  function Compare(a: Collaborator, b: Collaborator, onlineIds: set<string>, awarenessReady: bool, lc: Collation): (r: int)
    ensures awarenessReady && (a.id in onlineIds) != (b.id in onlineIds) ==>
      r == (if a.id in onlineIds then -1 else 1)
    ensures (!awarenessReady || (a.id in onlineIds <==> b.id in onlineIds)) && (a.role == Owner) != (b.role == Owner) ==>
      r == (if a.role == Owner then -1 else 1)
    ensures (!awarenessReady || (a.id in onlineIds <==> b.id in onlineIds)) && (a.role == Owner <==> b.role == Owner) ==>
      && (lc(a.name, b.name) != 0 ==> r == lc(a.name, b.name))
      && (lc(a.name, b.name) == 0 ==> r == lc(a.id, b.id))
  {
    if awarenessReady && OnlineRank(a, onlineIds) != OnlineRank(b, onlineIds) then
      OnlineRank(a, onlineIds) - OnlineRank(b, onlineIds)
    else if OwnerRank(a) != OwnerRank(b) then OwnerRank(a) - OwnerRank(b)
    else if lc(a.name, b.name) != 0 then lc(a.name, b.name)
    else lc(a.id, b.id)
  }

  /** The comparator is antisymmetric in sign. */
  lemma CompareAntisymmetric(a: Collaborator, b: Collaborator, onlineIds: set<string>, awarenessReady: bool, lc: Collation)
    requires IsCollation(lc)
    ensures Compare(a, b, onlineIds, awarenessReady, lc) < 0 <==> Compare(b, a, onlineIds, awarenessReady, lc) > 0
  {
    assert lc(a.name, b.name) < 0 <==> lc(b.name, a.name) > 0;
    assert lc(b.name, a.name) < 0 <==> lc(a.name, b.name) > 0;
    assert lc(a.id, b.id) < 0 <==> lc(b.id, a.id) > 0;
  }

  /** "Not after" under the comparator is transitive. */
  lemma CompareTransitive(a: Collaborator, b: Collaborator, c: Collaborator,
                          onlineIds: set<string>, awarenessReady: bool, lc: Collation)
    requires IsCollation(lc)
    requires Compare(a, b, onlineIds, awarenessReady, lc) <= 0 && Compare(b, c, onlineIds, awarenessReady, lc) <= 0
    ensures Compare(a, c, onlineIds, awarenessReady, lc) <= 0
  {
    var ab, bc := lc(a.name, b.name), lc(b.name, c.name);
    assert lc(a.name, c.name) <= 0 || !(ab <= 0 && bc <= 0);
    assert lc(c.name, a.name) > 0 <==> lc(a.name, c.name) < 0;
    assert lc(b.name, a.name) > 0 <==> ab < 0;
    assert lc(c.name, b.name) > 0 <==> bc < 0;
    if ab <= 0 && bc <= 0 && lc(a.name, c.name) == 0 {
      // a and c tie on name, so a, b and c all tie
      assert lc(c.name, a.name) <= 0;
      assert lc(c.name, b.name) <= 0;
      assert lc(b.name, a.name) <= 0;
    }
    assert lc(a.id, b.id) <= 0 && lc(b.id, c.id) <= 0 ==> lc(a.id, c.id) <= 0;
  }

  /** Every element is "not after" each later one. */
  predicate Sorted(s: seq<Collaborator>, onlineIds: set<string>, awarenessReady: bool, lc: Collation) {
    forall i, j :: 0 <= i < j < |s| ==> Compare(s[i], s[j], onlineIds, awarenessReady, lc) <= 0
  }

  /** Place `x` after every element not after it and before the first one after it. */
  function Insert(t: seq<Collaborator>, x: Collaborator, onlineIds: set<string>, awarenessReady: bool, lc: Collation)
    : (r: seq<Collaborator>)
    ensures multiset(r) == multiset(t) + multiset{x}
    decreases |t|
  {
    if |t| == 0 then [x]
    else if Compare(x, t[0], onlineIds, awarenessReady, lc) < 0 then [x] + t
    else
      assert t == [t[0]] + t[1..];
      [t[0]] + Insert(t[1..], x, onlineIds, awarenessReady, lc)
  }

  /**
   * `[...collabs].sort(cmp)`: a stable sort of a copy, modelled as an
   * insertion sort that inserts each element after its equals.
   */
  function Sort(s: seq<Collaborator>, onlineIds: set<string>, awarenessReady: bool, lc: Collation)
    : (r: seq<Collaborator>)
    ensures multiset(r) == multiset(s)
    decreases |s|
  {
    if |s| == 0 then []
    else
      assert s == s[..|s| - 1] + [s[|s| - 1]];
      Insert(Sort(s[..|s| - 1], onlineIds, awarenessReady, lc), s[|s| - 1], onlineIds, awarenessReady, lc)
  }

  lemma {:induction false} InsertSorted(t: seq<Collaborator>, x: Collaborator, onlineIds: set<string>,
                                        awarenessReady: bool, lc: Collation)
    requires IsCollation(lc) && Sorted(t, onlineIds, awarenessReady, lc)
    ensures Sorted(Insert(t, x, onlineIds, awarenessReady, lc), onlineIds, awarenessReady, lc)
    decreases |t|
  {
    if |t| == 0 {
      assert Insert(t, x, onlineIds, awarenessReady, lc) == [x];
    } else if Compare(x, t[0], onlineIds, awarenessReady, lc) < 0 {
      forall j | 0 <= j < |t|
        ensures Compare(x, t[j], onlineIds, awarenessReady, lc) <= 0
      {
        if j > 0 {
          CompareTransitive(x, t[0], t[j], onlineIds, awarenessReady, lc);
        }
      }
      SortedCons(x, t, onlineIds, awarenessReady, lc);
    } else {
      var rest := Insert(t[1..], x, onlineIds, awarenessReady, lc);
      InsertSorted(t[1..], x, onlineIds, awarenessReady, lc);
      CompareAntisymmetric(x, t[0], onlineIds, awarenessReady, lc);
      InsertKeepsLowerBound(t[0], t[1..], x, onlineIds, awarenessReady, lc);
      SortedCons(t[0], rest, onlineIds, awarenessReady, lc);
    }
  }

  /** A sorted sequence stays sorted behind an element not after any of its elements. */
  lemma SortedCons(h: Collaborator, t: seq<Collaborator>, onlineIds: set<string>, awarenessReady: bool, lc: Collation)
    requires Sorted(t, onlineIds, awarenessReady, lc)
    requires forall k :: 0 <= k < |t| ==> Compare(h, t[k], onlineIds, awarenessReady, lc) <= 0
    ensures Sorted([h] + t, onlineIds, awarenessReady, lc)
  {
    var r := [h] + t;
    forall i, j | 0 <= i < j < |r|
      ensures Compare(r[i], r[j], onlineIds, awarenessReady, lc) <= 0
    {
      assert r[j] == t[j - 1];
      if i > 0 {
        assert r[i] == t[i - 1];
      }
    }
  }

  /** An element not after `x` nor after any element of `t` is not after any element of their insertion. */
  lemma InsertKeepsLowerBound(h: Collaborator, t: seq<Collaborator>, x: Collaborator, onlineIds: set<string>,
                              awarenessReady: bool, lc: Collation)
    requires Compare(h, x, onlineIds, awarenessReady, lc) <= 0
    requires forall k :: 0 <= k < |t| ==> Compare(h, t[k], onlineIds, awarenessReady, lc) <= 0
    ensures forall j :: 0 <= j < |Insert(t, x, onlineIds, awarenessReady, lc)| ==>
      Compare(h, Insert(t, x, onlineIds, awarenessReady, lc)[j], onlineIds, awarenessReady, lc) <= 0
  {
    var r := Insert(t, x, onlineIds, awarenessReady, lc);
    forall j | 0 <= j < |r|
      ensures Compare(h, r[j], onlineIds, awarenessReady, lc) <= 0
    {
      assert r[j] in multiset(r);
      if r[j] != x {
        assert r[j] in multiset(t);
        var k :| 0 <= k < |t| && t[k] == r[j];
      }
    }
  }

  /** The sorted copy is in comparator order. */
  lemma {:induction false} SortSorted(s: seq<Collaborator>, onlineIds: set<string>, awarenessReady: bool, lc: Collation)
    requires IsCollation(lc)
    ensures Sorted(Sort(s, onlineIds, awarenessReady, lc), onlineIds, awarenessReady, lc)
    decreases |s|
  {
    if |s| > 0 {
      SortSorted(s[..|s| - 1], onlineIds, awarenessReady, lc);
      InsertSorted(Sort(s[..|s| - 1], onlineIds, awarenessReady, lc), s[|s| - 1], onlineIds, awarenessReady, lc);
    }
  }

  /** `useSortedCollaborators`: the collaborators in display order; the input is left as it is. */
  function SortedForDisplay(collabs: seq<Collaborator>, onlineIds: set<string>, awarenessReady: bool, lc: Collation)
    : (r: seq<Collaborator>)
    requires IsCollation(lc)
    ensures multiset(r) == multiset(collabs)
    ensures Sorted(r, onlineIds, awarenessReady, lc)
  {
    SortSorted(collabs, onlineIds, awarenessReady, lc);
    Sort(collabs, onlineIds, awarenessReady, lc)
  }

  /** Once presence is known, no offline collaborator precedes an online one. */
  lemma OnlineFirst(r: seq<Collaborator>, onlineIds: set<string>, lc: Collation, i: int, j: int)
    requires Sorted(r, onlineIds, true, lc)
    requires 0 <= i < j < |r| && r[j].id in onlineIds
    ensures r[i].id in onlineIds
  {
    assert Compare(r[i], r[j], onlineIds, true, lc) <= 0;
  }

  /** Within one presence group (or before presence is known), owners come first. */
  lemma OwnersFirst(r: seq<Collaborator>, onlineIds: set<string>, awarenessReady: bool, lc: Collation, i: int, j: int)
    requires Sorted(r, onlineIds, awarenessReady, lc)
    requires 0 <= i < j < |r| && r[j].role == Owner
    requires awarenessReady ==> (r[i].id in onlineIds <==> r[j].id in onlineIds)
    ensures r[i].role == Owner
  {
    assert Compare(r[i], r[j], onlineIds, awarenessReady, lc) <= 0;
  }

  /** Among equals in presence and ownership, names ascend, and equal names order by id. */
  lemma NameThenId(r: seq<Collaborator>, onlineIds: set<string>, awarenessReady: bool, lc: Collation, i: int, j: int)
    requires Sorted(r, onlineIds, awarenessReady, lc)
    requires 0 <= i < j < |r|
    requires awarenessReady ==> (r[i].id in onlineIds <==> r[j].id in onlineIds)
    requires (r[i].role == Owner) == (r[j].role == Owner)
    ensures lc(r[i].name, r[j].name) <= 0
    ensures lc(r[i].name, r[j].name) == 0 ==> lc(r[i].id, r[j].id) <= 0
  {
    assert Compare(r[i], r[j], onlineIds, awarenessReady, lc) <= 0;
  }

  /** Before presence is known, the online set has no effect on the order. */
  lemma {:induction false} NotReadyIgnoresPresence(s: seq<Collaborator>, on1: set<string>, on2: set<string>, lc: Collation)
    ensures Sort(s, on1, false, lc) == Sort(s, on2, false, lc)
    decreases |s|
  {
    if |s| > 0 {
      NotReadyIgnoresPresence(s[..|s| - 1], on1, on2, lc);
      InsertIgnoresPresence(Sort(s[..|s| - 1], on1, false, lc), s[|s| - 1], on1, on2, lc);
    }
  }

  lemma {:induction false} InsertIgnoresPresence(t: seq<Collaborator>, x: Collaborator, on1: set<string>, on2: set<string>,
                                                 lc: Collation)
    ensures Insert(t, x, on1, false, lc) == Insert(t, x, on2, false, lc)
    decreases |t|
  {
    if |t| > 0 {
      InsertIgnoresPresence(t[1..], x, on1, on2, lc);
    }
  }
}
