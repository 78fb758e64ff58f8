/** The page list's edits — delete a page, restore hidden pages, reorder — and their undo
    history: what each edit does to the visible pages, the hidden pages and the annotations,
    the entry it records, and what undo and redo do with that entry. */
module PageHistory {
  import opened Lists
  import opened Annotations

  /** One history entry: `{ action, data }`. */
  datatype Entry =
    | DeleteEntry(page: int, annotations: seq<Annotation>)
    | ReorderEntry(prevVisible: seq<int>, newVisible: seq<int>)
    | RestoreEntry(pages: seq<int>)

  /** The viewer state the history edits. `visible` is None before a document is open. */
  datatype Doc = Doc(visible: Option<seq<int>>, hidden: seq<int>, annotations: seq<Annotation>)

  /** No page is both shown and hidden. */
  predicate Disjoint(d: Doc)
  {
    d.visible.Some? ==> forall p :: p in d.visible.value ==> p !in d.hidden
  }

  /** deletePage once its guards pass: page `n` leaves the visible list (every occurrence),
      joins the hidden list, kept sorted without repeats, and its annotations go. */
  function Deleted(d: Doc, n: int): (r: Doc)
    requires d.visible.Some?
    ensures r.visible.Some?
    ensures forall p :: p in r.visible.value <==> p in d.visible.value && p != n
    ensures forall p :: p != n ==> multiset(r.visible.value)[p] == multiset(d.visible.value)[p]
    ensures Selects(r.visible.value, d.visible.value, Differs(n))
    ensures StrictlySorted(r.hidden) && forall p :: p in r.hidden <==> p in d.hidden || p == n
    ensures forall a :: a in r.annotations <==> a in d.annotations && a.page != n
    ensures Selects(r.annotations, d.annotations, NotOnPage(n))
    ensures Disjoint(d) ==> Disjoint(r)
  {
    var v := d.visible.value;
    FilterExact(v, Differs(n));
    forall p | p != n ensures multiset(RemoveAll(v, n))[p] == multiset(v)[p] {
      FilterCount(v, Differs(n), p);
    }
    Doc(Some(RemoveAll(v, n)), SortedDistinct(d.hidden + [n]), Cleared(d.annotations, n))
  }

  /** The entry deletePage records: the page and the annotations it had. */
  function DeleteRecord(d: Doc, n: int): (e: Entry)
    ensures e.DeleteEntry? && e.page == n
    ensures forall a :: a in e.annotations <==> a in d.annotations && a.page == n
    ensures Selects(e.annotations, d.annotations, OnPage(n))
  {
    DeleteEntry(n, Items(d.annotations, n))
  }

  /** `nextPages[Math.max(0, idx - 1)] ?? nextPages[0]`: where the viewer goes after deleting
      the page it shows. */
  function Candidate(next: seq<int>, idx: int): (r: Option<int>)
    ensures r.None? <==> next == []
    ensures r.Some? ==> r.value in next
  {
    var k := if idx - 1 > 0 then idx - 1 else 0;
    if k < |next| then Some(next[k]) else if next != [] then Some(next[0]) else None
  }

  /** After deleting the page on screen the viewer shows the page that was just before it,
      or the new first page when the deleted one was first. */
  lemma CandidateBefore(v: seq<int>, n: int)
    requires n in v
    ensures var idx := IndexOf(v, n);
      (idx >= 1 ==> Candidate(RemoveAll(v, n), idx) == Some(v[idx - 1])) &&
      (idx == 0 && RemoveAll(v, n) != [] ==> Candidate(RemoveAll(v, n), idx) == Some(RemoveAll(v, n)[0]))
  {
    var idx := IndexOf(v, n);
    var before := v[..idx];
    assert v == before + v[idx..];
    FilterAppend(before, v[idx..], Differs(n));
    assert forall x :: x in before ==> Differs(n)(x);
    FilterKeepsAll(before, Differs(n));
    var next := RemoveAll(v, n);
    assert next == before + Filter(v[idx..], Differs(n));
    if idx >= 1 {
      assert next[idx - 1] == v[idx - 1];
    }
  }

  /** `pages.filter(p => !visiblePages.includes(p))`: the requested pages not already shown. */
  function ToRestore(pages: seq<int>, v: seq<int>): (t: seq<int>)
    ensures forall p :: p in t <==> p in pages && p !in v
    ensures forall p :: p !in v ==> multiset(t)[p] == multiset(pages)[p]
    ensures Selects(t, pages, NotIn(v))
  {
    FilterExact(pages, NotIn(v));
    forall p | p !in v ensures multiset(Without(pages, v))[p] == multiset(pages)[p] {
      FilterCount(pages, NotIn(v), p);
    }
    Without(pages, v)
  }

  /** restorePagesAtEnd once its guards pass: the pages `t` follow the visible ones and are
      no longer hidden. */
  function RestoredAtEnd(d: Doc, t: seq<int>): (r: Doc)
    requires d.visible.Some?
    ensures r.visible.Some? && |r.visible.value| == |d.visible.value| + |t|
    ensures r.visible.value[..|d.visible.value|] == d.visible.value && r.visible.value[|d.visible.value|..] == t
    ensures forall p :: p in r.hidden <==> p in d.hidden && p !in t
    ensures Selects(r.hidden, d.hidden, NotIn(t))
    ensures r.annotations == d.annotations
    ensures Disjoint(d) ==> Disjoint(r)
  {
    FilterExact(d.hidden, NotIn(t));
    Doc(Some(d.visible.value + t), Without(d.hidden, t), d.annotations)
  }

  /** restorePagesAtPosition once its guards pass: the pages `t` are spliced in at
      `position` (negative counts from the end, both ends clamped). */
  function RestoredAt(d: Doc, t: seq<int>, position: int): (r: Doc)
    requires d.visible.Some?
    ensures r.visible.Some?
    ensures var v, k := d.visible.value, SpliceStart(position, |d.visible.value|);
      r.visible.value == v[..k] + t + v[k..]
    ensures forall p :: p in r.hidden <==> p in d.hidden && p !in t
    ensures Selects(r.hidden, d.hidden, NotIn(t))
    ensures r.annotations == d.annotations
    ensures Disjoint(d) ==> Disjoint(r)
  {
    var v := d.visible.value;
    FilterExact(d.hidden, NotIn(t));
    var r := Doc(Some(InsertAt(v, position, t)), Without(d.hidden, t), d.annotations);
    assert forall p :: p in r.visible.value ==> p in v || p in t;
    r
  }

  /** undo: the recorded edit taken back. A deleted page comes back at the end with its
      annotations; a reorder goes back to the old order; restored pages are hidden again. */
  function Undone(d: Doc, e: Entry): (r: Doc)
    ensures r.visible.Some?
    ensures e.DeleteEntry? ==>
      e.page in r.visible.value && e.page !in r.hidden && multiset(r.annotations) == multiset(d.annotations) + multiset(e.annotations)
    ensures e.DeleteEntry? ==>
      r.visible.value == (if d.visible.Some? then d.visible.value else []) + [e.page] &&
      r.annotations == d.annotations + e.annotations &&
      Selects(r.hidden, d.hidden, Differs(e.page))
    ensures e.ReorderEntry? ==> r == d.(visible := Some(e.prevVisible))
    ensures e.RestoreEntry? ==>
      (forall p :: p in e.pages ==> p !in r.visible.value && p in r.hidden) && r.annotations == d.annotations
    ensures e.RestoreEntry? ==>
      r.hidden == d.hidden + e.pages &&
      Selects(r.visible.value, if d.visible.Some? then d.visible.value else [], NotIn(e.pages))
    ensures !e.ReorderEntry? && Disjoint(d) ==> Disjoint(r)
  {
    match e
    case DeleteEntry(page, anns) =>
      FilterExact(d.hidden, Differs(page));
      Doc(Some(if d.visible.Some? then d.visible.value + [page] else [page]), RemoveAll(d.hidden, page), d.annotations + anns)
    case ReorderEntry(prev, _) => d.(visible := Some(prev))
    case RestoreEntry(pages) =>
      FilterExact(if d.visible.Some? then d.visible.value else [], NotIn(pages));
      Doc(Some(if d.visible.Some? then Without(d.visible.value, pages) else []), d.hidden + pages, d.annotations)
  }

  /** redo: the recorded edit done again. A re-deleted page is appended to the hidden list
      (not re-sorted); re-restored pages are appended to the visible list. */
  function Redone(d: Doc, e: Entry): (r: Doc)
    ensures r.visible.Some?
    ensures e.DeleteEntry? ==>
      e.page !in r.visible.value && r.hidden == d.hidden + [e.page] && Items(r.annotations, e.page) == []
    ensures e.DeleteEntry? ==>
      Selects(r.visible.value, if d.visible.Some? then d.visible.value else [], Differs(e.page)) &&
      Selects(r.annotations, d.annotations, NotOnPage(e.page))
    ensures e.ReorderEntry? ==> r == d.(visible := Some(e.newVisible))
    ensures e.RestoreEntry? ==>
      (forall p :: p in e.pages ==> p in r.visible.value && p !in r.hidden) && r.annotations == d.annotations
    ensures e.RestoreEntry? ==>
      r.visible.value == (if d.visible.Some? then d.visible.value else []) + e.pages &&
      Selects(r.hidden, d.hidden, NotIn(e.pages))
    ensures !e.ReorderEntry? && Disjoint(d) ==> Disjoint(r)
  {
    match e
    case DeleteEntry(page, _) =>
      FilterExact(if d.visible.Some? then d.visible.value else [], Differs(page));
      Doc(Some(if d.visible.Some? then RemoveAll(d.visible.value, page) else []), d.hidden + [page], Cleared(d.annotations, page))
    case ReorderEntry(_, next) => d.(visible := Some(next))
    case RestoreEntry(pages) =>
      FilterExact(d.hidden, NotIn(pages));
      Doc(Some(if d.visible.Some? then d.visible.value + pages else pages), Without(d.hidden, pages), d.annotations)
  }

  /** Undoing a delete brings back every annotation the page had (as a multiset: they come
      back at the end), shows the page again, and — when the hidden list was sorted and did
      not hold the page — leaves the hidden list as it was. */
  lemma UndoDelete(d: Doc, n: int)
    requires d.visible.Some? && n in d.visible.value
    ensures var u := Undone(Deleted(d, n), DeleteRecord(d, n));
      multiset(u.annotations) == multiset(d.annotations) &&
      (forall p :: p in u.visible.value <==> p in d.visible.value) &&
      (StrictlySorted(d.hidden) && n !in d.hidden ==> u.hidden == d.hidden)
  {
    var u := Undone(Deleted(d, n), DeleteRecord(d, n));
    ClearedAndItems(d.annotations, n);
    if StrictlySorted(d.hidden) && n !in d.hidden {
      var s := SortedDistinct(d.hidden + [n]);
      FilterSorted(s, Differs(n));
      SortedUnique(u.hidden, d.hidden);
    }
  }

  /** Redoing an undone delete gives back the visible pages and annotations the delete
      left; only the hidden list differs, having the page appended rather than sorted in. */
  lemma RedoDelete(d: Doc, n: int)
    requires d.visible.Some?
    ensures var e := DeleteRecord(d, n);
      var u := Undone(Deleted(d, n), e);
      var r := Redone(u, e);
      r.visible == Deleted(d, n).visible && r.annotations == Deleted(d, n).annotations && r.hidden == u.hidden + [n]
  {
    var e := DeleteRecord(d, n);
    var d1 := Deleted(d, n);
    var v1 := d1.visible.value;
    var u := Undone(d1, e);
    assert u.visible.value == v1 + [n];
    FilterAppend(v1, [n], Differs(n));
    FilterKeepsAll(v1, Differs(n));
    FilterDropsAll([n], Differs(n));
    assert RemoveAll(u.visible.value, n) == v1;
    assert u.annotations == d1.annotations + e.annotations;
    FilterAppend(d1.annotations, e.annotations, NotOnPage(n));
    FilterKeepsAll(d1.annotations, NotOnPage(n));
    FilterDropsAll(e.annotations, NotOnPage(n));
    assert Cleared(u.annotations, n) == d1.annotations;
  }

  /** Undoing a restore at the end gives back the visible list as it was. */
  lemma UndoRestoreAtEnd(d: Doc, pages: seq<int>)
    requires d.visible.Some?
    ensures var t := ToRestore(pages, d.visible.value);
      var u := Undone(RestoredAtEnd(d, t), RestoreEntry(t));
      u.visible == d.visible && (forall p :: p in u.hidden <==> p in d.hidden || p in t)
  {
    var v := d.visible.value;
    var t := ToRestore(pages, v);
    AppendWithout(v, t);
  }

  /** Undoing a restore at a position gives back the visible list as it was. */
  lemma UndoRestoreAt(d: Doc, pages: seq<int>, position: int)
    requires d.visible.Some?
    ensures var t := ToRestore(pages, d.visible.value);
      var u := Undone(RestoredAt(d, t, position), RestoreEntry(t));
      u.visible == d.visible && (forall p :: p in u.hidden <==> p in d.hidden || p in t)
  {
    var t := ToRestore(pages, d.visible.value);
    InsertAtWithout(d.visible.value, position, t);
  }

  /** The entry of a restore holds no position: redoing an undone restore at a position puts
      the pages at the end of the visible list. */
  lemma RedoRestoreAt(d: Doc, pages: seq<int>, position: int)
    requires d.visible.Some?
    ensures var t := ToRestore(pages, d.visible.value);
      var e := RestoreEntry(t);
      Redone(Undone(RestoredAt(d, t, position), e), e).visible == Some(d.visible.value + t)
  {
    UndoRestoreAt(d, pages, position);
  }

  /** pushHistory: the entries after the cursor are dropped, `e` is appended, and the cursor
      points at it. */
  function Pushed(history: seq<Entry>, index: int, e: Entry): (r: (seq<Entry>, int))
    requires -1 <= index < |history|
    ensures |r.0| == index + 2 && r.0[..index + 1] == history[..index + 1] && r.0[index + 1] == e
    ensures r.1 == |r.0| - 1
  {
    var h := history[..index + 1] + [e];
    (h, |h| - 1)
  }

  function SetOf(s: seq<int>): set<int> { set x | x in s }

  /** reorderPages' check: the two lists hold the same set of pages (same size, and every
      page of the first in the second). */
  method SameSet(a: seq<int>, b: seq<int>) returns (same: bool)
    ensures same <==> SetOf(a) == SetOf(b)
  {
    var setA, setB := SetOf(a), SetOf(b);
    if |setA| != |setB| {
      return false;
    }
    // The set is walked in the order its pages first appear in `a`.
    for i := 0 to |a|
      invariant forall j :: 0 <= j < i ==> a[j] in setB
    {
      if a[i] !in setB {
        return false;
      }
    }
    assert setA <= setB;
    SubsetOfSameSize(setA, setB);
    return true;
  }

  /** A subset as large as the set is the set. */
  lemma SubsetOfSameSize(a: set<int>, b: set<int>)
    requires a <= b && |a| == |b|
    ensures a == b
  {
    var extra := b - a;
    assert b == a + extra;
    assert |b| == |a| + |extra|;
  }

  /** The set check lets through an order that repeats a page: it is not a permutation of
      the visible pages. */
  lemma SameSetAdmitsRepeats()
    ensures SetOf([1, 2]) == SetOf([1, 2, 2]) && multiset([1, 2]) != multiset([1, 2, 2])
  {
    assert SetOf([1, 2]) == {1, 2} by {
      assert 1 in [1, 2] && 2 in [1, 2];
    }
    assert SetOf([1, 2, 2]) == {1, 2} by {
      assert 1 in [1, 2, 2] && 2 in [1, 2, 2];
    }
    assert multiset([1, 2])[2] == 1;
    assert multiset([1, 2, 2])[2] == 2;
  }

  /** The check the comment at reorderPages asks for: the new order is a rearrangement of
      the visible pages. */
  predicate IsPermutation(a: seq<int>, b: seq<int>)
  {
    multiset(a) == multiset(b)
  }

  /** A permutation holds the same pages, so the permutation check is never looser than the
      set check, and a reorder it accepts keeps the number of pages and every page's count. */
  lemma PermutationIsSameSet(a: seq<int>, b: seq<int>)
    requires IsPermutation(a, b)
    ensures SetOf(a) == SetOf(b) && |a| == |b|
  {
    assert |a| == |multiset(a)| == |multiset(b)| == |b|;
    forall x ensures x in SetOf(a) <==> x in SetOf(b) {
      assert x in a <==> x in multiset(a);
      assert x in b <==> x in multiset(b);
    }
  }

  /** A reorder the set check accepts keeps the shown pages apart from the hidden ones. */
  lemma ReorderDisjoint(d: Doc, next: seq<int>)
    requires d.visible.Some? && SetOf(d.visible.value) == SetOf(next) && Disjoint(d)
    ensures Disjoint(d.(visible := Some(next)))
  {
    forall p | p in next ensures p !in d.hidden {
      assert p in SetOf(next);
    }
  }
}
