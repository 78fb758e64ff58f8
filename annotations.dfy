/** The annotation store shared by the viewer and its overlay: the `Annotation` union, the
    `Tool` union, grid snapping, and the pure updates applied to the store. */
module Annotations {
  import opened Lists

  datatype ShapeKind = Rect | Ellipse

  /** Geometry is in overlay pixels. A text box's `w`/`h` are optional; for shapes and images
      they are always present (here `width`/`height` on `Text`, `w`/`h` on the others). */
  datatype Annotation =
    | Shape(id: string, kind: ShapeKind, x: real, y: real, w: real, h: real, color: string, stroke: Option<real>, page: int)
    | Text(id: string, x: real, y: real, text: string, color: string, size: Option<real>,
           fontFamily: Option<string>, width: Option<real>, height: Option<real>, page: int)
    | Image(id: string, x: real, y: real, w: real, h: real, src: string, page: int)

  datatype Tool = SelectTool | TextTool | RectTool | EllipseTool | ImageTool

  /** `"w" in a`: the annotation carries a width. */
  predicate HasWidth(a: Annotation)
  {
    !a.Text? || a.width.Some?
  }

  /** The predicates the components pass to `filter`, `find` and `map`. */
  function OnPage(page: int): Annotation -> bool { (a: Annotation) => a.page == page }
  function NotOnPage(page: int): Annotation -> bool { (a: Annotation) => a.page != page }
  function HasId(id: string): Annotation -> bool { (a: Annotation) => a.id == id }
  function OtherId(id: string): Annotation -> bool { (a: Annotation) => a.id != id }

  /** `annotations.filter(a => a.page === page)`: what the overlay draws for one page. */
  function Items(anns: seq<Annotation>, page: int): (r: seq<Annotation>)
    ensures forall a :: a in r <==> a in anns && a.page == page
    ensures Selects(r, anns, OnPage(page))
  {
    FilterExact(anns, OnPage(page));
    Filter(anns, OnPage(page))
  }

  /** `Math.round`: the nearest integer, halves rounded up. */
  function Round(v: real): (k: int)
    ensures k as real - 0.5 <= v < k as real + 0.5
  {
    (v + 0.5).Floor
  }

  /** `snap`: with snapping on, the multiple of `size` nearest to `v`. */
  function Snap(v: real, enabled: bool, size: real): (r: real)
    requires size > 0.0
    ensures !enabled ==> r == v
    ensures enabled ==> IsMultiple(r, size) && r - size / 2.0 <= v < r + size / 2.0
  {
    if enabled then
      var k := Round(v / size);
      RoundScaled(v, size, k as real);
      assert (k as real * size) / size == k as real;
      k as real * size
    else v
  }

  predicate IsMultiple(r: real, size: real)
    requires size > 0.0
  {
    (r / size).Floor as real == r / size
  }

  /** The multiple of `size` nearest to `v` when `k` is the integer nearest to `v / size`. */
  lemma RoundScaled(v: real, size: real, k: real)
    requires size > 0.0 && k - 0.5 <= v / size < k + 0.5
    ensures k * size - size / 2.0 <= v < k * size + size / 2.0
  {
    ScaleRange(k - 0.5, v / size, k + 0.5, size);
    DivTimes(v, size);
    Distribute(k, size);
    assert (v / size) * size < (k + 0.5) * size;
    assert v < (k + 0.5) * size;
  }

  /** Multiplying a bracketing by a positive factor keeps it. */
  lemma ScaleRange(lo: real, q: real, hi: real, size: real)
    requires size > 0.0 && lo <= q < hi
    ensures lo * size <= q * size < hi * size
  {
  }

  lemma DivTimes(v: real, size: real)
    requires size > 0.0
    ensures (v / size) * size == v
  {
  }

  lemma Distribute(k: real, size: real)
    ensures (k + 0.5) * size == k * size + size / 2.0
    ensures (k - 0.5) * size == k * size - size / 2.0
  {
  }

  /** Snapping a value already on the grid leaves it there. */
  lemma SnapIdempotent(v: real, enabled: bool, size: real)
    requires size > 0.0
    ensures Snap(Snap(v, enabled, size), enabled, size) == Snap(v, enabled, size)
  {
    if enabled {
      var r := Snap(v, enabled, size);
      var k := (r / size).Floor;
      assert r / size == k as real;
      assert Round(r / size) == k;
      DivTimes(r, size);
      assert Snap(r, enabled, size) == k as real * size;
    }
  }

  /** The update of one annotation by a `map` callback leaves its id and page alone. */
  ghost predicate KeepsIdAndPage(f: Annotation -> Annotation)
  {
    forall a :: f(a).id == a.id && f(a).page == a.page
  }

  /** Updating the store and then taking one page's items is the same as updating the items. */
  lemma ItemsAfterUpdate(anns: seq<Annotation>, f: Annotation -> Annotation, page: int)
    requires KeepsIdAndPage(f)
    ensures Items(Map(anns, f), page) == Map(Items(anns, page), f)
  {
    MapFilter(anns, f, OnPage(page), OnPage(page));
  }

  /** The store after a `map` that rewrites only the annotations with id `id`. */
  predicate OnlyTouches(anns: seq<Annotation>, r: seq<Annotation>, id: string)
  {
    |r| == |anns| &&
    forall i :: 0 <= i < |anns| ==>
      r[i].id == anns[i].id && r[i].page == anns[i].page && (anns[i].id != id ==> r[i] == anns[i])
  }

  function MoveOne(id: string, x: real, y: real): Annotation -> Annotation
  {
    (a: Annotation) => if a.id == id then a.(x := x, y := y) else a
  }

  /** The move update (onMove while moving): every annotation with `id` gets the new position. */
  function Moved(anns: seq<Annotation>, id: string, x: real, y: real): (r: seq<Annotation>)
    ensures OnlyTouches(anns, r, id)
    ensures forall i :: 0 <= i < |anns| && anns[i].id == id ==> r[i] == anns[i].(x := x, y := y)
  {
    Map(anns, MoveOne(id, x, y))
  }

  function ResizeOne(id: string, x: real, y: real, w: real, h: real): Annotation -> Annotation
  {
    (a: Annotation) =>
      if a.id != id then a
      else if a.Text? then a.(x := x, y := y, width := Some(w), height := Some(h))
      else a.(x := x, y := y, w := w, h := h)
  }

  /** The resize update: every annotation with `id` gets the new box (a text box gains a
      width and height if it had none). */
  function Resized(anns: seq<Annotation>, id: string, x: real, y: real, w: real, h: real): (r: seq<Annotation>)
    ensures OnlyTouches(anns, r, id)
    ensures forall i :: 0 <= i < |anns| && anns[i].id == id ==>
      r[i].x == x && r[i].y == y && HasWidth(r[i])
    ensures forall i :: 0 <= i < |anns| && anns[i].id == id && anns[i].Text? ==>
      r[i] == anns[i].(x := x, y := y, width := Some(w), height := Some(h))
    ensures forall i :: 0 <= i < |anns| && anns[i].id == id && !anns[i].Text? ==>
      r[i] == anns[i].(x := x, y := y, w := w, h := h)
  {
    Map(anns, ResizeOne(id, x, y, w, h))
  }

  function SizeOne(id: string, w: real, h: real): Annotation -> Annotation
  {
    (a: Annotation) =>
      if a.id != id || !HasWidth(a) then a
      else if a.Text? then a.(width := Some(w), height := Some(h))
      else a.(w := w, h := h)
  }

  /** The draft update (onMove while drawing): the annotation with `id` that has a width gets
      the new size; its position is kept. */
  function Sized(anns: seq<Annotation>, id: string, w: real, h: real): (r: seq<Annotation>)
    ensures OnlyTouches(anns, r, id)
    ensures forall i :: 0 <= i < |anns| && (anns[i].id != id || !HasWidth(anns[i])) ==> r[i] == anns[i]
    ensures forall i :: 0 <= i < |anns| && anns[i].id == id && HasWidth(anns[i]) && !anns[i].Text? ==>
      r[i] == anns[i].(w := w, h := h)
    ensures forall i :: 0 <= i < |anns| && anns[i].id == id && HasWidth(anns[i]) && anns[i].Text? ==>
      r[i] == anns[i].(width := Some(w), height := Some(h))
  {
    Map(anns, SizeOne(id, w, h))
  }

  function RetextOne(id: string, v: string): Annotation -> Annotation
  {
    (a: Annotation) => if a.id == id && a.Text? then a.(text := v) else a
  }

  /** onTextChange: every text annotation with `id` gets the new text. */
  function Retexted(anns: seq<Annotation>, id: string, v: string): (r: seq<Annotation>)
    ensures OnlyTouches(anns, r, id)
    ensures forall i :: 0 <= i < |anns| && !anns[i].Text? ==> r[i] == anns[i]
    ensures forall i :: 0 <= i < |anns| && anns[i].id == id && anns[i].Text? ==> r[i] == anns[i].(text := v)
  {
    Map(anns, RetextOne(id, v))
  }

  function StyleOne(id: string, color: string, stroke: real, size: real, family: string): Annotation -> Annotation
  {
    (a: Annotation) =>
      if a.id != id then a
      else if a.Text? then a.(color := color, size := Some(size), fontFamily := Some(family))
      else if a.Shape? then a.(color := color, stroke := Some(stroke))
      else a
  }

  /** The toolbar style applied to the selected annotation: colour, size and font for text,
      colour and line width for shapes; images are left alone. */
  function Styled(anns: seq<Annotation>, id: string, color: string, stroke: real, size: real, family: string): (r: seq<Annotation>)
    ensures OnlyTouches(anns, r, id)
    ensures forall i :: 0 <= i < |anns| && anns[i].Image? ==> r[i] == anns[i]
    ensures forall i :: 0 <= i < |anns| && anns[i].id == id && anns[i].Text? ==>
      r[i] == anns[i].(color := color, size := Some(size), fontFamily := Some(family))
    ensures forall i :: 0 <= i < |anns| && anns[i].id == id && anns[i].Shape? ==>
      r[i] == anns[i].(color := color, stroke := Some(stroke))
  {
    Map(anns, StyleOne(id, color, stroke, size, family))
  }

  /** Applying the same style twice is the same as applying it once. */
  lemma StyledIdempotent(anns: seq<Annotation>, id: string, color: string, stroke: real, size: real, family: string)
    ensures Styled(Styled(anns, id, color, stroke, size, family), id, color, stroke, size, family)
         == Styled(anns, id, color, stroke, size, family)
  {
    var once := Styled(anns, id, color, stroke, size, family);
    var twice := Styled(once, id, color, stroke, size, family);
    assert |twice| == |once|;
    forall i | 0 <= i < |once| ensures twice[i] == once[i] {
    }
  }

  /** A text edit leaves every page's items as the same edit of those items. */
  lemma ItemsAfterRetext(anns: seq<Annotation>, id: string, v: string, page: int)
    ensures Items(Retexted(anns, id, v), page) == Retexted(Items(anns, page), id, v)
  {
    ItemsAfterUpdate(anns, RetextOne(id, v), page);
  }

  /** A move leaves every page's items as the same move of those items. */
  lemma ItemsAfterMove(anns: seq<Annotation>, id: string, x: real, y: real, page: int)
    ensures Items(Moved(anns, id, x, y), page) == Moved(Items(anns, page), id, x, y)
  {
    ItemsAfterUpdate(anns, MoveOne(id, x, y), page);
  }

  /** `filter(a => a.id !== id)`: every annotation with `id` goes, the others stay in order. */
  function Removed(anns: seq<Annotation>, id: string): (r: seq<Annotation>)
    ensures forall a :: a in r <==> a in anns && a.id != id
    ensures forall a: Annotation :: a.id != id ==> multiset(r)[a] == multiset(anns)[a]
    ensures Selects(r, anns, OtherId(id))
  {
    FilterExact(anns, OtherId(id));
    forall a: Annotation | a.id != id ensures multiset(Filter(anns, OtherId(id)))[a] == multiset(anns)[a] {
      FilterCount(anns, OtherId(id), a);
    }
    Filter(anns, OtherId(id))
  }

  /** `filter(a => a.page !== page)`: one page's annotations go, the others stay in order. */
  function Cleared(anns: seq<Annotation>, page: int): (r: seq<Annotation>)
    ensures forall a :: a in r <==> a in anns && a.page != page
    ensures Items(r, page) == []
    ensures Selects(r, anns, NotOnPage(page))
  {
    FilterExact(anns, NotOnPage(page));
    FilterDropsAll(Filter(anns, NotOnPage(page)), OnPage(page));
    Filter(anns, NotOnPage(page))
  }

  /** Clearing one page and putting back what was on it loses no annotation. */
  lemma ClearedAndItems(anns: seq<Annotation>, page: int)
    ensures multiset(Cleared(anns, page)) + multiset(Items(anns, page)) == multiset(anns)
  {
    FilterPartition(anns, NotOnPage(page), OnPage(page));
  }

  /** The pasted copy: a new id, offset by ten pixels, on the current page. */
  function Duplicate(a: Annotation, id: string, page: int): (r: Annotation)
    ensures r.id == id && r.page == page && r.x == a.x + 10.0 && r.y == a.y + 10.0
    ensures r.(id := a.id, x := a.x, y := a.y, page := a.page) == a
  {
    a.(id := id, x := a.x + 10.0, y := a.y + 10.0, page := page)
  }
}
