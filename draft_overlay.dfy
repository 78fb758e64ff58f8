/** The web app's simpler drawing overlay: no selection, no moving or resizing, no snapping;
    the text tool drops a text box and the shape tools draw a rectangle or ellipse by
    dragging from its top-left corner. */
module DraftOverlay {
  import opened Lists
  import A = Annotations
  import O = Overlay

  /** This overlay's annotations carry no stroke, font or text-box size. */
  datatype Annotation =
    | Shape(id: string, kind: A.ShapeKind, x: real, y: real, w: real, h: real, color: string, page: int)
    | Text(id: string, x: real, y: real, text: string, color: string, page: int)
    | Image(id: string, x: real, y: real, w: real, h: real, src: string, page: int)

  function OnPage(page: int): Annotation -> bool { (a: Annotation) => a.page == page }

  function SizeOne(id: string, w: real, h: real): Annotation -> Annotation
  {
    (a: Annotation) => if a.id == id && !a.Text? then a.(w := w, h := h) else a
  }

  /** The draft update: every annotation with `id` that has a width gets the new size. */
  function Sized(anns: seq<Annotation>, id: string, w: real, h: real): (r: seq<Annotation>)
    ensures |r| == |anns|
    ensures forall i :: 0 <= i < |anns| && (anns[i].id != id || anns[i].Text?) ==> r[i] == anns[i]
    ensures forall i :: 0 <= i < |anns| && anns[i].id == id && !anns[i].Text? ==> r[i] == anns[i].(w := w, h := h)
  {
    Map(anns, SizeOne(id, w, h))
  }

  function RetextOne(id: string, v: string): Annotation -> Annotation
  {
    (a: Annotation) => if a.id == id && a.Text? then a.(text := v) else a
  }

  /** onTextChange: every text annotation with `id` gets the new text. */
  function Retexted(anns: seq<Annotation>, id: string, v: string): (r: seq<Annotation>)
    ensures |r| == |anns|
    ensures forall i :: 0 <= i < |anns| && (anns[i].id != id || !anns[i].Text?) ==> r[i] == anns[i]
    ensures forall i :: 0 <= i < |anns| && anns[i].id == id && anns[i].Text? ==> r[i] == anns[i].(text := v)
  {
    Map(anns, RetextOne(id, v))
  }

  /** Editing a text never changes which annotations a page shows, only their text. */
  lemma ItemsAfterRetext(anns: seq<Annotation>, id: string, v: string, page: int)
    ensures Filter(Retexted(anns, id, v), OnPage(page)) == Retexted(Filter(anns, OnPage(page)), id, v)
  {
    MapFilter(anns, RetextOne(id, v), OnPage(page), OnPage(page));
  }

  /** A draft's size: from the drag origin to the pointer, at least one pixel each way. */
  function DraftSize(drag: O.Point, p: O.Point): (r: (real, real))
    ensures r.0 >= 1.0 && r.1 >= 1.0
    ensures p.x - drag.x >= 1.0 ==> r.0 == p.x - drag.x
    ensures p.y - drag.y >= 1.0 ==> r.1 == p.y - drag.y
    ensures p.x - drag.x < 1.0 ==> r.0 == 1.0
    ensures p.y - drag.y < 1.0 ==> r.1 == 1.0
  {
    (O.Max(1.0, p.x - drag.x), O.Max(1.0, p.y - drag.y))
  }

  class DraftOverlay {
    var annotations: seq<Annotation>
    var drag: Option<O.Point>
    var draftId: Option<string>

    constructor (annotations: seq<Annotation>)
      ensures this.annotations == annotations && drag.None? && draftId.None?
    {
      this.annotations := annotations;
      drag := None;
      draftId := None;
    }

    /** `items`: the annotations drawn on the overlay's page, in store order. */
    function Items(page: int): (r: seq<Annotation>)
      reads this
      ensures forall a :: a in r <==> a in annotations && a.page == page
      ensures Selects(r, annotations, OnPage(page))
    {
      FilterExact(annotations, OnPage(page));
      Filter(annotations, OnPage(page))
    }

    /** `drag && draftId`: a shape is being drawn. */
    predicate Drafting()
      reads this
    {
      drag.Some? && draftId.Some? && draftId.value != ""
    }

    /** onDown: nothing with the select tool; otherwise the drag starts at `p`, the text tool
        drops a text box and the shape tools a one-pixel draft that becomes the one drawn. */
    method OnDown(tool: A.Tool, page: int, p: O.Point, freshId: string)
      modifies this
      ensures tool == A.SelectTool ==> annotations == old(annotations) && drag == old(drag) && draftId == old(draftId)
      ensures tool != A.SelectTool ==> drag == Some(p)
      ensures tool == A.TextTool ==>
        annotations == old(annotations) + [Text(freshId, p.x, p.y, "Edit", "#111827", page)] && draftId == old(draftId)
      ensures tool == A.RectTool || tool == A.EllipseTool ==>
        draftId == Some(freshId) &&
        annotations == old(annotations) + [Shape(freshId, if tool == A.RectTool then A.Rect else A.Ellipse, p.x, p.y, 1.0, 1.0, "#ef4444", page)]
      ensures tool == A.ImageTool ==> annotations == old(annotations) && draftId == old(draftId)
    {
      if tool == A.SelectTool {
        return;
      }
      drag := Some(p);
      if tool == A.TextTool {
        annotations := annotations + [Text(freshId, p.x, p.y, "Edit", "#111827", page)];
      } else if tool == A.RectTool || tool == A.EllipseTool {
        draftId := Some(freshId);
        var kind := if tool == A.RectTool then A.Rect else A.Ellipse;
        annotations := annotations + [Shape(freshId, kind, p.x, p.y, 1.0, 1.0, "#ef4444", page)];
      }
    }

    /** onMove: while a shape is being drawn it spans from the drag origin to the pointer,
        never less than one pixel wide or high; its corner stays where the drag began. */
    method OnMove(p: O.Point)
      modifies this
      ensures drag == old(drag) && draftId == old(draftId)
      ensures !Drafting() ==> annotations == old(annotations)
      ensures Drafting() ==>
        annotations == Sized(old(annotations), draftId.value, DraftSize(drag.value, p).0, DraftSize(drag.value, p).1)
      ensures Drafting() ==> forall i :: 0 <= i < |annotations| && annotations[i].id == draftId.value && !annotations[i].Text? ==>
        annotations[i].w >= 1.0 && annotations[i].h >= 1.0 &&
        annotations[i].x == old(annotations)[i].x && annotations[i].y == old(annotations)[i].y
    {
      if !Drafting() {
        return;
      }
      var size := DraftSize(drag.value, p);
      annotations := Sized(annotations, draftId.value, size.0, size.1);
    }

    /** onUp: the drag and the draft end. */
    method OnUp()
      modifies this
      ensures drag.None? && draftId.None? && annotations == old(annotations)
    {
      drag := None;
      draftId := None;
    }

    /** onTextChange: the text editor of annotation `id` changed its text to `v`. */
    method OnTextChange(id: string, v: string)
      modifies this
      ensures annotations == Retexted(old(annotations), id, v)
      ensures drag == old(drag) && draftId == old(draftId)
    {
      annotations := Retexted(annotations, id, v);
    }
  }
}
