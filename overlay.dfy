/** The drawing overlay over one rendered page: pointer-down picks, moves or resizes an
    annotation (select tool) or starts a new one; pointer-move drags it; pointer-up ends the
    gesture. The store and the selection belong to the viewer and are reached through its
    setters; here they are fields of the overlay object. */
module Overlay {
  import opened Lists
  import opened Annotations

  datatype Point = Point(x: real, y: real)

  /** What the viewer passes in, with the defaults the component declares. */
  datatype Props = Props(tool: Tool, page: int, snapEnabled: bool,
                         defaultColor: string, defaultStroke: real, defaultTextSize: real,
                         defaultFontFamily: string)

  /** The grid pitch: the component's default, and the only value the viewer passes. */
  const SnapSize: real := 8.0

  /** The `data-aid` and `data-handle` attributes of the element under the pointer, with ""
      standing for an absent attribute (JavaScript treats both as false). */
  datatype Target = Target(aid: string, handle: string)

  datatype Handle = NW | N | NE | E | SE | S | SW | W

  /** The `data-handle` value of each handle of the resize gizmo. */
  function Name(h: Handle): string
  {
    match h
    case NW => "nw"
    case N => "n"
    case NE => "ne"
    case E => "e"
    case SE => "se"
    case S => "s"
    case SW => "sw"
    case W => "w"
  }

  /** The handle names the resize gizmo uses. */
  function HandleOf(s: string): (r: Option<Handle>)
    ensures r.Some? <==> s in {"nw", "n", "ne", "e", "se", "s", "sw", "w"}
    ensures r == Some(SE) <==> s == "se"
    ensures r.Some? ==> Name(r.value) == s
  {
    match s
    case "nw" => Some(NW)
    case "n" => Some(N)
    case "ne" => Some(NE)
    case "e" => Some(E)
    case "se" => Some(SE)
    case "s" => Some(S)
    case "sw" => Some(SW)
    case "w" => Some(W)
    case _ => None
  }

  /** The box and pointer position when a resize started. */
  datatype Start = Start(x: real, y: real, w: real, h: real, px: real, py: real, keepRatio: bool)
  datatype Moving = Moving(id: string, offsetX: real, offsetY: real)
  datatype Resizing = Resizing(id: string, handle: Handle, start: Start)
  datatype Box = Box(x: real, y: real, w: real, h: real)

  function Max(a: real, b: real): real { if a >= b then a else b }
  function Abs(a: real): real { if a >= 0.0 then a else -a }

  /** `start.w / start.h || 1`. */
  function Ratio(start: Start): (r: real)
    ensures r != 0.0
    ensures start.w != 0.0 && start.h != 0.0 ==> r * start.h == start.w
    ensures start.w == 0.0 || start.h == 0.0 ==> r == 1.0
  {
    if start.w == 0.0 || start.h == 0.0 then 1.0 else start.w / start.h
  }

  /** `applyRatio`: with the ratio kept, the axis moved further drives the other one. */
  function ApplyRatio(start: Start, ww: real, hh: real): (r: (real, real))
    ensures !start.keepRatio ==> r == (ww, hh)
    ensures start.keepRatio ==> r.0 == r.1 * Ratio(start)
    ensures start.keepRatio && Abs(ww) > Abs(hh) ==> r.0 == ww
    ensures start.keepRatio && Abs(ww) <= Abs(hh) ==> r.1 == hh
  {
    var ratio := Ratio(start);
    if start.keepRatio then
      if Abs(ww) > Abs(hh) then (ww, ww / ratio) else (hh * ratio, hh)
    else (ww, hh)
  }

  predicate Westward(handle: Handle) { handle == NW || handle == W || handle == SW }
  predicate Eastward(handle: Handle) { handle == NE || handle == E || handle == SE }
  predicate Northward(handle: Handle) { handle == NW || handle == N || handle == NE }
  predicate Southward(handle: Handle) { handle == SW || handle == S || handle == SE }
  predicate Corner(handle: Handle) { handle == NW || handle == NE || handle == SE || handle == SW }

  /** The box while the pointer is `dx`, `dy` away from where the resize started: the edges
      under the dragged handle follow the pointer, the others stay, no dragged side gets
      shorter than 10, and a corner drag with the ratio kept keeps the ratio. */
  function ResizeBox(start: Start, handle: Handle, dx: real, dy: real): (b: Box)
    ensures b.x == if Westward(handle) then start.x + dx else start.x
    ensures b.y == if Northward(handle) then start.y + dy else start.y
    ensures handle == N || handle == S ==> b.w == start.w
    ensures handle == E || handle == W ==> b.h == start.h
    ensures Westward(handle) || Eastward(handle) ==> b.w >= 10.0
    ensures Northward(handle) || Southward(handle) ==> b.h >= 10.0
    ensures !start.keepRatio && Eastward(handle) ==> b.w == Max(10.0, start.w + dx)
    ensures !start.keepRatio && Westward(handle) ==> b.w == Max(10.0, start.w - dx)
    ensures !start.keepRatio && Southward(handle) ==> b.h == Max(10.0, start.h + dy)
    ensures !start.keepRatio && Northward(handle) ==> b.h == Max(10.0, start.h - dy)
    ensures !start.keepRatio && Westward(handle) && start.w - dx >= 10.0 ==> b.x + b.w == start.x + start.w
    ensures !start.keepRatio && Northward(handle) && start.h - dy >= 10.0 ==> b.y + b.h == start.y + start.h
    ensures Westward(handle) || Eastward(handle) ==>
      b.w == Max(10.0, ApplyRatio(start, Dragged(start, handle, dx, dy).0, Dragged(start, handle, dx, dy).1).0)
    ensures Northward(handle) || Southward(handle) ==>
      b.h == Max(10.0, ApplyRatio(start, Dragged(start, handle, dx, dy).0, Dragged(start, handle, dx, dy).1).1)
  {
    var r := ApplyRatio(start, Dragged(start, handle, dx, dy).0, Dragged(start, handle, dx, dy).1);
    Box(if Westward(handle) then start.x + dx else start.x,
        if Northward(handle) then start.y + dy else start.y,
        if handle == N || handle == S then start.w else Max(10.0, r.0),
        if handle == E || handle == W then start.h else Max(10.0, r.1))
  }

  /** The sides the switch hands to `applyRatio`: each dragged edge moved by the pointer. */
  function Dragged(start: Start, handle: Handle, dx: real, dy: real): (real, real)
  {
    (if Eastward(handle) then start.w + dx else if Westward(handle) then start.w - dx else start.w,
     if Southward(handle) then start.h + dy else if Northward(handle) then start.h - dy else start.h)
  }

  /** A corner drag with the ratio kept gives a box of the starting ratio as long as neither
      side is held at the minimum. */
  lemma CornerKeepsRatio(start: Start, handle: Handle, dx: real, dy: real)
    requires start.keepRatio && Corner(handle)
    ensures var b := ResizeBox(start, handle, dx, dy);
      b.w > 10.0 && b.h > 10.0 ==> b.w == b.h * Ratio(start)
  {
    var d := Dragged(start, handle, dx, dy);
    var b := ResizeBox(start, handle, dx, dy);
    ClampedRatio(start, d.0, d.1, b.w, b.h);
  }

  /** Clamping both sides at 10 keeps `applyRatio`'s ratio unless it holds one of them. */
  lemma ClampedRatio(start: Start, ww: real, hh: real, w: real, h: real)
    requires start.keepRatio
    requires w == Max(10.0, ApplyRatio(start, ww, hh).0) && h == Max(10.0, ApplyRatio(start, ww, hh).1)
    ensures w > 10.0 && h > 10.0 ==> w == h * Ratio(start)
  {
    var r := ApplyRatio(start, ww, hh);
    assert r.0 == r.1 * Ratio(start);
  }

  /** `a.w || fallback`. */
  function WidthOr(a: Annotation, fallback: real): real
  {
    if a.Text? then (if a.width.Some? && a.width.value != 0.0 then a.width.value else fallback)
    else if a.w != 0.0 then a.w else fallback
  }

  /** `a.h || fallback`. */
  function HeightOr(a: Annotation, fallback: real): real
  {
    if a.Text? then (if a.height.Some? && a.height.value != 0.0 then a.height.value else fallback)
    else if a.h != 0.0 then a.h else fallback
  }

  /** The start of a resize from the south-east handle, which takes the box as it is. A text
      box without a recorded size gives none. */
  function CornerStart(a: Annotation, p: Point, shift: bool): (r: Option<Start>)
    ensures r.Some? <==> !a.Text? || (a.width.Some? && a.height.Some?)
    ensures r.Some? ==> r.value.x == a.x && r.value.y == a.y && r.value.px == p.x && r.value.py == p.y
    ensures r.Some? ==> r.value.keepRatio == shift
    ensures !a.Text? ==> r == Some(Start(a.x, a.y, a.w, a.h, p.x, p.y, shift))
    ensures a.Text? && r.Some? ==> r.value.w == a.width.value && r.value.h == a.height.value
  {
    if !a.Text? then Some(Start(a.x, a.y, a.w, a.h, p.x, p.y, shift))
    else if a.width.Some? && a.height.Some? then Some(Start(a.x, a.y, a.width.value, a.height.value, p.x, p.y, shift))
    else None
  }

  /** The start of a resize from any other handle, which puts 100 by 20 in place of a
      missing or zero size. */
  function EdgeStart(a: Annotation, p: Point, shift: bool): (r: Start)
    ensures r.x == a.x && r.y == a.y && r.px == p.x && r.py == p.y && r.keepRatio == shift
    ensures r.w != 0.0 && r.h != 0.0
    ensures !a.Text? ==> r.w == (if a.w != 0.0 then a.w else 100.0) && r.h == (if a.h != 0.0 then a.h else 20.0)
    ensures a.Text? ==>
      r.w == (if a.width.Some? && a.width.value != 0.0 then a.width.value else 100.0) &&
      r.h == (if a.height.Some? && a.height.value != 0.0 then a.height.value else 20.0)
  {
    Start(a.x, a.y, WidthOr(a, 100.0), HeightOr(a, 20.0), p.x, p.y, shift)
  }

  /** The text box the text tool drops at `p`. */
  function NewText(props: Props, id: string, p: Point): (a: Annotation)
    ensures a.Text? && a.id == id && a.x == p.x && a.y == p.y && a.page == props.page && a.text == "Edit"
    ensures a.color != "" && a.width == Some(100.0) && a.height.Some? && a.height.value != 0.0
    ensures a.color == (if props.defaultColor == "" then "#000000" else props.defaultColor)
    ensures a.height == Some(if props.defaultTextSize == 0.0 then 14.0 else props.defaultTextSize)
    ensures a.size == Some(props.defaultTextSize) && a.fontFamily == Some(props.defaultFontFamily)
  {
    Text(id, p.x, p.y, "Edit", if props.defaultColor == "" then "#000000" else props.defaultColor,
         Some(props.defaultTextSize), Some(props.defaultFontFamily), Some(100.0),
         Some(if props.defaultTextSize == 0.0 then 14.0 else props.defaultTextSize), props.page)
  }

  /** The one-pixel shape the rectangle and ellipse tools start a drag with. */
  function NewShape(props: Props, kind: ShapeKind, id: string, p: Point): (a: Annotation)
    ensures a.Shape? && a.kind == kind && a.id == id && a.x == p.x && a.y == p.y && a.page == props.page
    ensures a.w == 1.0 && a.h == 1.0 && a.color != "" && a.stroke == Some(props.defaultStroke)
    ensures a.color == (if props.defaultColor == "" then "#000000" else props.defaultColor)
  {
    Shape(id, kind, p.x, p.y, 1.0, 1.0, if props.defaultColor == "" then "#000000" else props.defaultColor,
          Some(props.defaultStroke), props.page)
  }

  /** The store while a move is in progress: the annotation at the pointer less the grab
      offset. */
  function MovedStore(anns: seq<Annotation>, m: Moving, snapOn: bool, p: Point): seq<Annotation>
  {
    Moved(anns, m.id, Snap(p.x - m.offsetX, snapOn, SnapSize), Snap(p.y - m.offsetY, snapOn, SnapSize))
  }

  /** The store while a resize is in progress: the annotation in the resized box. */
  function ResizedStore(anns: seq<Annotation>, rz: Resizing, snapOn: bool, p: Point): seq<Annotation>
  {
    var b := ResizeBox(rz.start, rz.handle, p.x - rz.start.px, p.y - rz.start.py);
    Resized(anns, rz.id, Snap(b.x, snapOn, SnapSize), Snap(b.y, snapOn, SnapSize),
            Snap(b.w, snapOn, SnapSize), Snap(b.h, snapOn, SnapSize))
  }

  /** The store while a draft is drawn from `drag`: at least one pixel each way. */
  function DraftedStore(anns: seq<Annotation>, id: string, drag: Point, snapOn: bool, p: Point): seq<Annotation>
  {
    Sized(anns, id, Snap(Max(1.0, p.x - drag.x), snapOn, SnapSize), Snap(Max(1.0, p.y - drag.y), snapOn, SnapSize))
  }

  class AnnotationOverlay {
    var annotations: seq<Annotation>
    var selectedId: Option<string>
    var drag: Option<Point>
    var draftId: Option<string>
    var moving: Option<Moving>
    var resizing: Option<Resizing>

    constructor (annotations: seq<Annotation>, selectedId: Option<string>)
      ensures this.annotations == annotations && this.selectedId == selectedId
      ensures drag.None? && draftId.None? && moving.None? && resizing.None?
    {
      this.annotations := annotations;
      this.selectedId := selectedId;
      drag := None;
      draftId := None;
      moving := None;
      resizing := None;
    }

    /** `items`: the annotations drawn on the overlay's page, in store order. */
    function Items(page: int): (r: seq<Annotation>)
      reads this
      ensures forall a :: a in r <==> a in annotations && a.page == page
      ensures Selects(r, annotations, OnPage(page))
    {
      Annotations.Items(annotations, page)
    }

    /** onDown. With the select tool: pressing an annotation's body or its move gizmo
        selects it and arms a move; pressing a resize handle selects it and arms a resize;
        pressing anything else clears the selection. With another tool: the drag starts at
        `p`, and the text tool drops a text box, the shape tools a one-pixel draft. */
    method OnDown(props: Props, target: Target, p: Point, shift: bool, freshId: string)
      modifies this
      ensures props.tool == SelectTool ==>
        annotations == old(annotations) && drag == old(drag) && draftId == old(draftId)
      ensures props.tool == SelectTool && target.aid != "" && (target.handle == "" || target.handle == "move") ==>
        selectedId == Some(target.aid) && resizing == old(resizing) &&
        moving == (match Find(old(annotations), HasId(target.aid))
                   case Some(a) => Some(Moving(a.id, p.x - a.x, p.y - a.y))
                   case None => old(moving))
      ensures props.tool == SelectTool && target.aid != "" && target.handle == "se" ==>
        selectedId == Some(target.aid) && moving == old(moving) &&
        resizing == (match Find(old(annotations), HasId(target.aid))
                     case Some(a) =>
                       (match CornerStart(a, p, shift)
                        case Some(s) => Some(Resizing(target.aid, SE, s))
                        case None => old(resizing))
                     case None => old(resizing))
      ensures props.tool == SelectTool && target.aid != "" && HandleOf(target.handle).Some? && target.handle != "se" ==>
        selectedId == Some(target.aid) && moving == old(moving) &&
        resizing == (match Find(old(annotations), HasId(target.aid))
                     case Some(a) => Some(Resizing(target.aid, HandleOf(target.handle).value, EdgeStart(a, p, shift)))
                     case None => old(resizing))
      ensures props.tool == SelectTool && (target.aid == "" || (target.handle != "" && target.handle != "move" && HandleOf(target.handle).None?)) ==>
        selectedId.None? && moving == old(moving) && resizing == old(resizing)
      ensures props.tool != SelectTool ==>
        drag == Some(p) && selectedId == old(selectedId) && moving == old(moving) && resizing == old(resizing)
      ensures props.tool == TextTool ==>
        annotations == old(annotations) + [NewText(props, freshId, p)] && draftId == old(draftId)
      ensures props.tool == RectTool ==>
        annotations == old(annotations) + [NewShape(props, Rect, freshId, p)] && draftId == Some(freshId)
      ensures props.tool == EllipseTool ==>
        annotations == old(annotations) + [NewShape(props, Ellipse, freshId, p)] && draftId == Some(freshId)
      ensures props.tool == ImageTool ==> annotations == old(annotations) && draftId == old(draftId)
    {
      var annId, handle := target.aid, target.handle;
      if props.tool == SelectTool {
        if annId != "" && (handle == "" || handle == "move") {
          selectedId := Some(annId);
          var found := Find(annotations, HasId(annId));
          if found.Some? {
            var a := found.value;
            moving := Some(Moving(a.id, p.x - a.x, p.y - a.y));
          }
        } else if annId != "" && handle == "se" {
          selectedId := Some(annId);
          var found := Find(annotations, HasId(annId));
          if found.Some? {
            var start := CornerStart(found.value, p, shift);
            if start.Some? {
              resizing := Some(Resizing(annId, SE, start.value));
            }
          }
        } else if annId != "" && HandleOf(handle).Some? {
          selectedId := Some(annId);
          var found := Find(annotations, HasId(annId));
          if found.Some? {
            resizing := Some(Resizing(annId, HandleOf(handle).value, EdgeStart(found.value, p, shift)));
          }
        } else {
          selectedId := None;
        }
        return;
      }
      drag := Some(p);
      if props.tool == TextTool {
        annotations := annotations + [NewText(props, freshId, p)];
      } else if props.tool == RectTool || props.tool == EllipseTool {
        draftId := Some(freshId);
        var kind := if props.tool == RectTool then Rect else Ellipse;
        annotations := annotations + [NewShape(props, kind, freshId, p)];
      }
    }

    /** onMove. A move in progress puts the annotation at the pointer less the grab offset;
        a resize in progress gives it the resized box; a draft being drawn gets the size
        from the drag origin to the pointer, at least one pixel each way. Everything is
        snapped to the grid when snapping is on. */
    method OnMove(props: Props, p: Point)
      modifies this
      ensures selectedId == old(selectedId) && drag == old(drag) && draftId == old(draftId)
      ensures moving == old(moving) && resizing == old(resizing)
      ensures old(moving).Some? ==> annotations == MovedStore(old(annotations), old(moving).value, props.snapEnabled, p)
      ensures old(moving).None? && old(resizing).Some? ==>
        annotations == ResizedStore(old(annotations), old(resizing).value, props.snapEnabled, p)
      ensures old(moving).None? && old(resizing).None? && Drafting() ==>
        annotations == DraftedStore(old(annotations), draftId.value, drag.value, props.snapEnabled, p)
      ensures old(moving).None? && old(resizing).None? && !Drafting() ==> annotations == old(annotations)
    {
      if moving.Some? {
        annotations := MovedStore(annotations, moving.value, props.snapEnabled, p);
        return;
      }
      if resizing.Some? {
        annotations := ResizedStore(annotations, resizing.value, props.snapEnabled, p);
        return;
      }
      if !Drafting() {
        return;
      }
      annotations := DraftedStore(annotations, draftId.value, drag.value, props.snapEnabled, p);
    }

    /** `drag && draftId`: a shape is being drawn. */
    predicate Drafting()
      reads this
    {
      drag.Some? && draftId.Some? && draftId.value != ""
    }

    /** onUp: every gesture ends. */
    method OnUp()
      modifies this
      ensures drag.None? && draftId.None? && moving.None? && resizing.None?
      ensures annotations == old(annotations) && selectedId == old(selectedId)
    {
      drag := None;
      draftId := None;
      moving := None;
      resizing := None;
    }

    /** onTextChange: the text editor of annotation `id` changed its text to `v`. */
    method OnTextChange(id: string, v: string)
      modifies this
      ensures annotations == Retexted(old(annotations), id, v)
      ensures selectedId == old(selectedId) && drag == old(drag) && draftId == old(draftId)
      ensures moving == old(moving) && resizing == old(resizing)
    {
      annotations := Retexted(annotations, id, v);
    }
  }
}
