/** The viewer component's page navigation, page label, page-list edits with their undo
    history, and the keyboard and toolbar operations on the annotation store. */
module Viewer {
  import opened Lists
  import opened Annotations
  import opened PageHistory
  import opened Decimal

  /** The pages the viewer steps through: the visible list, or every page of the document
      in order while there is none. */
  function Pages(numPages: nat, visible: Option<seq<int>>): (r: seq<int>)
    ensures visible.Some? ==> r == visible.value
    ensures visible.None? ==> |r| == numPages && forall i :: 0 <= i < numPages ==> r[i] == i + 1
  {
    if visible.Some? then visible.value else Range(numPages)
  }

  /** onPrevPage's choice: the page before the first occurrence of `cur`; none when `cur` is
      not listed or is first. */
  function PrevPage(pages: seq<int>, cur: int): (r: Option<int>)
    ensures r.None? <==> cur !in pages || pages[0] == cur
    ensures r.Some? ==> r.value == pages[IndexOf(pages, cur) - 1]
  {
    var idx := IndexOf(pages, cur);
    if idx <= 0 then None else Some(pages[idx - 1])
  }

  /** onNextPage's choice: the page after the first occurrence of `cur`; none when `cur` is
      not listed or is last. */
  function NextPage(pages: seq<int>, cur: int): (r: Option<int>)
    ensures r.None? <==> cur !in pages || IndexOf(pages, cur) == |pages| - 1
    ensures r.Some? ==> r.value == pages[IndexOf(pages, cur) + 1]
  {
    var idx := IndexOf(pages, cur);
    if idx == -1 || idx >= |pages| - 1 then None else Some(pages[idx + 1])
  }

  /** In a list without repeats, stepping forward and then back returns to the same page. */
  lemma PrevUndoesNext(pages: seq<int>, cur: int)
    requires Distinct(pages) && NextPage(pages, cur).Some?
    ensures PrevPage(pages, NextPage(pages, cur).value) == Some(cur)
  {
    var i := IndexOf(pages, cur);
    IndexOfDistinct(pages, i + 1);
    IndexOfDistinct(pages, 0);
  }

  /** In a list without repeats, stepping back and then forward returns to the same page. */
  lemma NextUndoesPrev(pages: seq<int>, cur: int)
    requires Distinct(pages) && PrevPage(pages, cur).Some?
    ensures NextPage(pages, PrevPage(pages, cur).value) == Some(cur)
  {
    var i := IndexOf(pages, cur);
    IndexOfDistinct(pages, i - 1);
  }

  function Dist(a: int, b: int): nat { if a >= b then a - b else b - a }

  /** The reducer of the nearest-visible safeguard: a left fold that keeps the page found so
      far unless the next one is strictly closer to `cur`. The result is a listed page at the
      least distance from `cur`, and the first such page in the list. */
  function Nearest(v: seq<int>, cur: int): (r: int)
    requires v != []
    ensures r in v
    ensures forall p :: p in v ==> Dist(r, cur) <= Dist(p, cur)
    ensures forall j :: 0 <= j < IndexOf(v, r) ==> Dist(v[j], cur) > Dist(r, cur)
    decreases |v|
  {
    if |v| == 1 then v[0]
    else
      var front, p := v[..|v| - 1], v[|v| - 1];
      assert v == front + [p];
      var best := Nearest(front, cur);
      IndexOfPrefix(front, [p], best);
      if Dist(p, cur) < Dist(best, cur) then
        assert p !in front;
        p
      else
        best
  }

  /** The two numbers of updatePageLabel: the 1-based position of the current page and the
      page count. Both are 0 while no document is open or when there are no pages. */
  function LabelCounts(numPages: Option<nat>, visible: Option<seq<int>>, pageNum: int): (r: (nat, nat))
    ensures numPages.None? ==> r == (0, 0)
    ensures numPages.Some? && visible.Some? ==>
      r.1 == |visible.value| && r.0 <= r.1 &&
      (r.0 == 0 <==> pageNum !in visible.value) &&
      (r.0 > 0 ==> r.0 == IndexOf(visible.value, pageNum) + 1)
    ensures numPages.Some? && visible.None? ==>
      r.1 == numPages.value && (r.1 == 0 || pageNum < 1 ==> r.0 == 0) && (r.1 > 0 && pageNum >= 1 ==> r.0 == pageNum)
  {
    var total := if visible.Some? then |visible.value| else if numPages.Some? then numPages.value else 0;
    if numPages.None? || total == 0 then (0, 0)
    else
      var idx := if visible.Some? then IndexOf(visible.value, pageNum) else pageNum - 1;
      (if idx >= 0 then idx + 1 else 0, total)
  }

  /** updatePageLabel: `Page <position> / <count>`, the numbers written in decimal. */
  function Label(numPages: Option<nat>, visible: Option<seq<int>>, pageNum: int): (s: string)
    ensures var c := LabelCounts(numPages, visible, pageNum);
      s == "Page " + NatToString(c.0) + " / " + NatToString(c.1)
  {
    var c := LabelCounts(numPages, visible, pageNum);
    if c == (0, 0) then "Page 0 / 0"
    else "Page " + NatToString(c.0) + " / " + NatToString(c.1)
  }

  /** The label reads back as the position and the count. */
  lemma LabelReadsBack(numPages: Option<nat>, visible: Option<seq<int>>, pageNum: int)
    ensures var c := LabelCounts(numPages, visible, pageNum);
      var s := Label(numPages, visible, pageNum);
      var a, b := NatToString(c.0), NatToString(c.1);
      s[..5] == "Page " && s[5..5 + |a|] == a && s[5 + |a|..8 + |a|] == " / " && s[8 + |a|..] == b &&
      DigitsValue(a) == c.0 && DigitsValue(b) == c.1
  {
    var c := LabelCounts(numPages, visible, pageNum);
    NatToStringValue(c.0);
    NatToStringValue(c.1);
    Pieces("Page ", NatToString(c.0), " / ", NatToString(c.1));
  }

  lemma Pieces(w: string, a: string, x: string, b: string)
    ensures var s := w + a + x + b;
      s[..|w|] == w && s[|w|..|w| + |a|] == a && s[|w| + |a|..|w| + |a| + |x|] == x && s[|w| + |a| + |x|..] == b
  {
  }

  /** Stepping back moves the label's position down by one, in a visible list without
      repeats. */
  lemma PrevLowersPosition(numPages: nat, v: seq<int>, cur: int)
    requires Distinct(v) && PrevPage(v, cur).Some?
    ensures LabelCounts(Some(numPages), Some(v), PrevPage(v, cur).value).0 ==
            LabelCounts(Some(numPages), Some(v), cur).0 - 1
  {
    IndexOfDistinct(v, IndexOf(v, cur) - 1);
  }

  /** The keys the viewer reacts to while an annotation is selected. */
  datatype KeyAction = RemoveKey | CopyKey | PasteKey | FrontKey | BackKey | OtherKey

  /** `toLowerCase` on ASCII letters. */
  function Lower(key: string): (r: string)
    ensures |r| == |key|
    ensures forall i :: 0 <= i < |key| ==> r[i] == if 'A' <= key[i] <= 'Z' then (key[i] as int + 32) as char else key[i]
  {
    if key == [] then []
    else [if 'A' <= key[0] <= 'Z' then (key[0] as int + 32) as char else key[0]] + Lower(key[1..])
  }

  /** The key handler's dispatch: Delete and Backspace remove whatever the modifiers; with
      Ctrl or Meta, `c`/`C` copies, `v`/`V` pastes, `]` brings to front and `[` sends to back. */
  function Action(key: string, modifier: bool): (r: KeyAction)
    ensures r == RemoveKey <==> key == "Delete" || key == "Backspace"
    ensures r == CopyKey <==> modifier && (key == "c" || key == "C")
    ensures r == PasteKey <==> modifier && (key == "v" || key == "V")
    ensures r == FrontKey <==> modifier && key == "]"
    ensures r == BackKey <==> modifier && key == "["
  {
    var k := Lower(key);
    if key == "Delete" || key == "Backspace" then RemoveKey
    else if modifier && k == "c" then CopyKey
    else if modifier && k == "v" then PasteKey
    else if modifier && k == "]" then FrontKey
    else if modifier && k == "[" then BackKey
    else OtherKey
  }

  /** A selection the handlers act on: an id that is neither null nor empty. */
  predicate Selected(id: Option<string>) { id.Some? && id.value != "" }

  class PdfViewer {
    /** The open document's page count (pdf.js's `numPages`); None while no document is open. */
    var numPages: Option<nat>
    var pageNum: int
    var annotations: seq<Annotation>
    var visiblePages: Option<seq<int>>
    var hiddenPages: seq<int>
    var history: seq<Entry>
    var historyIndex: int
    var selectedId: Option<string>
    /** The copied annotation kept under the `pdf:clip` storage key. */
    var clipboard: Option<Annotation>

    /** The history cursor points at an entry, or is -1 before the first. */
    predicate Valid()
      reads this
    {
      -1 <= historyIndex < |history|
    }

    /** The part of the state the history edits. */
    function State(): Doc
      reads this
    {
      Doc(visiblePages, hiddenPages, annotations)
    }

    constructor ()
      ensures Valid()
      ensures numPages.None? && pageNum == 1 && annotations == [] && visiblePages.None? && hiddenPages == []
      ensures history == [] && historyIndex == -1 && selectedId.None? && clipboard.None?
    {
      numPages := None;
      pageNum := 1;
      annotations := [];
      visiblePages := None;
      hiddenPages := [];
      history := [];
      historyIndex := -1;
      selectedId := None;
      clipboard := None;
    }

    /** A document without saved state has loaded: page 1, every page visible, none hidden. */
    method Opened(n: nat)
      requires Valid()
      modifies this
      ensures Valid()
      ensures numPages == Some(n) && pageNum == 1 && visiblePages == Some(Range(n)) && hiddenPages == []
      ensures annotations == old(annotations) && history == old(history) && historyIndex == old(historyIndex)
      ensures selectedId == old(selectedId) && clipboard == old(clipboard)
    {
      numPages := Some(n);
      pageNum := 1;
      visiblePages := Some(Range(n));
      hiddenPages := [];
    }

    /** pushHistory: drops the entries after the cursor, appends `e` and points at it. */
    method PushHistory(e: Entry)
      requires Valid()
      modifies this
      ensures Valid()
      ensures (history, historyIndex) == Pushed(old(history), old(historyIndex), e)
      ensures State() == old(State()) && pageNum == old(pageNum) && numPages == old(numPages)
      ensures selectedId == old(selectedId) && clipboard == old(clipboard)
    {
      var r := Pushed(history, historyIndex, e);
      history, historyIndex := r.0, r.1;
    }

    /** deletePage: refused while no list is shown, when one page is left or when `n` is not
        shown; otherwise the page is hidden, its annotations go into the history entry, and the
        current page, if deleted, becomes the one before it. */
    method DeletePage(n: int)
      requires Valid()
      modifies this
      ensures Valid() && numPages == old(numPages) && selectedId == old(selectedId) && clipboard == old(clipboard)
      ensures old(visiblePages).None? || |old(visiblePages).value| <= 1 || n !in old(visiblePages).value ==>
        State() == old(State()) && pageNum == old(pageNum) && history == old(history) && historyIndex == old(historyIndex)
      ensures Disjoint(old(State())) ==> Disjoint(State())
      ensures old(visiblePages).Some? && |old(visiblePages).value| > 1 && n in old(visiblePages).value ==>
        State() == Deleted(old(State()), n) &&
        (history, historyIndex) == Pushed(old(history), old(historyIndex), DeleteRecord(old(State()), n)) &&
        (old(pageNum) != n ==> pageNum == old(pageNum)) &&
        (old(pageNum) == n && IndexOf(old(visiblePages).value, n) >= 1 ==>
          pageNum == old(visiblePages).value[IndexOf(old(visiblePages).value, n) - 1]) &&
        (old(pageNum) == n && IndexOf(old(visiblePages).value, n) == 0 && visiblePages.value != [] ==>
          pageNum == visiblePages.value[0])
    {
      if visiblePages.None? || |visiblePages.value| <= 1 {
        return;
      }
      var v := visiblePages.value;
      var idx := IndexOf(v, n);
      if idx == -1 {
        return;
      }
      var before := State();
      var after := Deleted(before, n);
      visiblePages, hiddenPages, annotations := after.visible, after.hidden, after.annotations;
      PushHistory(DeleteRecord(before, n));
      if pageNum == n {
        CandidateBefore(v, n);
        var candidate := Candidate(after.visible.value, idx);
        if candidate.Some? {
          pageNum := candidate.value;
        }
      }
    }

    /** restorePagesAtEnd: the requested pages not yet shown are appended and unhidden, and
        one entry records them; nothing happens without a document, a list or such pages. */
    method RestoreAtEnd(pages: seq<int>)
      requires Valid()
      modifies this
      ensures Valid() && pageNum == old(pageNum) && numPages == old(numPages)
      ensures selectedId == old(selectedId) && clipboard == old(clipboard)
      ensures numPages.None? || old(visiblePages).None? || ToRestore(pages, old(visiblePages).value) == [] ==>
        State() == old(State()) && history == old(history) && historyIndex == old(historyIndex)
      ensures numPages.Some? && old(visiblePages).Some? && ToRestore(pages, old(visiblePages).value) != [] ==>
        var t := ToRestore(pages, old(visiblePages).value);
        State() == RestoredAtEnd(old(State()), t) &&
        (history, historyIndex) == Pushed(old(history), old(historyIndex), RestoreEntry(t))
      ensures Disjoint(old(State())) ==> Disjoint(State())
    {
      if numPages.None? || visiblePages.None? {
        return;
      }
      var t := ToRestore(pages, visiblePages.value);
      if t == [] {
        return;
      }
      var after := RestoredAtEnd(State(), t);
      visiblePages, hiddenPages := after.visible, after.hidden;
      PushHistory(RestoreEntry(t));
    }

    /** restorePagesAtPosition: as restorePagesAtEnd, with the pages spliced in at
        `position`. */
    method RestoreAtPosition(pages: seq<int>, position: int)
      requires Valid()
      modifies this
      ensures Valid() && pageNum == old(pageNum) && numPages == old(numPages)
      ensures selectedId == old(selectedId) && clipboard == old(clipboard)
      ensures numPages.None? || old(visiblePages).None? || ToRestore(pages, old(visiblePages).value) == [] ==>
        State() == old(State()) && history == old(history) && historyIndex == old(historyIndex)
      ensures numPages.Some? && old(visiblePages).Some? && ToRestore(pages, old(visiblePages).value) != [] ==>
        var t := ToRestore(pages, old(visiblePages).value);
        State() == RestoredAt(old(State()), t, position) &&
        (history, historyIndex) == Pushed(old(history), old(historyIndex), RestoreEntry(t))
      ensures Disjoint(old(State())) ==> Disjoint(State())
    {
      if numPages.None? || visiblePages.None? {
        return;
      }
      var t := ToRestore(pages, visiblePages.value);
      if t == [] {
        return;
      }
      var after := RestoredAt(State(), t, position);
      visiblePages, hiddenPages := after.visible, after.hidden;
      PushHistory(RestoreEntry(t));
    }

    /** reorderPages: the new order is taken, and recorded, exactly when it holds the same
        set of pages as the visible list. */
    method Reorder(next: seq<int>)
      requires Valid()
      modifies this
      ensures Valid() && pageNum == old(pageNum) && numPages == old(numPages)
      ensures hiddenPages == old(hiddenPages) && annotations == old(annotations)
      ensures selectedId == old(selectedId) && clipboard == old(clipboard)
      ensures old(visiblePages).None? || SetOf(old(visiblePages).value) != SetOf(next) ==>
        visiblePages == old(visiblePages) && history == old(history) && historyIndex == old(historyIndex)
      ensures old(visiblePages).Some? && SetOf(old(visiblePages).value) == SetOf(next) ==>
        visiblePages == Some(next) &&
        (history, historyIndex) == Pushed(old(history), old(historyIndex), ReorderEntry(old(visiblePages).value, next))
      ensures Disjoint(old(State())) ==> Disjoint(State())
    {
      if visiblePages.None? {
        return;
      }
      var prev := visiblePages.value;
      var same := SameSet(prev, next);
      if !same {
        return;
      }
      if Disjoint(State()) {
        ReorderDisjoint(State(), next);
      }
      PushHistory(ReorderEntry(prev, next));
      visiblePages := Some(next);
    }

    /** undo: nothing before the first entry; otherwise the entry at the cursor is taken back
        and the cursor steps back. */
    method Undo()
      requires Valid()
      modifies this
      ensures Valid() && history == old(history) && pageNum == old(pageNum) && numPages == old(numPages)
      ensures selectedId == old(selectedId) && clipboard == old(clipboard)
      ensures old(historyIndex) < 0 ==> State() == old(State()) && historyIndex == old(historyIndex)
      ensures old(historyIndex) >= 0 ==>
        State() == Undone(old(State()), history[old(historyIndex)]) && historyIndex == old(historyIndex) - 1
      ensures old(historyIndex) >= 0 && !history[old(historyIndex)].ReorderEntry? && Disjoint(old(State())) ==>
        Disjoint(State())
    {
      if historyIndex < 0 {
        return;
      }
      var after := Undone(State(), history[historyIndex]);
      visiblePages, hiddenPages, annotations := after.visible, after.hidden, after.annotations;
      historyIndex := historyIndex - 1;
    }

    /** redo: nothing at the last entry; otherwise the entry after the cursor is done again
        and the cursor steps forward. */
    method Redo()
      requires Valid()
      modifies this
      ensures Valid() && history == old(history) && pageNum == old(pageNum) && numPages == old(numPages)
      ensures selectedId == old(selectedId) && clipboard == old(clipboard)
      ensures old(historyIndex) >= |history| - 1 ==> State() == old(State()) && historyIndex == old(historyIndex)
      ensures old(historyIndex) < |history| - 1 ==>
        State() == Redone(old(State()), history[old(historyIndex) + 1]) && historyIndex == old(historyIndex) + 1
      ensures old(historyIndex) < |history| - 1 && !history[old(historyIndex) + 1].ReorderEntry? && Disjoint(old(State())) ==>
        Disjoint(State())
    {
      if historyIndex >= |history| - 1 {
        return;
      }
      var after := Redone(State(), history[historyIndex + 1]);
      visiblePages, hiddenPages, annotations := after.visible, after.hidden, after.annotations;
      historyIndex := historyIndex + 1;
    }

    /** The nearest-visible safeguard: a current page that is not shown is replaced by the
        nearest shown page. */
    method SettleOnVisible()
      modifies this
      ensures State() == old(State()) && numPages == old(numPages) && history == old(history) && historyIndex == old(historyIndex)
      ensures selectedId == old(selectedId) && clipboard == old(clipboard)
      ensures numPages.None? || visiblePages.None? || visiblePages.value == [] || old(pageNum) in visiblePages.value ==>
        pageNum == old(pageNum)
      ensures numPages.Some? && visiblePages.Some? && visiblePages.value != [] ==> pageNum in visiblePages.value
      ensures numPages.Some? && visiblePages.Some? && old(pageNum) !in visiblePages.value && visiblePages.value != [] ==>
        pageNum == Nearest(visiblePages.value, old(pageNum))
    {
      if numPages.None? || visiblePages.None? || visiblePages.value == [] {
        return;
      }
      if pageNum !in visiblePages.value {
        pageNum := Nearest(visiblePages.value, pageNum);
      }
    }

    /** onPrevPage: with a document open, moves to the page before the current one in the
        page order, if there is one. */
    method OnPrevPage()
      modifies this
      ensures State() == old(State()) && numPages == old(numPages) && history == old(history) && historyIndex == old(historyIndex)
      ensures selectedId == old(selectedId) && clipboard == old(clipboard)
      ensures numPages.None? || PrevPage(Pages(numPages.value, visiblePages), old(pageNum)).None? ==> pageNum == old(pageNum)
      ensures numPages.Some? && PrevPage(Pages(numPages.value, visiblePages), old(pageNum)).Some? ==>
        pageNum == PrevPage(Pages(numPages.value, visiblePages), old(pageNum)).value
    {
      if numPages.None? {
        return;
      }
      var r := PrevPage(Pages(numPages.value, visiblePages), pageNum);
      if r.Some? {
        pageNum := r.value;
      }
    }

    /** onNextPage: with a document open, moves to the page after the current one in the page
        order, if there is one. */
    method OnNextPage()
      modifies this
      ensures State() == old(State()) && numPages == old(numPages) && history == old(history) && historyIndex == old(historyIndex)
      ensures selectedId == old(selectedId) && clipboard == old(clipboard)
      ensures numPages.None? || NextPage(Pages(numPages.value, visiblePages), old(pageNum)).None? ==> pageNum == old(pageNum)
      ensures numPages.Some? && NextPage(Pages(numPages.value, visiblePages), old(pageNum)).Some? ==>
        pageNum == NextPage(Pages(numPages.value, visiblePages), old(pageNum)).value
    {
      if numPages.None? {
        return;
      }
      var r := NextPage(Pages(numPages.value, visiblePages), pageNum);
      if r.Some? {
        pageNum := r.value;
      }
    }

    /** The key handler. Without a selection nothing happens. Delete/Backspace removes the
        selected annotation and clears the selection; copy stores it; paste appends a copy of
        the stored one, moved by 10 and put on the current page, under `freshId`, and selects
        it; `]` and `[` move the selected annotation to the end or the start of the store. */
    method OnKey(key: string, modifier: bool, freshId: string)
      modifies this
      ensures pageNum == old(pageNum) && numPages == old(numPages) && visiblePages == old(visiblePages)
      ensures hiddenPages == old(hiddenPages) && history == old(history) && historyIndex == old(historyIndex)
      ensures !Selected(old(selectedId)) || Action(key, modifier) == OtherKey ==>
        annotations == old(annotations) && selectedId == old(selectedId) && clipboard == old(clipboard)
      ensures Selected(old(selectedId)) && Action(key, modifier) == RemoveKey ==>
        annotations == Removed(old(annotations), old(selectedId).value) && selectedId.None? && clipboard == old(clipboard)
      ensures Selected(old(selectedId)) && Action(key, modifier) == CopyKey ==>
        annotations == old(annotations) && selectedId == old(selectedId) &&
        var found := Find(old(annotations), HasId(old(selectedId).value));
        clipboard == if found.Some? then found else old(clipboard)
      ensures Selected(old(selectedId)) && Action(key, modifier) == PasteKey ==>
        clipboard == old(clipboard) &&
        (old(clipboard).None? ==> annotations == old(annotations) && selectedId == old(selectedId)) &&
        (old(clipboard).Some? ==>
          annotations == old(annotations) + [Duplicate(old(clipboard).value, freshId, pageNum)] && selectedId == Some(freshId))
      ensures Selected(old(selectedId)) && (Action(key, modifier) == FrontKey || Action(key, modifier) == BackKey) ==>
        selectedId == old(selectedId) && clipboard == old(clipboard) &&
        var idx := FindIndex(old(annotations), HasId(old(selectedId).value));
        (idx < 0 ==> annotations == old(annotations)) &&
        (idx >= 0 ==> annotations == if Action(key, modifier) == FrontKey then MoveToBack(old(annotations), idx)
                                     else MoveToFront(old(annotations), idx))
    {
      if !Selected(selectedId) {
        return;
      }
      var id := selectedId.value;
      match Action(key, modifier)
      case RemoveKey =>
        annotations := Removed(annotations, id);
        selectedId := None;
      case CopyKey =>
        var found := Find(annotations, HasId(id));
        if found.Some? {
          clipboard := found;
        }
      case PasteKey =>
        if clipboard.Some? {
          annotations := annotations + [Duplicate(clipboard.value, freshId, pageNum)];
          selectedId := Some(freshId);
        }
      case FrontKey =>
        var idx := FindIndex(annotations, HasId(id));
        if idx >= 0 {
          annotations := MoveToBack(annotations, idx);
        }
      case BackKey =>
        var idx := FindIndex(annotations, HasId(id));
        if idx >= 0 {
          annotations := MoveToFront(annotations, idx);
        }
      case OtherKey =>
    }

    /** The toolbar-style effect: the selected annotation takes the current color, and the
        stroke width or the text size and font. */
    method ApplyStyle(color: string, stroke: real, size: real, family: string)
      modifies this
      ensures pageNum == old(pageNum) && numPages == old(numPages) && visiblePages == old(visiblePages)
      ensures hiddenPages == old(hiddenPages) && history == old(history) && historyIndex == old(historyIndex)
      ensures selectedId == old(selectedId) && clipboard == old(clipboard)
      ensures !Selected(selectedId) ==> annotations == old(annotations)
      ensures Selected(selectedId) ==> annotations == Styled(old(annotations), selectedId.value, color, stroke, size, family)
    {
      if Selected(selectedId) {
        annotations := Styled(annotations, selectedId.value, color, stroke, size, family);
      }
    }

    /** clearCurrentPageAnnotations: every annotation of the current page goes. */
    method ClearCurrentPage()
      modifies this
      ensures pageNum == old(pageNum) && numPages == old(numPages) && visiblePages == old(visiblePages)
      ensures hiddenPages == old(hiddenPages) && history == old(history) && historyIndex == old(historyIndex)
      ensures selectedId == old(selectedId) && clipboard == old(clipboard)
      ensures annotations == Cleared(old(annotations), pageNum)
    {
      annotations := Cleared(annotations, pageNum);
    }
  }
}
