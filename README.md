# print-pdf-react: page list, undo log, annotation overlays and JPEG-to-PDF encoder

This Dafny project models the logic at the heart of the print-pdf-react viewer, a React
component that shows a PDF, lets the user draw annotations over its pages, hide and reorder
pages with undo and redo, and export the annotated pages as a new PDF.

- **Viewer** (`viewer.dfy`, `page_history.dfy`). The `PdfViewer` class holds the component's
  state: page count, current page, annotation store, visible and hidden page lists, the
  history log and its cursor, the selection and the clipboard. Its methods are the
  component's handlers and effects: delete a page, restore hidden pages at the end or at a
  position, reorder, push/undo/redo, prev/next navigation, the nearest-visible safeguard,
  the keyboard shortcuts, the toolbar style effect and clearing a page. Each method is
  specified by the pure functions of `PageHistory` (the effect of each edit, of undoing and of
  redoing it), and the round trips between them are lemmas there.
- **Annotation overlay** (`annotations.dfy`, `overlay.dfy`). The annotation union and the pure
  store updates (`move`, `resize`, `draft`, `retext`, style, remove, clear, paste), grid
  snapping, the eight-handle resize geometry with its minimum of 10 and the kept aspect
  ratio, and the `AnnotationOverlay` class, whose `drag`/`draftId`/`moving`/`resizing` fields
  form the pointer state machine.
- **Web-app overlay** (`draft_overlay.dfy`). The smaller overlay of the web app: no selection,
  moving or snapping; it drops text boxes and draws shapes from their top-left corner.
- **Encoder** (`pdf_file.dfy`, `pdf_images.dfy`, `pdf_writer.dfy`, `pdf_export.dfy`, with
  `decimal.dfy` and `utf8.dfy`). `buildPdfFromJpegs` as an imperative method over a
  `ChunkWriter` object with the `chunks` and `offsets` arrays, proved to return exactly the
  bytes `Pdf(imgs)`. `PdfFile` describes the file layout: header (section 7.5.2 of ISO
  32000-1), indirect objects written in a different order from their numbers, the
  cross-reference table with 20-byte entries (section 7.5.4), and the trailer with
  `startxref` (section 7.5.5). `PdfImages` gives the image XObjects (sections 7.4.8 and 8.9.5),
  content streams, pages, the page tree and the catalog. The lemmas read the file back: the
  object header at each recorded offset, each table entry's ten digits as that offset,
  `startxref` as the position of `xref`, and `/Length`, `/Count`, `/Kids` and `/MediaBox`
  as what they describe.
- `lists.dfy` holds the array operations the components use (`filter`, `map`, `find`,
  `findIndex`, `indexOf`, `splice`, the sort-and-dedup of the hidden list). A `filter` result
  is described by `Selects(r, s, p)`: `r` is drawn from `s` in order, holds only elements
  that pass `p`, and is as long as the number that pass. `SelectsUnique` shows this fixes `r`,
  so the contracts of the page-list edits and of the overlays' `Items` state their whole
  result, order and repeats included.

Numbers that are JavaScript floats in the overlays are `real`. Page numbers and
indices are `int`. Byte lengths and offsets are `nat`, and bytes are a `byte` newtype
(0..255). Pointer positions, fresh ids (`crypto.randomUUID`) and the toolbar's current style
values are parameters of the methods.

## Model

| member | source | states |
|---|---|---|
| Annotations.Items | src/components/pdf/AnnotationOverlay.tsx:179 | a page's items are exactly the store's annotations of that page, each as often as in the store and in store order |
| Annotations.Snap | src/components/pdf/AnnotationOverlay.tsx:51 | snapping off is the identity; on, the result is a multiple of the grid size within half a cell of the input |
| Annotations.Round | src/components/pdf/AnnotationOverlay.tsx:51 | `Math.round` gives the integer within half of the value, halves going up |
| Annotations.SnapIdempotent | src/components/pdf/AnnotationOverlay.tsx:51 | snapping a snapped value changes nothing |
| Annotations.RoundScaled | src/components/pdf/AnnotationOverlay.tsx:51 | the multiple of the grid size chosen by rounding lies within half a cell of the value |
| Annotations.Moved | src/components/pdf/AnnotationOverlay.tsx:109-112 | the move update gives the annotations with the moved id the new position and leaves every other annotation, and every id and page, as it was |
| Annotations.Resized | src/components/pdf/AnnotationOverlay.tsx:159 | the resize update gives the resized annotations the new box (a text box gains a width and height) and leaves the others alone |
| Annotations.Sized | src/components/pdf/AnnotationOverlay.tsx:165 | the draft update resizes only annotations with the draft id that carry a width, keeping their position |
| Annotations.Retexted | src/components/pdf/AnnotationOverlay.tsx:175-177 | only the text of the text annotations with the given id changes |
| Annotations.ItemsAfterUpdate | src/components/pdf/AnnotationOverlay.tsx:179 | an update that keeps ids and pages commutes with taking one page's items |
| Annotations.ItemsAfterRetext | src/components/pdf/AnnotationOverlay.tsx:175-179 | a text edit leaves each page's items as the same edit of those items |
| Annotations.ItemsAfterMove | src/components/pdf/AnnotationOverlay.tsx:109-112 | a move leaves each page's items as the same move of those items |
| Annotations.Styled | src/components/pdf/PdfViewer.tsx:571-578 | text takes the colour, size and font; shapes take the colour and line width; images and other ids are unchanged |
| Annotations.StyledIdempotent | src/components/pdf/PdfViewer.tsx:569-580 | applying the same toolbar style twice is the same as once |
| Annotations.Removed | src/components/pdf/PdfViewer.tsx:526 | every annotation with the id goes; the others stay, each as often as before and in store order |
| Annotations.Cleared | src/components/pdf/PdfViewer.tsx:450-452 | exactly the annotations of the page go, the others stay in store order, and the page is left with no items |
| Annotations.ClearedAndItems | src/components/pdf/PdfViewer.tsx:450-452 | what clearing removes is exactly that page's items: the two together are the store |
| Annotations.Duplicate | src/components/pdf/PdfViewer.tsx:537 | the pasted copy has the fresh id, is moved by 10 in x and y, lies on the current page and is otherwise the copied annotation |
| Overlay.HandleOf | src/components/pdf/AnnotationOverlay.tsx:80-84 | exactly the eight handle names are resize handles, each decoding to the handle of that name |
| Overlay.Ratio | src/components/pdf/AnnotationOverlay.tsx:124 | the ratio is width over height for a box with two non-zero sides, and 1 when either side is zero |
| Overlay.ApplyRatio | src/components/pdf/AnnotationOverlay.tsx:123-129 | without the ratio lock the sides pass through; with it the result has the start's ratio and the side of larger magnitude is kept |
| Overlay.ResizeBox | src/components/pdf/AnnotationOverlay.tsx:116-158 | the edges under the dragged handle follow the pointer from the recorded start, the others stay, each dragged side is `applyRatio` of the dragged sides, held at a minimum of 10, and an unlocked west or north drag keeps the opposite edge |
| Overlay.CornerKeepsRatio | src/components/pdf/AnnotationOverlay.tsx:123-156 | a locked corner drag keeps the start's ratio whenever neither side is held at the minimum |
| Overlay.ClampedRatio | src/components/pdf/AnnotationOverlay.tsx:132-133 | clamping both sides at 10 keeps the ratio unless the clamp holds one of them |
| Overlay.CornerStart | src/components/pdf/AnnotationOverlay.tsx:80-83 | the `se` handle records the box's own position and size, the pointer and the shift key; a text box without a size records none |
| Overlay.EdgeStart | src/components/pdf/AnnotationOverlay.tsx:84-87 | the other handles record the box's position, the pointer and the shift key, with the box's width, or 100 when it is zero or missing, and its height, or 20, so the start is never degenerate |
| Overlay.NewText | src/components/pdf/AnnotationOverlay.tsx:95-99 | the text tool drops `Edit` at the pointer on the page, 100 wide, coloured `defaultColor` or `#000000` when that is empty, as high as `defaultTextSize` or 14 when that is zero, with the default size and font |
| Overlay.NewShape | src/components/pdf/AnnotationOverlay.tsx:100-103 | the shape tools start a one-pixel shape of the tool's kind at the pointer on the page, coloured `defaultColor` or `#000000` when that is empty, with the default line width |
| Overlay.AnnotationOverlay.Items | src/components/pdf/AnnotationOverlay.tsx:179 | the overlay draws exactly the store's annotations of its page, each as often as in the store and in store order |
| Overlay.AnnotationOverlay.OnDown | src/components/pdf/AnnotationOverlay.tsx:53-105 | select tool: the body or move gizmo selects and arms a move at the grab offset, a handle selects and arms a resize, anything else clears the selection; other tools start a drag and append a text box or a draft |
| Overlay.AnnotationOverlay.OnMove | src/components/pdf/AnnotationOverlay.tsx:107-166 | a move takes precedence over a resize, which takes precedence over drafting; each gives the store the snapped update; without a gesture nothing changes |
| Overlay.AnnotationOverlay.OnUp | src/components/pdf/AnnotationOverlay.tsx:168-173 | every gesture ends and the store and selection are kept |
| Overlay.AnnotationOverlay.OnTextChange | src/components/pdf/AnnotationOverlay.tsx:175-177 | the store becomes the text edit and the gesture state is kept |
| DraftOverlay.Sized | web-app/src/components/pdf/AnnotationOverlay.tsx:61 | only the draft-id annotations with a width are resized; text is never touched |
| DraftOverlay.Retexted | web-app/src/components/pdf/AnnotationOverlay.tsx:69-71 | only the text of text annotations with the id changes |
| DraftOverlay.ItemsAfterRetext | web-app/src/components/pdf/AnnotationOverlay.tsx:69-73 | a text edit commutes with taking one page's items |
| DraftOverlay.DraftSize | web-app/src/components/pdf/AnnotationOverlay.tsx:59-60 | each side is the distance from the drag origin when that is at least one pixel, and one pixel otherwise |
| DraftOverlay.DraftOverlay.Items | web-app/src/components/pdf/AnnotationOverlay.tsx:73 | the overlay draws exactly the store's annotations of its page, each as often as in the store and in store order |
| DraftOverlay.DraftOverlay.OnDown | web-app/src/components/pdf/AnnotationOverlay.tsx:42-54 | the select tool changes nothing; text appends `Edit` in `#111827`; shapes append a one-pixel `#ef4444` draft and arm it |
| DraftOverlay.DraftOverlay.OnMove | web-app/src/components/pdf/AnnotationOverlay.tsx:56-62 | only while drafting, the draft gets the size to the pointer, at least one pixel each way, at its original corner |
| DraftOverlay.DraftOverlay.OnUp | web-app/src/components/pdf/AnnotationOverlay.tsx:64-67 | drag and draft are cleared, the store is kept |
| DraftOverlay.DraftOverlay.OnTextChange | web-app/src/components/pdf/AnnotationOverlay.tsx:69-71 | the store becomes the text edit |
| PageHistory.Deleted | src/components/pdf/PdfViewer.tsx:632-635 | the page leaves the visible list while the other pages stay in their order, each as often as before; the hidden list becomes the sorted, duplicate-free union with the page; the page's annotations go and the others stay in store order; hidden and visible stay apart |
| PageHistory.DeleteRecord | src/components/pdf/PdfViewer.tsx:636 | the delete entry holds the page and exactly its annotations, in store order |
| PageHistory.Candidate | src/components/pdf/PdfViewer.tsx:639 | a candidate exists exactly when pages remain, and it is one of them |
| PageHistory.CandidateBefore | src/components/pdf/PdfViewer.tsx:638-641 | deleting the page on screen moves to the page just before it, or to the new first page |
| PageHistory.ToRestore | src/components/pdf/PdfViewer.tsx:648 | exactly the requested pages not shown, every occurrence kept, in the given order |
| PageHistory.RestoredAtEnd | src/components/pdf/PdfViewer.tsx:650-651 | the pages follow the visible ones; the hidden list keeps, in order, exactly the pages not restored; shown and hidden stay apart |
| PageHistory.RestoredAt | src/components/pdf/PdfViewer.tsx:703-706 | the pages are spliced in where `splice` puts them, before and after unchanged; the hidden list keeps, in order, exactly the pages not restored |
| PageHistory.Undone | src/components/pdf/PdfViewer.tsx:663-676 | a delete appends the page to the visible list (or makes it the list), appends its annotations to the store and takes every occurrence of it out of the hidden list, the rest in order; a reorder returns to the old order; a restore appends the pages to the hidden list and keeps, in order, exactly the visible pages not restored |
| PageHistory.Redone | src/components/pdf/PdfViewer.tsx:681-694 | a delete keeps, in order, exactly the other visible pages and the other pages' annotations, and appends the page to the hidden list unsorted; a reorder takes the new order; a restore appends the pages to the visible list (or makes them the list) and keeps, in order, exactly the hidden pages not restored |
| PageHistory.UndoDelete | src/components/pdf/PdfViewer.tsx:665-669 | undoing a delete gives back the same annotations (as a multiset), the same set of visible pages and, for a sorted hidden list, the same hidden list |
| PageHistory.RedoDelete | src/components/pdf/PdfViewer.tsx:683-687 | redoing an undone delete gives the visible list and annotations the delete gave; the hidden list gains the page at its end |
| PageHistory.UndoRestoreAtEnd | src/components/pdf/PdfViewer.tsx:672-675 | undoing a restore at the end gives back the visible list as it was |
| PageHistory.UndoRestoreAt | src/components/pdf/PdfViewer.tsx:672-675 | undoing a restore at a position gives back the visible list as it was |
| PageHistory.RedoRestoreAt | src/components/pdf/PdfViewer.tsx:690-693 | redoing an undone restore at a position appends the pages at the end instead |
| PageHistory.Pushed | src/components/pdf/PdfViewer.tsx:655-660 | entries after the cursor are dropped, the new one is appended, and the cursor points at it |
| PageHistory.SameSet | src/components/pdf/PdfViewer.tsx:713-716 | the size-and-membership loop accepts exactly when the two lists hold the same set of pages |
| PageHistory.SubsetOfSameSize | src/components/pdf/PdfViewer.tsx:715-716 | a subset as large as the set is the set, which is why the loop only checks one direction |
| PageHistory.SameSetAdmitsRepeats | src/components/pdf/PdfViewer.tsx:711-716 | the set check accepts `[1, 2, 2]` for `[1, 2]`, which is not a permutation |
| PageHistory.PermutationIsSameSet | src/components/pdf/PdfViewer.tsx:711-716 | every permutation passes the set check |
| PageHistory.ReorderDisjoint | src/components/pdf/PdfViewer.tsx:717-718 | an accepted reorder keeps shown and hidden pages apart |
| Viewer.Pages | src/components/pdf/PdfViewer.tsx:109 | the visible list, or every page from 1 to the count |
| Viewer.PrevPage | src/components/pdf/PdfViewer.tsx:110-112 | there is no previous page exactly when the current one is absent or first; otherwise it is the one before its first occurrence |
| Viewer.NextPage | src/components/pdf/PdfViewer.tsx:120-122 | there is no next page exactly when the current one is absent or last; otherwise it is the one after its first occurrence |
| Viewer.PrevUndoesNext | src/components/pdf/PdfViewer.tsx:107-125 | without repeats, next then prev returns to the page |
| Viewer.NextUndoesPrev | src/components/pdf/PdfViewer.tsx:107-125 | without repeats, prev then next returns to the page |
| Viewer.Nearest | src/components/pdf/PdfViewer.tsx:618-621 | the fold picks a shown page at least as close as any other, the first such in list order |
| Viewer.LabelCounts | src/components/pdf/PdfViewer.tsx:67-71 | the count is the visible length (or the page count) and the position is one past the index, or 0 when absent or no document |
| Viewer.LabelReadsBack | src/components/pdf/PdfViewer.tsx:67-73 | the label `Label` builds (`updatePageLabel`) is `Page `, position, ` / `, count, and both numbers read back from their digits |
| Viewer.PrevLowersPosition | src/components/pdf/PdfViewer.tsx:107-115 | stepping back lowers the label's position by one |
| Viewer.Lower | src/components/pdf/PdfViewer.tsx:528 | `toLowerCase` maps `A`..`Z` to lower case and keeps every other character |
| Viewer.Action | src/components/pdf/PdfViewer.tsx:525-552 | Delete/Backspace remove whatever the modifiers; with a modifier, c/C copy, v/V paste, `]` and `[` reorder; nothing else acts |
| Viewer.PdfViewer.Opened | src/components/pdf/PdfViewer.tsx:497-499 | a freshly loaded document without saved state opens on page 1 with every page shown and none hidden |
| Viewer.PdfViewer.PushHistory | src/components/pdf/PdfViewer.tsx:655-660 | the log and cursor become the pushed ones; nothing else changes; the cursor stays in range |
| Viewer.PdfViewer.DeletePage | src/components/pdf/PdfViewer.tsx:627-643 | refused without a list, with one page left or for a page not shown; otherwise the state becomes the deletion, the entry is pushed and the current page moves back if it was deleted; shown and hidden pages stay apart |
| Viewer.PdfViewer.RestoreAtEnd | src/components/pdf/PdfViewer.tsx:645-653 | without a document, a list or pages to restore nothing changes and nothing is recorded; otherwise the state becomes the restore at the end and one restore entry is pushed; shown and hidden pages stay apart |
| Viewer.PdfViewer.RestoreAtPosition | src/components/pdf/PdfViewer.tsx:698-708 | as the restore at the end, with the pages spliced in at the position; shown and hidden pages stay apart |
| Viewer.PdfViewer.Reorder | src/components/pdf/PdfViewer.tsx:710-719 | the order is taken and recorded with the old one exactly when it holds the same set of pages; otherwise nothing changes; shown and hidden pages stay apart |
| Viewer.PdfViewer.Undo | src/components/pdf/PdfViewer.tsx:662-678 | nothing before the first entry; otherwise the entry at the cursor is undone and the cursor steps back; the log is kept and the cursor stays in range; undoing a delete or a restore keeps shown and hidden pages apart |
| Viewer.PdfViewer.Redo | src/components/pdf/PdfViewer.tsx:680-696 | nothing at the last entry; otherwise the next entry is redone and the cursor steps forward; redoing a delete or a restore keeps shown and hidden pages apart |
| Viewer.PdfViewer.SettleOnVisible | src/components/pdf/PdfViewer.tsx:614-625 | with pages shown the current page ends up shown, and a hidden one is replaced by the nearest shown page |
| Viewer.PdfViewer.OnPrevPage | src/components/pdf/PdfViewer.tsx:107-115 | with a document open the current page becomes the previous one in viewing order, if any |
| Viewer.PdfViewer.OnNextPage | src/components/pdf/PdfViewer.tsx:117-125 | with a document open the current page becomes the next one in viewing order, if any |
| Viewer.PdfViewer.OnKey | src/components/pdf/PdfViewer.tsx:522-563 | without a selection nothing; delete removes and deselects; copy stores the found annotation; paste appends the moved copy under the fresh id and selects it; `]`/`[` move the selected annotation to the end or the start |
| Viewer.PdfViewer.ApplyStyle | src/components/pdf/PdfViewer.tsx:569-580 | with a selection the store becomes the styled store, otherwise nothing changes |
| Viewer.PdfViewer.ClearCurrentPage | src/components/pdf/PdfViewer.tsx:450-452 | the store loses the current page's annotations and nothing else changes |
| Lists.Filter | src/components/pdf/PdfViewer.tsx:632 | `filter` keeps exactly the elements that pass |
| Lists.FilterCount | src/components/pdf/PdfViewer.tsx:632 | `filter` keeps every occurrence of a passing element and none of another |
| Lists.FilterOrder | src/components/pdf/PdfViewer.tsx:632 | `filter` keeps the passing elements in their original order |
| Lists.Count | src/components/pdf/PdfViewer.tsx:632 | the number of passing elements is at most the length |
| Lists.FilterLength | src/components/pdf/PdfViewer.tsx:632 | `filter` keeps as many elements as pass |
| Lists.FilterExact | src/components/pdf/PdfViewer.tsx:632 | `filter` selects exactly the passing elements, in order |
| Lists.SubsequenceCount | src/components/pdf/PdfViewer.tsx:632 | an in-order draw of passing elements is no longer than the number that pass |
| Lists.SelectsFirst | src/components/pdf/PdfViewer.tsx:632 | a selection starts with the head exactly when the head passes, and the rest is a selection from the tail |
| Lists.SelectsUnique | src/components/pdf/PdfViewer.tsx:632 | the selection of the passing elements in order is unique, so the contracts stated with it fix the result |
| Lists.Find | src/components/pdf/PdfViewer.tsx:529 | `find` gives the first match, or none exactly when nothing matches |
| Lists.FindIndex | src/components/pdf/PdfViewer.tsx:545 | `findIndex` gives the first matching index, or -1 exactly when nothing matches |
| Lists.IndexOf | src/components/pdf/PdfViewer.tsx:630 | `indexOf` gives the first index of the element, or -1 exactly when it is absent |
| Lists.SortedDistinct | src/components/pdf/PdfViewer.tsx:634 | the set-then-sort gives the distinct elements in strictly increasing order |
| Lists.SortedUnique | src/components/pdf/PdfViewer.tsx:634 | a strictly increasing list is fixed by its elements |
| Lists.SpliceStart | src/components/pdf/PdfViewer.tsx:704 | `splice` clamps the position to the array and counts a negative one from the end |
| Lists.InsertAt | src/components/pdf/PdfViewer.tsx:703-704 | the pages land at the splice position with the rest before and after unchanged |
| Lists.InsertAtWithout | src/components/pdf/PdfViewer.tsx:674 | removing spliced-in elements gives the original list back |
| Lists.AppendWithout | src/components/pdf/PdfViewer.tsx:674 | removing appended elements gives the original list back |
| Lists.MoveToBack | src/components/pdf/PdfViewer.tsx:544-551 | the element goes to the end, the others keep their order, and nothing is lost |
| Lists.MoveToFront | src/components/pdf/PdfViewer.tsx:554-561 | the element goes to the start, the others keep their order, and nothing is lost |
| Lists.Range | src/components/pdf/PdfViewer.tsx:498 | the pages 1 to n in order |
| Decimal.NatToString | src/components/pdf/PdfViewer.tsx:358 | a number's text is digits without a leading zero |
| Decimal.NatToStringValue | src/components/pdf/PdfViewer.tsx:358 | a number's text reads back as the number |
| Decimal.PadStart | src/components/pdf/PdfViewer.tsx:398 | `padStart` fills on the left up to the width and keeps a longer string |
| Decimal.PaddedOffset | src/components/pdf/PdfViewer.tsx:397-398 | an offset below 10^10 becomes exactly ten digits that read back as the offset |
| Utf8.EncodeChar | src/components/pdf/PdfViewer.tsx:313 | `TextEncoder` writes ASCII as itself and any other character as a lead byte and continuation bytes |
| Utf8.EncodeCharRoundTrip | src/components/pdf/PdfViewer.tsx:313 | every character's encoding decodes back to it |
| Utf8.EncodeAppend | src/components/pdf/PdfViewer.tsx:313 | encoding a concatenation is concatenating the encodings |
| Utf8.EncodeIsAscii | src/components/pdf/PdfViewer.tsx:313 | ASCII text encodes to one byte per character, its code |
| PdfFile.EmittedNum | src/components/pdf/PdfViewer.tsx:355-389 | every write position produces a valid object number |
| PdfFile.EmissionIndex | src/components/pdf/PdfViewer.tsx:329-389 | every object number is written at exactly one position, whose written number is it |
| PdfFile.EmissionIndexOfEmitted | src/components/pdf/PdfViewer.tsx:329-389 | the write order and the numbering are inverse |
| PdfFile.InputPositions | src/components/pdf/PdfViewer.tsx:337-379 | input i's image is written i-th, its content stream and page right after the images, in pairs |
| PdfFile.HeaderEncoding | src/components/pdf/PdfViewer.tsx:352 | the header's four `\xFF` characters become two bytes each |
| PdfFile.HeaderBinaryComment | src/components/pdf/PdfViewer.tsx:352 | the second header line is a comment of bytes at or above 128 |
| PdfFile.BodyGrows | src/components/pdf/PdfViewer.tsx:343-346 | each written object starts after the ones written before it |
| PdfFile.FileStartsWithHeader | src/components/pdf/PdfViewer.tsx:352 | the file starts with the header bytes |
| PdfFile.ObjectAtOffset | src/components/pdf/PdfViewer.tsx:343-346 | at the offset recorded for object k stands `k 0 obj`, then that object's content |
| PdfFile.HeaderAtOffset | src/components/pdf/PdfViewer.tsx:343-346 | at the offset recorded for object k stands `k 0 obj` |
| PdfFile.OffsetsFollowWriteOrder | src/components/pdf/PdfViewer.tsx:343-346 | an object written earlier has a smaller offset, whatever the numbers |
| PdfFile.CatalogAfterPages | src/components/pdf/PdfViewer.tsx:382-389 | the catalog, object 1, is written after the page tree, object 2 |
| PdfFile.OffsetBelowXref | src/components/pdf/PdfViewer.tsx:392 | every object lies before the table |
| PdfFile.XrefEntryShape | src/components/pdf/PdfViewer.tsx:397-399 | an entry is 20 bytes whose first ten read back as the offset, then ` 00000 n` |
| PdfFile.OffsetsFit | src/components/pdf/PdfViewer.tsx:396-399 | in a file whose table starts below 10^10 every offset has ten digits |
| PdfFile.XrefSectionLength | src/components/pdf/PdfViewer.tsx:394-400 | the table holds 20 bytes for each of the objects and the free entry |
| PdfFile.XrefFreeEntry | src/components/pdf/PdfViewer.tsx:395 | entry 0 is the free-list head `0000000000 65535 f` |
| PdfFile.XrefEntryInFile | src/components/pdf/PdfViewer.tsx:396-399 | entry k of the table is the entry of object k's offset |
| PdfFile.XrefTable | src/components/pdf/PdfViewer.tsx:396-399 | entry k of the file's table reads back as the offset where object k stands |
| PdfFile.TrailerFields | src/components/pdf/PdfViewer.tsx:402 | `/Size` reads back as the number of entries and `/Root` is `1 0 R` |
| PdfFile.StartXrefAtEnd | src/components/pdf/PdfViewer.tsx:402 | the file ends with `startxref`, the table's offset and `%%EOF` |
| PdfFile.XrefKeywordAtStart | src/components/pdf/PdfViewer.tsx:392-394 | at the offset `startxref` gives stands `xref` |
| PdfImages.PageNums | src/components/pdf/PdfViewer.tsx:337-341 | the page numbers, in input order |
| PdfImages.ObjectsAtOffsets | src/components/pdf/PdfViewer.tsx:343-389 | in the exported file, object k's header and content stand at its recorded offset |
| PdfImages.ImageDictAt | src/components/pdf/PdfViewer.tsx:357-358 | each image's dictionary follows its header |
| PdfImages.ImageDataAt | src/components/pdf/PdfViewer.tsx:358-359 | the JPEG bytes follow `stream` verbatim |
| PdfImages.ImageEndAt | src/components/pdf/PdfViewer.tsx:359-360 | `endstream` follows the JPEG bytes |
| PdfImages.ImageLengthField | src/components/pdf/PdfViewer.tsx:358 | the image's `/Length` reads back as the byte length of its data |
| PdfImages.StreamAt | src/components/pdf/PdfViewer.tsx:369-372 | each content stream's text follows its dictionary |
| PdfImages.StreamLengthField | src/components/pdf/PdfViewer.tsx:369-371 | the stream's `/Length` (a string length) reads back as the stream's byte length |
| PdfImages.PageAt | src/components/pdf/PdfViewer.tsx:376-377 | each page's dictionary follows its header |
| PdfImages.MediaBox | src/components/pdf/PdfViewer.tsx:377 | each page's media box is `[0 0 width height]` of its image |
| PdfImages.ParentRef | src/components/pdf/PdfViewer.tsx:377 | each page's parent is object 2, the page tree |
| PdfImages.PagesAt | src/components/pdf/PdfViewer.tsx:382-383 | the page tree's dictionary follows its header |
| PdfImages.PagesFields | src/components/pdf/PdfViewer.tsx:383 | `/Count` reads back as the number of images and the kids are the pages in input order |
| PdfImages.CatalogAt | src/components/pdf/PdfViewer.tsx:387-388 | the catalog's dictionary follows its header |
| PdfWriter.WrittenFile | src/components/pdf/PdfViewer.tsx:343-402 | the header, the pushed objects and the table with trailer are exactly the file's bytes |
| PdfWriter.SizesAreOffsets | src/components/pdf/PdfViewer.tsx:344 | the sizes recorded before each header are the offsets the file layout gives |
| PdfWriter.WriteStep | src/components/pdf/PdfViewer.tsx:343-349 | writing the next object keeps the chunks and offsets in step with the layout |
| PdfExport.ChunkWriter.Push | src/components/pdf/PdfViewer.tsx:317-321 | the part is appended to the chunks |
| PdfExport.ChunkWriter.SizeSoFar | src/components/pdf/PdfViewer.tsx:322-326 | the loop returns the byte length of the chunks so far |
| PdfExport.ChunkWriter.WriteObjHeader | src/components/pdf/PdfViewer.tsx:343-346 | the offset of the object is the size so far, then `num 0 obj` is pushed |
| PdfExport.ChunkWriter.WriteObjFooter | src/components/pdf/PdfViewer.tsx:347-349 | `endobj` is pushed |
| PdfExport.ChunkWriter.Concat | src/components/pdf/PdfViewer.tsx:405-419 | the output array holds exactly the chunks' bytes in order |
| PdfExport.CopyInto | src/components/pdf/PdfViewer.tsx:409-418 | `out.set` puts the bytes at the position and keeps what precedes it |
| PdfExport.WriteImage | src/components/pdf/PdfViewer.tsx:356-361 | one image object is written: header, dictionary, data, `endstream`, footer |
| PdfExport.WriteContent | src/components/pdf/PdfViewer.tsx:369-374 | one content-stream object is written |
| PdfExport.WritePage | src/components/pdf/PdfViewer.tsx:376-378 | one page object is written |
| PdfExport.WriteSingle | src/components/pdf/PdfViewer.tsx:382-389 | a one-dictionary object (page tree, catalog) is written |
| PdfExport.EmissionPushed | src/components/pdf/PdfViewer.tsx:355-389 | what the loops push for each object is that object's content in the layout |
| PdfExport.WriteImages | src/components/pdf/PdfViewer.tsx:355-362 | the image loop writes every image object in input order |
| PdfExport.WriteContentsAndPages | src/components/pdf/PdfViewer.tsx:365-379 | the second loop writes every content stream and page, in pairs, in input order |
| PdfExport.WriteTree | src/components/pdf/PdfViewer.tsx:381-389 | the page tree and then the catalog are written |
| PdfExport.WriteTable | src/components/pdf/PdfViewer.tsx:392-402 | the table head, free entry, one entry per object and the trailer are pushed |
| PdfExport.WriteEntries | src/components/pdf/PdfViewer.tsx:396-400 | the loop pushes one entry per object, from the recorded offsets |
| PdfExport.WriteEntry | src/components/pdf/PdfViewer.tsx:397-399 | one entry of `offsets[i] ?? 0` is pushed |
| PdfExport.ImagesPlanned | src/components/pdf/PdfViewer.tsx:329-341 | the numbering loop gives every object the number the layout has for it |
| PdfExport.WrittenPdf | src/components/pdf/PdfViewer.tsx:392-419 | the chunks with the table are the bytes of the exported file |
| PdfExport.BuildPdfFromJpegs | src/components/pdf/PdfViewer.tsx:312-420 | the returned bytes are exactly `Pdf(imgs)`, the file whose properties the lemmas above state; equal inputs give equal bytes |

## Left out

- Rendering, loading and printing through pdf.js, thumbnails, the fit-to-viewer scale, and the
  canvas compositing for print and save: a foreign library, asynchronous, and floating point.
- `localStorage`, JSON import/export and the restore of saved state on load: I/O. The
  clipboard is the `clipboard` field holding the copied annotation rather than its JSON text;
  paste from text that does not parse is not modelled.
- `queueRenderPage`, `toLocal`, `crypto.randomUUID`, the SHA-256 fingerprint and the `Blob`
  download: browser calls; the pointer position and the fresh id are parameters.
- React's setters and effects: each handler is a method that updates the fields at once, and
  each effect is a method called when its dependencies change.
- Overlay.Ratio: `start.w / start.h || 1` is ±Infinity in the source when the height is 0 and the width is not; the model uses 1 there and for NaN.
- Viewer.PdfViewer.Undo: that shown and hidden pages stay apart after undoing a reorder is not proved. The entry puts back a recorded list, so this depends on what the whole log did to the hidden list since then, and no log invariant is stated.
- Viewer.PdfViewer.Redo: the same holds for redoing a reorder, which puts back the recorded new order.
- Overlay.CornerStart: the source arms an `se` resize of a text box without a width or height with undefined sides (NaN geometry); the model does not arm that resize.
- Overlay.SnapSize: the grid size is the component's default, 8; a different `snapSize` property is not modelled.
- Viewer.PdfViewer.DeletePage: when the list still holds only duplicates of the deleted page, the source sets the current page to undefined; the model keeps it.
- Viewer.Lower: `toLowerCase` is modelled for ASCII letters only.
- Viewer.PdfViewer.Opened: models a load without saved state; the saved-state restore is I/O.
- The `last` value computed and discarded in `push`, and the unused `objects` array: they have no effect.
- Number formatting is NatToString of non-negative integers: width, height and lengths are
  non-negative integers in the source's use.
- The overlays' JSX (handles, selection boxes, the text input's width) and the `ResizeObserver`
  that sizes the overlay: presentation.
