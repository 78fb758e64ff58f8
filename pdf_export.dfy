/** `buildPdfFromJpegs` (src/components/pdf/PdfViewer.tsx) step by step: the `chunks` list
    and the `offsets` array its closures share, the loop that hands out object numbers,
    the two `forEach` loops over the images, the cross-reference loop and the final copy
    into one `Uint8Array`. The method is proved to return the bytes `Pdf(imgs)`. */
module PdfExport {
  import opened Utf8
  import opened Decimal
  import opened PdfFile
  import opened PdfImages
  import opened PdfWriter

  /** The state the closures `push`, `sizeSoFar`, `writeObjHeader` and `writeObjFooter` share. */
  class ChunkWriter {
    /** `chunks`: strings, encoded on output, and raw byte arrays. */
    var chunks: seq<Chunk>
    /** `offsets`: a sparse array indexed by object number. */
    var offsets: map<nat, nat>

    constructor ()
      ensures chunks == [] && offsets == map[]
    {
      chunks := [];
      offsets := map[];
    }

    /** `push(part)`. The length of the previous chunk it computes is never used. */
    method Push(part: Chunk)
      modifies this
      ensures chunks == old(chunks) + [part] && offsets == old(offsets)
    {
      chunks := chunks + [part];
    }

    /** `sizeSoFar()`: the byte length of everything pushed so far. */
    method SizeSoFar() returns (size: nat)
      ensures size == |Flatten(chunks)|
    {
      size := 0;
      var k := 0;
      while k < |chunks|
        invariant k <= |chunks| && size == |Flatten(chunks[..k])|
      {
        assert chunks[..k + 1] == chunks[..k] + [chunks[k]];
        FlattenSnoc(chunks[..k], chunks[k]);
        match chunks[k] {
          case Str(s) => size := size + |Encode(s)|;
          case Raw(b) => size := size + |b|;
        }
        k := k + 1;
      }
      assert chunks[..k] == chunks;
    }

    /** `writeObjHeader(num)`: records where object `num` starts, then pushes `num 0 obj`. */
    method WriteObjHeader(num: nat)
      modifies this
      ensures offsets == old(offsets)[num := |Flatten(old(chunks))|]
      ensures chunks == old(chunks) + [Str(ObjHeader(num))]
    {
      var size := SizeSoFar();
      offsets := offsets[num := size];
      Push(Str(ObjHeader(num)));
    }

    /** `writeObjFooter()` */
    method WriteObjFooter()
      modifies this
      ensures chunks == old(chunks) + [Str(ObjFooter())] && offsets == old(offsets)
    {
      Push(Str(ObjFooter()));
    }

    /** The final copy: the total length (the same sum `sizeSoFar` computes), a new array
        of that length, and every chunk copied in order. */
    method Concat() returns (out: array<byte>)
      ensures fresh(out) && out[..] == Flatten(chunks)
    {
      var len := SizeSoFar();
      out := new byte[len];
      var pos := 0;
      var k := 0;
      while k < |chunks|
        invariant k <= |chunks| && out.Length == len == |Flatten(chunks)|
        invariant pos == |Flatten(chunks[..k])| <= len
        invariant out[..pos] == Flatten(chunks[..k])
      {
        var b := ChunkBytes(chunks[k]);
        FlattenNext(chunks, k);
        CopyInto(out, b, pos);
        pos := pos + |b|;
        k := k + 1;
      }
      assert chunks[..k] == chunks;
    }
  }

  /** The bytes of one chunk more, which still fit in the bytes of all chunks. */
  lemma FlattenNext(cs: seq<Chunk>, k: nat)
    requires k < |cs|
    ensures Flatten(cs[..k + 1]) == Flatten(cs[..k]) + ChunkBytes(cs[k])
    ensures |Flatten(cs[..k + 1])| <= |Flatten(cs)|
  {
    assert cs[..k + 1] == cs[..k] + [cs[k]];
    FlattenSnoc(cs[..k], cs[k]);
    FlattenAppend(cs[..k + 1], cs[k + 1..]);
    assert cs[..k + 1] + cs[k + 1..] == cs;
  }

  /** `out.set(b, pos)`: copies `b` into `out` from `pos` on, keeping what is before it. */
  method CopyInto(out: array<byte>, b: seq<byte>, pos: nat)
    requires pos + |b| <= out.Length
    modifies out
    ensures out[..pos + |b|] == old(out[..pos]) + b
  {
    var t := 0;
    while t < |b|
      invariant t <= |b|
      invariant out[..pos + t] == old(out[..pos]) + b[..t]
    {
      out[pos + t] := b[t];
      assert b[..t + 1] == b[..t] + [b[t]];
      t := t + 1;
    }
    assert b[..t] == b;
  }

  // ---------------------------------------------------------------- the callbacks of the loops

  /** The body of the image loop: image XObject `num` with the JPEG data as its stream. */
  method WriteImage(w: ChunkWriter, img: JpegImage, num: nat)
    modifies w
    ensures w.chunks == old(w.chunks) + ObjectWrite(num, [Str(ImageDict(img)), Raw(img.data), Str(EndImageStream())])
    ensures w.offsets == old(w.offsets)[num := |Flatten(old(w.chunks))|]
  {
    w.WriteObjHeader(num);
    w.Push(Str(ImageDict(img)));
    w.Push(Raw(img.data));
    w.Push(Str(EndImageStream()));
    w.WriteObjFooter();
    Snoc5(old(w.chunks), Str(ObjHeader(num)), Str(ImageDict(img)), Raw(img.data), Str(EndImageStream()), Str(ObjFooter()));
  }

  /** The content stream `cnum` that draws image `inum`: `/Length` is the length of its text. */
  method WriteContent(w: ChunkWriter, img: JpegImage, cnum: nat)
    modifies w
    ensures w.chunks == old(w.chunks) + ObjectWrite(cnum, ContentChunks(img))
    ensures w.offsets == old(w.offsets)[cnum := |Flatten(old(w.chunks))|]
  {
    var content := ContentStream(img);
    w.WriteObjHeader(cnum);
    w.Push(Str(StreamDict(|content|)));
    w.Push(Str(content));
    w.Push(Str(EndContentStream()));
    w.WriteObjFooter();
    Snoc5(old(w.chunks), Str(ObjHeader(cnum)), Str(StreamDict(|content|)), Str(content), Str(EndContentStream()), Str(ObjFooter()));
  }

  /** The page `pnum` showing image `inum` through content stream `cnum`. */
  method WritePage(w: ChunkWriter, img: JpegImage, pnum: nat, inum: nat, cnum: nat)
    modifies w
    ensures w.chunks == old(w.chunks) + ObjectWrite(pnum, [Str(PageDict(img, inum, cnum))])
    ensures w.offsets == old(w.offsets)[pnum := |Flatten(old(w.chunks))|]
  {
    w.WriteObjHeader(pnum);
    w.Push(Str(PageDict(img, inum, cnum)));
    w.WriteObjFooter();
    Snoc3(old(w.chunks), Str(ObjHeader(pnum)), Str(PageDict(img, inum, cnum)), Str(ObjFooter()));
  }

  /** The page tree and the catalog. */
  method WriteSingle(w: ChunkWriter, num: nat, dict: string)
    modifies w
    ensures w.chunks == old(w.chunks) + ObjectWrite(num, [Str(dict)])
    ensures w.offsets == old(w.offsets)[num := |Flatten(old(w.chunks))|]
  {
    w.WriteObjHeader(num);
    w.Push(Str(dict));
    w.WriteObjFooter();
    Snoc3(old(w.chunks), Str(ObjHeader(num)), Str(dict), Str(ObjFooter()));
  }

  lemma Snoc5(c: seq<Chunk>, h: Chunk, x: Chunk, y: Chunk, z: Chunk, f: Chunk)
    ensures c + [h] + [x] + [y] + [z] + [f] == c + ([h] + [x, y, z] + [f])
  {
  }

  lemma Snoc3(c: seq<Chunk>, h: Chunk, x: Chunk, f: Chunk)
    ensures c + [h] + [x] + [f] == c + ([h] + [x] + [f])
  {
  }

  // ---------------------------------------------------------------- where each object goes

  /** Image `k` is written `k`-th, under the number the numbering loop gave it. */
  predicate ImagePlaced(imgs: seq<JpegImage>, pushed: nat -> seq<Chunk>, imgNums: seq<nat>, k: nat)
  {
    k < |imgs| && k < |imgNums|
    && imgNums[k] == EmittedNum(|imgs|, k)
    && pushed(k) == [Str(ImageDict(imgs[k])), Raw(imgs[k].data), Str(EndImageStream())]
  }

  /** Content stream `k` is written `(n + 2k)`-th. */
  predicate ContentPlaced(imgs: seq<JpegImage>, pushed: nat -> seq<Chunk>, contentNums: seq<nat>, k: nat)
  {
    k < |imgs| && k < |contentNums|
    && contentNums[k] == EmittedNum(|imgs|, |imgs| + 2 * k)
    && pushed(|imgs| + 2 * k) == ContentChunks(imgs[k])
  }

  /** Page `k` is written right after its content stream. */
  predicate PagePlaced(imgs: seq<JpegImage>, pushed: nat -> seq<Chunk>, imgNums: seq<nat>, contentNums: seq<nat>, pageNums: seq<nat>, k: nat)
  {
    k < |imgs| && k < |imgNums| && k < |contentNums| && k < |pageNums|
    && pageNums[k] == EmittedNum(|imgs|, |imgs| + 2 * k + 1)
    && pushed(|imgs| + 2 * k + 1) == [Str(PageDict(imgs[k], imgNums[k], contentNums[k]))]
  }

  predicate ImageSlots(imgs: seq<JpegImage>, pushed: nat -> seq<Chunk>, imgNums: seq<nat>)
  {
    |imgNums| == |imgs| && forall k :: 0 <= k < |imgs| ==> ImagePlaced(imgs, pushed, imgNums, k)
  }

  predicate PageSlots(imgs: seq<JpegImage>, pushed: nat -> seq<Chunk>, imgNums: seq<nat>, contentNums: seq<nat>, pageNums: seq<nat>)
  {
    |imgNums| == |contentNums| == |pageNums| == |imgs|
    && (forall k :: 0 <= k < |imgs| ==> ContentPlaced(imgs, pushed, contentNums, k))
    && (forall k :: 0 <= k < |imgs| ==> PagePlaced(imgs, pushed, imgNums, contentNums, pageNums, k))
  }

  /** The page tree goes after the pages and the catalog last. */
  predicate TreeSlots(imgs: seq<JpegImage>, pushed: nat -> seq<Chunk>, pageNums: seq<nat>)
  {
    EmittedNum(|imgs|, 3 * |imgs|) == PagesNum && pushed(3 * |imgs|) == [Str(PagesDict(|imgs|, pageNums))]
    && EmittedNum(|imgs|, 3 * |imgs| + 1) == CatalogNum && pushed(3 * |imgs| + 1) == [Str(CatalogDict())]
  }

  /** The numbers the numbering loop hands out, as `imgNums`, `contentNums` and `pageNums`. */
  predicate Numbered(n: nat, imgNums: seq<nat>, contentNums: seq<nat>, pageNums: seq<nat>)
  {
    |imgNums| == |contentNums| == |pageNums| == n
    && forall k :: 0 <= k < n ==> imgNums[k] == ImageNum(k) && contentNums[k] == ContentNum(k) && pageNums[k] == PageNum(k)
  }

  lemma ImageSlotsHold(imgs: seq<JpegImage>, imgNums: seq<nat>, contentNums: seq<nat>, pageNums: seq<nat>)
    requires Numbered(|imgs|, imgNums, contentNums, pageNums)
    ensures ImageSlots(imgs, Pushed(imgs), imgNums)
  {
    forall k | 0 <= k < |imgs| ensures ImagePlaced(imgs, Pushed(imgs), imgNums, k) {
      ImageSlot(imgs, k);
    }
  }

  lemma PageSlotsHold(imgs: seq<JpegImage>, imgNums: seq<nat>, contentNums: seq<nat>, pageNums: seq<nat>)
    requires Numbered(|imgs|, imgNums, contentNums, pageNums)
    ensures PageSlots(imgs, Pushed(imgs), imgNums, contentNums, pageNums)
  {
    forall k | 0 <= k < |imgs| ensures ContentPlaced(imgs, Pushed(imgs), contentNums, k) {
      ContentSlot(imgs, k);
    }
    forall k | 0 <= k < |imgs| ensures PagePlaced(imgs, Pushed(imgs), imgNums, contentNums, pageNums, k) {
      PageSlot(imgs, k);
    }
  }

  lemma TreeSlotsHold(imgs: seq<JpegImage>, pageNums: seq<nat>)
    requires pageNums == PageNums(|imgs|)
    ensures TreeSlots(imgs, Pushed(imgs), pageNums)
  {
  }

  lemma ImageSlot(imgs: seq<JpegImage>, i: nat)
    requires i < |imgs|
    ensures EmittedNum(|imgs|, i) == ImageNum(i)
    ensures Pushed(imgs)(i) == [Str(ImageDict(imgs[i])), Raw(imgs[i].data), Str(EndImageStream())]
  {
  }

  lemma ContentSlot(imgs: seq<JpegImage>, i: nat)
    requires i < |imgs|
    ensures EmittedNum(|imgs|, |imgs| + 2 * i) == ContentNum(i)
    ensures Pushed(imgs)(|imgs| + 2 * i) == ContentChunks(imgs[i])
  {
    InputPositions(|imgs|, i);
    StreamChunks(imgs, i);
  }

  lemma PageSlot(imgs: seq<JpegImage>, i: nat)
    requires i < |imgs|
    ensures EmittedNum(|imgs|, |imgs| + 2 * i + 1) == PageNum(i)
    ensures Pushed(imgs)(|imgs| + 2 * i + 1) == [Str(PageDict(imgs[i], ImageNum(i), ContentNum(i)))]
  {
    InputPositions(|imgs|, i);
    PageChunks(imgs, i, |imgs| + 2 * i + 1);
  }

  lemma PageChunks(imgs: seq<JpegImage>, i: nat, j: nat)
    requires i < |imgs| && j == |imgs| + 2 * i + 1
    ensures Pushed(imgs)(j) == [Str(PageDict(imgs[i], ImageNum(i), ContentNum(i)))]
  {
    PageDictChunks(imgs, i);
    assert Pushed(imgs)(j) == ObjectChunks(imgs, j);
  }

  /** The objects `buildPdfFromJpegs` writes are the ones of `Pdf(imgs)`. */
  lemma EmissionPushed(imgs: seq<JpegImage>)
    ensures Pushes(|imgs|, Pushed(imgs), Emission(imgs))
  {
    ObjectsPushed(|imgs|, Pushed(imgs));
  }

  // ---------------------------------------------------------------- the writer object by object

  /** The writer has pushed `prefix` and the first `j` objects in write order, and
      `offsets` holds where each of them starts. */
  predicate Wrote(w: ChunkWriter, n: nat, pushed: nat -> seq<Chunk>, prefix: seq<Chunk>, j: nat)
    reads w
    requires j <= ObjectCount(n)
  {
    Written(n, pushed, prefix, w.chunks, w.offsets, j)
  }

  lemma WroteAt(w: ChunkWriter, n: nat, pushed: nat -> seq<Chunk>, prefix: seq<Chunk>, j: nat, k: nat)
    requires j <= ObjectCount(n) && Wrote(w, n, pushed, prefix, j) && j == k
    ensures Wrote(w, n, pushed, prefix, k)
  {
  }

  /** Image `img` written as the `j`-th object. */
  method WriteImageAt(w: ChunkWriter, img: JpegImage, num: nat, ghost n: nat, ghost pushed: nat -> seq<Chunk>, ghost prefix: seq<Chunk>, ghost j: nat)
    requires j < ObjectCount(n) && num == EmittedNum(n, j)
    requires pushed(j) == [Str(ImageDict(img)), Raw(img.data), Str(EndImageStream())]
    requires Wrote(w, n, pushed, prefix, j)
    modifies w
    ensures Wrote(w, n, pushed, prefix, j + 1)
  {
    ghost var chunks, offsets := w.chunks, w.offsets;
    WriteImage(w, img, num);
    WriteStep(n, pushed, prefix, j, chunks, offsets, num, pushed(j));
  }

  /** The content stream drawing `img` written as the `j`-th object. */
  method WriteContentAt(w: ChunkWriter, img: JpegImage, cnum: nat, ghost n: nat, ghost pushed: nat -> seq<Chunk>, ghost prefix: seq<Chunk>, ghost j: nat)
    requires j < ObjectCount(n) && cnum == EmittedNum(n, j) && pushed(j) == ContentChunks(img)
    requires Wrote(w, n, pushed, prefix, j)
    modifies w
    ensures Wrote(w, n, pushed, prefix, j + 1)
  {
    ghost var chunks, offsets := w.chunks, w.offsets;
    WriteContent(w, img, cnum);
    WriteStep(n, pushed, prefix, j, chunks, offsets, cnum, pushed(j));
  }

  /** The page showing `img` written as the `j`-th object. */
  method WritePageAt(w: ChunkWriter, img: JpegImage, pnum: nat, inum: nat, cnum: nat,
                     ghost n: nat, ghost pushed: nat -> seq<Chunk>, ghost prefix: seq<Chunk>, ghost j: nat)
    requires j < ObjectCount(n) && pnum == EmittedNum(n, j) && pushed(j) == [Str(PageDict(img, inum, cnum))]
    requires Wrote(w, n, pushed, prefix, j)
    modifies w
    ensures Wrote(w, n, pushed, prefix, j + 1)
  {
    ghost var chunks, offsets := w.chunks, w.offsets;
    WritePage(w, img, pnum, inum, cnum);
    WriteStep(n, pushed, prefix, j, chunks, offsets, pnum, pushed(j));
  }

  /** A dictionary-only object written as the `j`-th object. */
  method WriteSingleAt(w: ChunkWriter, num: nat, dict: string, ghost n: nat, ghost pushed: nat -> seq<Chunk>, ghost prefix: seq<Chunk>, ghost j: nat)
    requires j < ObjectCount(n) && num == EmittedNum(n, j) && pushed(j) == [Str(dict)]
    requires Wrote(w, n, pushed, prefix, j)
    modifies w
    ensures Wrote(w, n, pushed, prefix, j + 1)
  {
    ghost var chunks, offsets := w.chunks, w.offsets;
    WriteSingle(w, num, dict);
    WriteStep(n, pushed, prefix, j, chunks, offsets, num, pushed(j));
  }

  /** `imgs.forEach(...)` writing the image XObjects. */
  method WriteImages(w: ChunkWriter, imgs: seq<JpegImage>, imgNums: seq<nat>, ghost pushed: nat -> seq<Chunk>, ghost prefix: seq<Chunk>)
    requires ImageSlots(imgs, pushed, imgNums) && Wrote(w, |imgs|, pushed, prefix, 0)
    modifies w
    ensures Wrote(w, |imgs|, pushed, prefix, |imgs|)
  {
    var idx := 0;
    while idx < |imgs|
      invariant idx <= |imgs| && Wrote(w, |imgs|, pushed, prefix, idx)
    {
      WriteImageSlot(w, imgs, imgNums, idx, pushed, prefix);
      idx := idx + 1;
    }
  }

  /** The body of the first loop: image `idx`, written as the `idx`-th object. */
  method WriteImageSlot(w: ChunkWriter, imgs: seq<JpegImage>, imgNums: seq<nat>, idx: nat, ghost pushed: nat -> seq<Chunk>, ghost prefix: seq<Chunk>)
    requires ImageSlots(imgs, pushed, imgNums) && idx < |imgs| && Wrote(w, |imgs|, pushed, prefix, idx)
    modifies w
    ensures Wrote(w, |imgs|, pushed, prefix, idx + 1)
  {
    assert ImagePlaced(imgs, pushed, imgNums, idx);
    WriteImageAt(w, imgs[idx], imgNums[idx], |imgs|, pushed, prefix, idx);
  }

  /** `imgs.forEach(...)` writing each content stream, then its page. */
  method WriteContentsAndPages(w: ChunkWriter, imgs: seq<JpegImage>, imgNums: seq<nat>, contentNums: seq<nat>, pageNums: seq<nat>,
                               ghost pushed: nat -> seq<Chunk>, ghost prefix: seq<Chunk>)
    requires PageSlots(imgs, pushed, imgNums, contentNums, pageNums)
    requires Wrote(w, |imgs|, pushed, prefix, |imgs|)
    modifies w
    ensures Wrote(w, |imgs|, pushed, prefix, 3 * |imgs|)
  {
    var n := |imgs|;
    var idx := 0;
    ghost var j := n;
    while idx < n
      invariant idx <= n && j == n + 2 * idx && Wrote(w, n, pushed, prefix, j)
    {
      WriteContentAndPage(w, imgs, imgNums, contentNums, pageNums, idx, pushed, prefix, j);
      idx := idx + 1;
      j := j + 1 + 1;
    }
    WroteAt(w, n, pushed, prefix, j, 3 * n);
  }

  /** The body of the second loop: content stream `idx`, then page `idx`. */
  method WriteContentAndPage(w: ChunkWriter, imgs: seq<JpegImage>, imgNums: seq<nat>, contentNums: seq<nat>, pageNums: seq<nat>,
                             idx: nat, ghost pushed: nat -> seq<Chunk>, ghost prefix: seq<Chunk>, ghost j: nat)
    requires PageSlots(imgs, pushed, imgNums, contentNums, pageNums) && idx < |imgs| && j == |imgs| + 2 * idx
    requires Wrote(w, |imgs|, pushed, prefix, j)
    modifies w
    ensures Wrote(w, |imgs|, pushed, prefix, j + 1 + 1)
  {
    WriteContentSlot(w, imgs, imgNums, contentNums, pageNums, idx, pushed, prefix, j);
    WritePageSlot(w, imgs, imgNums, contentNums, pageNums, idx, pushed, prefix, j + 1);
  }

  /** Content stream `idx`, written as the `j`-th object. */
  method WriteContentSlot(w: ChunkWriter, imgs: seq<JpegImage>, imgNums: seq<nat>, contentNums: seq<nat>, pageNums: seq<nat>,
                          idx: nat, ghost pushed: nat -> seq<Chunk>, ghost prefix: seq<Chunk>, ghost j: nat)
    requires PageSlots(imgs, pushed, imgNums, contentNums, pageNums) && idx < |imgs| && j == |imgs| + 2 * idx
    requires Wrote(w, |imgs|, pushed, prefix, j)
    modifies w
    ensures Wrote(w, |imgs|, pushed, prefix, j + 1)
  {
    PageSlotAt(imgs, pushed, imgNums, contentNums, pageNums, idx, j);
    WriteContentAt(w, imgs[idx], contentNums[idx], |imgs|, pushed, prefix, j);
  }

  /** Page `idx`, written as the `j`-th object, right after its content stream. */
  method WritePageSlot(w: ChunkWriter, imgs: seq<JpegImage>, imgNums: seq<nat>, contentNums: seq<nat>, pageNums: seq<nat>,
                       idx: nat, ghost pushed: nat -> seq<Chunk>, ghost prefix: seq<Chunk>, ghost j: nat)
    requires PageSlots(imgs, pushed, imgNums, contentNums, pageNums) && idx < |imgs| && j == |imgs| + 2 * idx + 1
    requires Wrote(w, |imgs|, pushed, prefix, j)
    modifies w
    ensures Wrote(w, |imgs|, pushed, prefix, j + 1)
  {
    PageSlotAt(imgs, pushed, imgNums, contentNums, pageNums, idx, j - 1);
    WritePageAt(w, imgs[idx], pageNums[idx], imgNums[idx], contentNums[idx], |imgs|, pushed, prefix, j);
  }

  lemma PageSlotAt(imgs: seq<JpegImage>, pushed: nat -> seq<Chunk>, imgNums: seq<nat>, contentNums: seq<nat>, pageNums: seq<nat>,
                   idx: nat, j: nat)
    requires PageSlots(imgs, pushed, imgNums, contentNums, pageNums) && idx < |imgs| && j == |imgs| + 2 * idx
    ensures contentNums[idx] == EmittedNum(|imgs|, j) && pushed(j) == ContentChunks(imgs[idx])
    ensures pageNums[idx] == EmittedNum(|imgs|, j + 1)
    ensures pushed(j + 1) == [Str(PageDict(imgs[idx], imgNums[idx], contentNums[idx]))]
  {
    assert ContentPlaced(imgs, pushed, contentNums, idx);
    assert PagePlaced(imgs, pushed, imgNums, contentNums, pageNums, idx);
  }

  /** The page tree, listing the pages in input order, then the catalog. */
  method WriteTree(w: ChunkWriter, imgs: seq<JpegImage>, pageNums: seq<nat>, pagesNum: nat, catalogNum: nat,
                   ghost pushed: nat -> seq<Chunk>, ghost prefix: seq<Chunk>)
    requires pagesNum == PagesNum && catalogNum == CatalogNum
    requires TreeSlots(imgs, pushed, pageNums) && Wrote(w, |imgs|, pushed, prefix, 3 * |imgs|)
    modifies w
    ensures Wrote(w, |imgs|, pushed, prefix, ObjectCount(|imgs|))
  {
    var n := |imgs|;
    WriteSingleAt(w, pagesNum, PagesDict(n, pageNums), n, pushed, prefix, 3 * n);
    WriteSingleAt(w, catalogNum, CatalogDict(), n, pushed, prefix, 3 * n + 1);
    WroteAt(w, n, pushed, prefix, 3 * n + 1 + 1, ObjectCount(n));
  }


  /** The cross-reference table, one entry `offsets[i] ?? 0` per object, then the trailer. */
  method WriteTable(w: ChunkWriter, total: nat, xrefStart: nat)
    modifies w
    ensures w.chunks == old(w.chunks) + TableChunks(total, old(w.offsets), xrefStart)
    ensures w.offsets == old(w.offsets)
  {
    ghost var start := w.chunks;
    w.Push(Str(XrefHead(total)));
    w.Push(Str(FreeEntry()));
    ghost var head := w.chunks;
    WriteEntries(w, total);
    ghost var entries := EntryChunks(w.offsets, total);
    w.Push(Str(Trailer(total, xrefStart)));
    TableSplit(start, head, w.chunks, entries, [Str(XrefHead(total)), Str(FreeEntry())], Str(Trailer(total, xrefStart)));
  }

  lemma TableSplit(start: seq<Chunk>, head: seq<Chunk>, chunks: seq<Chunk>, entries: seq<Chunk>, first: seq<Chunk>, last: Chunk)
    requires head == start + first && chunks == head + entries + [last]
    ensures chunks == start + (first + entries + [last])
  {
  }

  /** The loop `for (let i = 1; i <= totalObjs; i++)`: one in-use entry per object number. */
  method WriteEntries(w: ChunkWriter, total: nat)
    modifies w
    ensures w.chunks == old(w.chunks) + EntryChunks(old(w.offsets), total)
    ensures w.offsets == old(w.offsets)
  {
    var i := 1;
    while i <= total
      invariant 1 <= i <= total + 1 && w.offsets == old(w.offsets)
      invariant w.chunks == old(w.chunks) + EntryChunks(w.offsets, i - 1)
    {
      ghost var before := w.chunks;
      WriteEntry(w, i);
      EntriesNext(old(w.chunks), before, w.chunks, w.offsets, i);
      i := i + 1;
    }
  }

  lemma EntriesNext(start: seq<Chunk>, before: seq<Chunk>, after: seq<Chunk>, offsets: map<nat, nat>, i: nat)
    requires i >= 1 && before == start + EntryChunks(offsets, i - 1)
    requires after == before + [Str(XrefEntry(Lookup(offsets, i)))]
    ensures after == start + EntryChunks(offsets, i)
  {
  }

  /** One line of the table: `offsets[i] ?? 0`, padded to ten digits, then ` 00000 n `. */
  method WriteEntry(w: ChunkWriter, i: nat)
    requires i >= 1
    modifies w
    ensures w.chunks == old(w.chunks) + [Str(XrefEntry(Lookup(w.offsets, i)))] && w.offsets == old(w.offsets)
  {
    var off := if i in w.offsets then w.offsets[i] else 0;
    var offStr := PadStart(NatToString(off), 10, '0');
    w.Push(Str(offStr + InUseTail()));
  }

  /** `buildPdfFromJpegs(imgs)`: the bytes of a PDF with one page per image. */
  method BuildPdfFromJpegs(imgs: seq<JpegImage>) returns (out: array<byte>)
    ensures out[..] == Pdf(imgs)
  {
    var n := |imgs|;
    var w := new ChunkWriter();
    var objNum := 1;
    var catalogNum := objNum;
    objNum := objNum + 1;
    var pagesNum := objNum;
    objNum := objNum + 1;
    var pageNums, imgNums, contentNums := [], [], [];
    var i := 0;
    while i < n
      invariant i <= n && objNum == 3 + 3 * i && Numbered(i, imgNums, contentNums, pageNums)
    {
      imgNums := imgNums + [objNum];
      objNum := objNum + 1;
      contentNums := contentNums + [objNum];
      objNum := objNum + 1;
      pageNums := pageNums + [objNum];
      objNum := objNum + 1;
      i := i + 1;
    }
    ImagesPlanned(imgs, imgNums, contentNums, pageNums);
    ghost var pushed, prefix := Pushed(imgs), [Str(Header())];

    w.Push(Str(Header()));
    WrittenNone(n, pushed, prefix, w.chunks);
    WriteImages(w, imgs, imgNums, pushed, prefix);
    WriteContentsAndPages(w, imgs, imgNums, contentNums, pageNums, pushed, prefix);
    WriteTree(w, imgs, pageNums, pagesNum, catalogNum, pushed, prefix);
    var xrefStart := w.SizeSoFar();
    var totalObjs := objNum - 1;
    ghost var chunks, offsets := w.chunks, w.offsets;
    WriteTable(w, totalObjs, xrefStart);
    out := w.Concat();
    WrittenPdf(imgs, chunks, offsets, totalObjs, xrefStart);
  }

  /** Where the numbering loop puts every object is where `Pdf(imgs)` has it. */
  lemma ImagesPlanned(imgs: seq<JpegImage>, imgNums: seq<nat>, contentNums: seq<nat>, pageNums: seq<nat>)
    requires Numbered(|imgs|, imgNums, contentNums, pageNums)
    ensures ImageSlots(imgs, Pushed(imgs), imgNums)
    ensures PageSlots(imgs, Pushed(imgs), imgNums, contentNums, pageNums)
    ensures TreeSlots(imgs, Pushed(imgs), pageNums)
  {
    ImageSlotsHold(imgs, imgNums, contentNums, pageNums);
    PageSlotsHold(imgs, imgNums, contentNums, pageNums);
    assert pageNums == PageNums(|imgs|);
    TreeSlotsHold(imgs, pageNums);
  }

  /** All objects pushed after the header, then the table: the bytes of `Pdf(imgs)`. */
  lemma WrittenPdf(imgs: seq<JpegImage>, chunks: seq<Chunk>, offsets: map<nat, nat>, total: nat, xrefStart: nat)
    requires total == ObjectCount(|imgs|) && Written(|imgs|, Pushed(imgs), [Str(Header())], chunks, offsets, total)
    requires xrefStart == |Flatten(chunks)|
    ensures Flatten(chunks + TableChunks(total, offsets, xrefStart)) == Pdf(imgs)
  {
    var n := |imgs|;
    EmissionPushed(imgs);
    SizesAreOffsets(n, Pushed(imgs), Emission(imgs), offsets);
    SizeWithHeader(n, Pushed(imgs), ObjectCount(n));
    WrittenFile(n, Pushed(imgs), Emission(imgs), offsets, xrefStart);
  }
}
