/** `buildPdfFromJpegs` as the source writes it: a list of chunks that grows by `push`, the
    offsets table filled in by `writeObjHeader`, loops over the images, and the final copy
    into one `Uint8Array`. The method is proved to return `Pdf(imgs)`. */
module PdfWriter {
  import opened Utf8
  import opened Decimal
  import opened PdfFile
  import opened PdfImages

  // ---------------------------------------------------------------- what the writer has pushed

  /** What `writeObjHeader(num)`, the object's own pushes and `writeObjFooter()` add. */
  function ObjectWrite(num: nat, parts: seq<Chunk>): seq<Chunk>
  {
    [Str(ObjHeader(num))] + parts + [Str(ObjFooter())]
  }

  /** The chunks the first `j` objects in write order add after the header, object `t`
      made of the parts `pushed(t)`. */
  function ObjectsChunks(n: nat, pushed: nat -> seq<Chunk>, j: nat): seq<Chunk>
    requires j <= ObjectCount(n)
  {
    if j == 0 then []
    else ObjectsChunks(n, pushed, j - 1) + ObjectWrite(EmittedNum(n, j - 1), pushed(j - 1))
  }

  /** The number of bytes of the header. */
  const HeaderSize: nat := 19

  /** `offsets` once the first `j` objects are written: each header recorded `sizeSoFar()`,
      which is the position the file layout gives that object. */
  predicate RecordsOffsets(n: nat, os: seq<PdfObject>, offsets: map<nat, nat>, j: nat)
    requires j <= |os| == ObjectCount(n)
  {
    forall t :: 0 <= t < j ==> EmittedNum(n, t) in offsets && offsets[EmittedNum(n, t)] == Position(os, t)
  }

  /** `offsets[k] ?? 0` */
  function Lookup(offsets: map<nat, nat>, k: nat): nat
  {
    if k in offsets then offsets[k] else 0
  }

  /** The in-use entries the xref loop pushes for objects 1 to `i`. */
  function EntryChunks(offsets: map<nat, nat>, i: nat): seq<Chunk>
  {
    if i == 0 then [] else EntryChunks(offsets, i - 1) + [Str(XrefEntry(Lookup(offsets, i)))]
  }

  /** What the header and the objects push, in write order. */
  function BodyChunks(n: nat, pushed: nat -> seq<Chunk>): seq<Chunk>
  {
    [Str(Header())] + ObjectsChunks(n, pushed, ObjectCount(n))
  }

  /** What follows the objects: the table head, the free entry, one entry per object and
      the trailer that points back at `xrefStart`. */
  function TableChunks(total: nat, offsets: map<nat, nat>, xrefStart: nat): seq<Chunk>
  {
    [Str(XrefHead(total)), Str(FreeEntry())] + EntryChunks(offsets, total) + [Str(Trailer(total, xrefStart))]
  }

  // ---------------------------------------------------------------- the text is ASCII

  lemma ObjHeaderAscii(num: nat)
    ensures IsAscii(ObjHeader(num))
  {
    DigitsAscii(NatToString(num));
    assert IsAscii(" 0 obj\n");
    AsciiAppend(NatToString(num), " 0 obj\n");
  }

  lemma ObjFooterAscii()
    ensures IsAscii(ObjFooter())
  {
    assert IsAscii("\nendobj\n");
  }

  lemma XrefHeadAscii(total: nat)
    ensures IsAscii(XrefHead(total))
  {
    DigitsAscii(NatToString(total + 1));
    assert IsAscii("xref\n") && IsAscii("0 ") && IsAscii("\n");
    AsciiAppend("0 ", NatToString(total + 1));
    AsciiAppend("0 " + NatToString(total + 1), "\n");
    AsciiAppend("xref\n", XrefSubsection(total));
  }

  lemma FreeEntryAscii()
    ensures IsAscii(FreeEntry())
  {
    assert IsAscii("0000000000 65535 f \n");
  }

  lemma PaddedDigits(s: string, width: nat)
    requires AllDigits(s)
    ensures AllDigits(PadStart(s, width, '0'))
  {
    var r := PadStart(s, width, '0');
    forall i | 0 <= i < |r| ensures IsDigit(r[i]) {
      if i >= |r| - |s| {
        assert r[i] == r[|r| - |s|..][i - (|r| - |s|)];
      }
    }
  }

  lemma XrefEntryAscii(offset: nat)
    ensures IsAscii(XrefEntry(offset))
  {
    var digits := PadStart(NatToString(offset), 10, '0');
    PaddedDigits(NatToString(offset), 10);
    DigitsAscii(digits);
    assert IsAscii(" 00000 n \n");
    AsciiAppend(digits, InUseTail());
  }

  lemma TrailerAscii(total: nat, xrefStart: nat)
    ensures IsAscii(Trailer(total, xrefStart))
  {
    var size, one, start := NatToString(total + 1), NatToString(CatalogNum), NatToString(xrefStart);
    DigitsAscii(size);
    DigitsAscii(one);
    DigitsAscii(start);
    assert IsAscii(" 0 R") && IsAscii("trailer\n<< /Size ") && IsAscii(" /Root ") && IsAscii(" >>\n");
    assert IsAscii("startxref\n") && IsAscii("\n%%EOF");
    AsciiAppend(one, " 0 R");
    AsciiConcat5("trailer\n<< /Size ", size, " /Root ", Ref(CatalogNum), " >>\n");
    AsciiAppend("startxref\n", start);
    AsciiAppend("startxref\n" + start, "\n%%EOF");
    AsciiAppend(TrailerDict(total), StartXref(xrefStart));
  }

  /** A text chunk of ASCII text is its characters' codes. */
  lemma AsciiChunk(s: string)
    requires IsAscii(s)
    ensures Flatten([Str(s)]) == Ascii(s)
  {
    Flatten1(Str(s));
    EncodeIsAscii(s);
  }

  // ---------------------------------------------------------------- the chunks are the file

  /** The chunks written for one object are the bytes of that object. */
  lemma ObjectWriteBytes(num: nat, parts: seq<Chunk>)
    ensures Flatten(ObjectWrite(num, parts)) == ObjectBytes(PdfObject(num, Flatten(parts)))
  {
    FlattenAppend([Str(ObjHeader(num))] + parts, [Str(ObjFooter())]);
    FlattenAppend([Str(ObjHeader(num))], parts);
    ObjHeaderAscii(num);
    AsciiChunk(ObjHeader(num));
    ObjFooterAscii();
    AsciiChunk(ObjFooter());
  }

  /** The objects of the file layout, listed in write order, are the ones pushed: object `t`
      has the number handed out for it and the bytes of its parts. */
  predicate Pushes(n: nat, pushed: nat -> seq<Chunk>, os: seq<PdfObject>)
  {
    |os| == ObjectCount(n) && forall t :: 0 <= t < |os| ==> os[t] == PdfObject(EmittedNum(n, t), Flatten(pushed(t)))
  }

  lemma ObjectsPushed(n: nat, pushed: nat -> seq<Chunk>)
    ensures Pushes(n, pushed, Objects(n, FlatContents(pushed), ObjectCount(n)))
  {
    var os := Objects(n, FlatContents(pushed), ObjectCount(n));
    forall t | 0 <= t < |os| ensures os[t] == PdfObject(EmittedNum(n, t), Flatten(pushed(t))) {
      ObjectsAt(n, FlatContents(pushed), ObjectCount(n), t);
    }
  }

  /** The chunks of the first `j` objects are the bytes of those objects. */
  lemma {:induction false} ObjectsChunksBytes(n: nat, pushed: nat -> seq<Chunk>, os: seq<PdfObject>, j: nat)
    requires Pushes(n, pushed, os) && j <= ObjectCount(n)
    ensures Flatten(ObjectsChunks(n, pushed, j)) == Between(os, 0, j)
  {
    if j > 0 {
      ObjectsChunksBytes(n, pushed, os, j - 1);
      ObjectsStep(n, pushed, os, j);
    }
  }

  lemma ObjectsStep(n: nat, pushed: nat -> seq<Chunk>, os: seq<PdfObject>, j: nat)
    requires Pushes(n, pushed, os) && 0 < j <= ObjectCount(n)
    requires Flatten(ObjectsChunks(n, pushed, j - 1)) == Between(os, 0, j - 1)
    ensures Flatten(ObjectsChunks(n, pushed, j)) == Between(os, 0, j)
  {
    FlattenAppend(ObjectsChunks(n, pushed, j - 1), ObjectWrite(EmittedNum(n, j - 1), pushed(j - 1)));
    ObjectWriteBytes(EmittedNum(n, j - 1), pushed(j - 1));
  }

  /** The header chunk is the header's bytes. */
  lemma HeaderChunk()
    ensures Flatten([Str(Header())]) == HeaderBytes && |HeaderBytes| == HeaderSize
  {
    Flatten1(Str(Header()));
    HeaderEncoding();
  }

  /** Once `j` objects are written, the bytes so far are the header and those objects. */
  lemma WrittenSoFar(n: nat, pushed: nat -> seq<Chunk>, os: seq<PdfObject>, j: nat)
    requires Pushes(n, pushed, os) && j <= ObjectCount(n)
    ensures Flatten([Str(Header())] + ObjectsChunks(n, pushed, j)) == BodyBytes(os, j)
    ensures HeaderSize + |Flatten(ObjectsChunks(n, pushed, j))| == Position(os, j)
  {
    ObjectsChunksBytes(n, pushed, os, j);
    HeaderChunk();
    FlattenAppend([Str(Header())], ObjectsChunks(n, pushed, j));
    BodyExtends(os, 0, j);
  }

  lemma UpdateOther(m: map<nat, nat>, k: nat, v: nat, other: nat)
    requires other in m && other != k
    ensures other in m[k := v] && m[k := v][other] == m[other]
  {
  }

  lemma EmittedDistinct(n: nat, t: nat, u: nat)
    requires t < u < ObjectCount(n)
    ensures EmittedNum(n, t) != EmittedNum(n, u)
  {
    EmissionIndexOfEmitted(n, t);
    EmissionIndexOfEmitted(n, u);
  }

  /** Once all objects are written, `offsets[k] ?? 0` is the table entry of object `k`. */
  lemma RecordedTable(n: nat, os: seq<PdfObject>, offsets: map<nat, nat>)
    requires |os| == ObjectCount(n) && RecordsOffsets(n, os, offsets, |os|)
    ensures forall k :: 1 <= k <= ObjectCount(n) ==> Lookup(offsets, k) == OffsetTable(n, os)[k - 1]
  {
    forall k | 1 <= k <= ObjectCount(n) ensures Lookup(offsets, k) == OffsetTable(n, os)[k - 1] {
      var t := EmissionIndex(n, k);
      assert EmittedNum(n, t) == k;
    }
  }

  /** The entries the xref loop pushes are the table of the file layout. */
  lemma {:induction false} EntryChunksBytes(offsets: map<nat, nat>, tbl: seq<nat>, i: nat)
    requires i <= |tbl|
    requires forall k :: 1 <= k <= i ==> Lookup(offsets, k) == tbl[k - 1]
    ensures Flatten(EntryChunks(offsets, i)) == EntriesBytes(tbl[..i])
  {
    if i > 0 {
      EntryChunksBytes(offsets, tbl, i - 1);
      EntryStep(offsets, tbl, i);
    }
  }

  lemma EntryStep(offsets: map<nat, nat>, tbl: seq<nat>, i: nat)
    requires 0 < i <= |tbl| && Lookup(offsets, i) == tbl[i - 1]
    requires Flatten(EntryChunks(offsets, i - 1)) == EntriesBytes(tbl[..i - 1])
    ensures Flatten(EntryChunks(offsets, i)) == EntriesBytes(tbl[..i])
  {
    XrefEntryAscii(tbl[i - 1]);
    AsciiSnoc(EntryChunks(offsets, i - 1), XrefEntry(tbl[i - 1]));
    EntriesSnoc(tbl, i);
  }

  /** Appending an ASCII text chunk appends its characters' codes. */
  lemma AsciiSnoc(cs: seq<Chunk>, s: string)
    requires IsAscii(s)
    ensures Flatten(cs + [Str(s)]) == Flatten(cs) + Ascii(s)
  {
    FlattenSnoc(cs, Str(s));
    EncodeIsAscii(s);
  }

  lemma EntriesSnoc(tbl: seq<nat>, i: nat)
    requires 0 < i <= |tbl|
    ensures EntriesBytes(tbl[..i]) == EntriesBytes(tbl[..i - 1]) + Ascii(XrefEntry(tbl[i - 1]))
  {
    assert tbl[..i][..i - 1] == tbl[..i - 1];
  }

  /** Entries pushed for a whole table of recorded offsets are the bytes of that table. */
  lemma EntriesOfTable(offsets: map<nat, nat>, tbl: seq<nat>)
    requires forall k :: 1 <= k <= |tbl| ==> Lookup(offsets, k) == tbl[k - 1]
    ensures Flatten(EntryChunks(offsets, |tbl|)) == EntriesBytes(tbl)
  {
    EntryChunksBytes(offsets, tbl, |tbl|);
    assert tbl[..|tbl|] == tbl;
  }

  /** The table and trailer chunks are the bytes that follow the objects in the file. */
  lemma TailChunks(n: nat, os: seq<PdfObject>, offsets: map<nat, nat>, xrefStart: nat)
    requires |os| == ObjectCount(n) && RecordsOffsets(n, os, offsets, |os|)
    ensures var total := ObjectCount(n);
      Flatten(TableChunks(ObjectCount(n), offsets, xrefStart))
      == Ascii(XrefHead(total)) + Ascii(FreeEntry()) + EntriesBytes(OffsetTable(n, os)) + Ascii(Trailer(total, xrefStart))
  {
    var total := ObjectCount(n);
    var head := [Str(XrefHead(total)), Str(FreeEntry())];
    var entries := EntryChunks(offsets, total);
    var trailer := Trailer(total, xrefStart);
    RecordedTable(n, os, offsets);
    EntriesOfTable(offsets, OffsetTable(n, os));
    XrefHeadAscii(total);
    FreeEntryAscii();
    TrailerAscii(total, xrefStart);
    HeadChunks(XrefHead(total), FreeEntry());
    AsciiChunk(trailer);
    FlattenAppend(head + entries, [Str(trailer)]);
    FlattenAppend(head, entries);
  }

  lemma HeadChunks(a: string, b: string)
    requires IsAscii(a) && IsAscii(b)
    ensures Flatten([Str(a), Str(b)]) == Ascii(a) + Ascii(b)
  {
    Flatten2(Str(a), Str(b));
    EncodeIsAscii(a);
    EncodeIsAscii(b);
  }

  lemma Regroup(x: seq<byte>, a: seq<byte>, b: seq<byte>, c: seq<byte>, d: seq<byte>)
    ensures x + (a + b + c + d) == x + a + b + c + d
  {
  }

  /** Everything pushed, flattened, is the file layout of the objects: the body, then
      the table of the offsets recorded for it, then the trailer pointing at its end. */
  lemma WrittenFile(n: nat, pushed: nat -> seq<Chunk>, os: seq<PdfObject>, offsets: map<nat, nat>, xrefStart: nat)
    requires Pushes(n, pushed, os) && RecordsOffsets(n, os, offsets, |os|)
    requires xrefStart == HeaderSize + |Flatten(ObjectsChunks(n, pushed, ObjectCount(n)))|
    ensures Flatten(BodyChunks(n, pushed) + TableChunks(ObjectCount(n), offsets, xrefStart)) == File(n, os)
  {
    var total := ObjectCount(n);
    var body := BodyChunks(n, pushed);
    var table := TableChunks(total, offsets, xrefStart);
    WrittenSoFar(n, pushed, os, total);
    assert xrefStart == XrefStart(os);
    TailChunks(n, os, offsets, xrefStart);
    FlattenAppend(body, table);
    assert Flatten(body) == BodyBytes(os, |os|);
    Regroup(BodyBytes(os, |os|), Ascii(XrefHead(total)), Ascii(FreeEntry()), EntriesBytes(OffsetTable(n, os)),
            Ascii(Trailer(total, xrefStart)));
  }

  // ---------------------------------------------------------------- one object more

  lemma SizeWithHeader(n: nat, pushed: nat -> seq<Chunk>, j: nat)
    requires j <= ObjectCount(n)
    ensures |Flatten([Str(Header())] + ObjectsChunks(n, pushed, j))| == HeaderSize + |Flatten(ObjectsChunks(n, pushed, j))|
  {
    HeaderChunk();
    FlattenAppend([Str(Header())], ObjectsChunks(n, pushed, j));
  }

  /** The byte length of `prefix` and the first `j` objects in write order. */
  function SizeBefore(n: nat, pushed: nat -> seq<Chunk>, prefix: seq<Chunk>, j: nat): nat
    requires j <= ObjectCount(n)
  {
    |Flatten(prefix + ObjectsChunks(n, pushed, j))|
  }

  /** Under the number of each of the first `j` objects in write order, `offsets` holds
      the byte length of everything pushed before that object's header. */
  predicate RecordsSizes(n: nat, pushed: nat -> seq<Chunk>, prefix: seq<Chunk>, offsets: map<nat, nat>, j: nat)
    requires j <= ObjectCount(n)
  {
    forall t :: 0 <= t < j ==> RecordedAt(n, pushed, prefix, offsets, t)
  }

  /** `offsets` holds, under the number of the object written `t`-th, the size before it. */
  predicate RecordedAt(n: nat, pushed: nat -> seq<Chunk>, prefix: seq<Chunk>, offsets: map<nat, nat>, t: nat)
    requires t < ObjectCount(n)
  {
    EmittedNum(n, t) in offsets && Lookup(offsets, EmittedNum(n, t)) == SizeBefore(n, pushed, prefix, t)
  }

  /** The writer's state after `prefix` and the first `j` objects in write order. */
  predicate Written(n: nat, pushed: nat -> seq<Chunk>, prefix: seq<Chunk>, chunks: seq<Chunk>, offsets: map<nat, nat>, j: nat)
    requires j <= ObjectCount(n)
  {
    chunks == prefix + ObjectsChunks(n, pushed, j) && RecordsSizes(n, pushed, prefix, offsets, j)
  }

  /** Recording `sizeSoFar()` at the header of object `j` keeps the sizes recorded for the
      objects before it, whose numbers differ from `j`'s. */
  lemma RecordNext(n: nat, pushed: nat -> seq<Chunk>, prefix: seq<Chunk>, offsets: map<nat, nat>, j: nat)
    requires j < ObjectCount(n) && RecordsSizes(n, pushed, prefix, offsets, j)
    ensures RecordsSizes(n, pushed, prefix, offsets[EmittedNum(n, j) := SizeBefore(n, pushed, prefix, j)], j + 1)
  {
    var next := offsets[EmittedNum(n, j) := SizeBefore(n, pushed, prefix, j)];
    forall t | 0 <= t < j + 1
      ensures RecordedAt(n, pushed, prefix, next, t)
    {
      RecordOne(n, pushed, prefix, offsets, j, t);
    }
  }

  lemma RecordOne(n: nat, pushed: nat -> seq<Chunk>, prefix: seq<Chunk>, offsets: map<nat, nat>, j: nat, t: nat)
    requires t <= j < ObjectCount(n) && RecordsSizes(n, pushed, prefix, offsets, j)
    ensures RecordedAt(n, pushed, prefix, offsets[EmittedNum(n, j) := SizeBefore(n, pushed, prefix, j)], t)
  {
    if t < j {
      assert RecordedAt(n, pushed, prefix, offsets, t);
      EmittedDistinct(n, t, j);
      UpdateOther(offsets, EmittedNum(n, j), SizeBefore(n, pushed, prefix, j), EmittedNum(n, t));
    }
  }

  /** Before any object: nothing recorded, the chunks are the prefix. */
  lemma WrittenNone(n: nat, pushed: nat -> seq<Chunk>, prefix: seq<Chunk>, chunks: seq<Chunk>)
    requires chunks == prefix
    ensures Written(n, pushed, prefix, chunks, map[], 0)
  {
    assert prefix + ObjectsChunks(n, pushed, 0) == prefix;
  }

  /** Writing object `j` (its header, its parts, its footer) takes the writer from `j`
      objects to `j + 1`: the chunks grow by that object and `offsets` records where it starts. */
  lemma WriteStep(n: nat, pushed: nat -> seq<Chunk>, prefix: seq<Chunk>, j: nat,
                  chunks: seq<Chunk>, offsets: map<nat, nat>, num: nat, parts: seq<Chunk>)
    requires j < ObjectCount(n) && num == EmittedNum(n, j) && parts == pushed(j)
    requires Written(n, pushed, prefix, chunks, offsets, j)
    ensures Written(n, pushed, prefix, chunks + ObjectWrite(num, parts), offsets[num := |Flatten(chunks)|], j + 1)
  {
    RecordNext(n, pushed, prefix, offsets, j);
    assert |Flatten(chunks)| == SizeBefore(n, pushed, prefix, j);
    Assoc(prefix, ObjectsChunks(n, pushed, j), ObjectWrite(num, parts));
    assert chunks + ObjectWrite(num, parts) == prefix + ObjectsChunks(n, pushed, j + 1);
  }

  /** With the header as the prefix, the recorded sizes are the objects' positions in the file. */
  lemma SizesAreOffsets(n: nat, pushed: nat -> seq<Chunk>, os: seq<PdfObject>, offsets: map<nat, nat>)
    requires Pushes(n, pushed, os) && RecordsSizes(n, pushed, [Str(Header())], offsets, ObjectCount(n))
    ensures RecordsOffsets(n, os, offsets, |os|)
  {
    forall t | 0 <= t < |os| ensures EmittedNum(n, t) in offsets && offsets[EmittedNum(n, t)] == Position(os, t) {
      assert RecordedAt(n, pushed, [Str(Header())], offsets, t);
      assert Lookup(offsets, EmittedNum(n, t)) == |Flatten([Str(Header())] + ObjectsChunks(n, pushed, t))|;
      WrittenSoFar(n, pushed, os, t);
    }
  }
}
