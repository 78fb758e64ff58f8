/** The file layout `buildPdfFromJpegs` produces for any list of indirect objects written
    in order: the PDF 1.4 header, the objects, a cross-reference table of byte offsets in
    number order, and the trailer (ISO 32000-1, sections 7.5.2 to 7.5.5). The lemmas here
    state what a reader of such a file relies on; they hold whatever the objects contain. */
module PdfFile {
  import opened Utf8
  import opened Decimal

  /** An element of the `chunks` array: text, encoded as UTF-8 on output, or raw bytes. */
  datatype Chunk = Str(s: string) | Raw(b: seq<byte>)

  function ChunkBytes(c: Chunk): seq<byte>
  {
    match c
    case Str(s) => Encode(s)
    case Raw(b) => b
  }

  /** The bytes of a list of chunks, one after the other. */
  function Flatten(cs: seq<Chunk>): seq<byte>
  {
    if cs == [] then [] else Flatten(cs[..|cs| - 1]) + ChunkBytes(cs[|cs| - 1])
  }

  lemma {:induction false} FlattenAppend(a: seq<Chunk>, b: seq<Chunk>)
    ensures Flatten(a + b) == Flatten(a) + Flatten(b)
  {
    if b == [] {
      assert a + b == a;
    } else {
      assert (a + b)[..|a + b| - 1] == a + b[..|b| - 1];
      FlattenAppend(a, b[..|b| - 1]);
    }
  }

  lemma Flatten1(a: Chunk)
    ensures Flatten([a]) == ChunkBytes(a)
  {
    assert [a][..0] == [];
  }

  lemma Flatten2(a: Chunk, b: Chunk)
    ensures Flatten([a, b]) == ChunkBytes(a) + ChunkBytes(b)
  {
    assert [a, b][..1] == [a];
    Flatten1(a);
  }

  lemma Flatten3(a: Chunk, b: Chunk, c: Chunk)
    ensures Flatten([a, b, c]) == ChunkBytes(a) + ChunkBytes(b) + ChunkBytes(c)
  {
    assert [a, b, c][..2] == [a, b];
    Flatten2(a, b);
  }

  lemma FlattenSnoc(cs: seq<Chunk>, c: Chunk)
    ensures Flatten(cs + [c]) == Flatten(cs) + ChunkBytes(c)
  {
    assert (cs + [c])[..|cs|] == cs;
  }

  // ---------------------------------------------------------------- numbering

  const CatalogNum: nat := 1
  const PagesNum: nat := 2

  /** Object numbers of the image, content stream and page made for input `i`. */
  function ImageNum(i: nat): nat { 3 + 3 * i }
  function ContentNum(i: nat): nat { 4 + 3 * i }
  function PageNum(i: nat): nat { 5 + 3 * i }

  /** Objects in a file made from `n` images: `objNum - 1` once all numbers are handed out. */
  function ObjectCount(n: nat): nat { 3 * n + 2 }

  /** The number of the object written `j`-th: all images, then each content stream
      with its page, then the page tree, then the catalog. */
  function EmittedNum(n: nat, j: nat): (k: nat)
    requires j < ObjectCount(n)
    ensures 1 <= k <= ObjectCount(n)
  {
    if j < n then ImageNum(j)
    else if j < 3 * n then
      (var t := j - n; if t % 2 == 0 then ContentNum(t / 2) else PageNum(t / 2))
    else if j == 3 * n then PagesNum
    else CatalogNum
  }

  /** The position in the write order of the object numbered `k`. */
  function EmissionIndex(n: nat, k: nat): (j: nat)
    requires 1 <= k <= ObjectCount(n)
    ensures j < ObjectCount(n) && EmittedNum(n, j) == k
  {
    if k == CatalogNum then 3 * n + 1
    else if k == PagesNum then 3 * n
    else
      var i, r := (k - 3) / 3, (k - 3) % 3;
      if r == 0 then i else if r == 1 then n + 2 * i else n + 2 * i + 1
  }

  lemma DivMod3(i: nat, r: nat)
    requires r < 3
    ensures (3 * i + r) / 3 == i && (3 * i + r) % 3 == r
  {
  }

  lemma DivMod2(i: nat, r: nat)
    requires r < 2
    ensures (2 * i + r) / 2 == i && (2 * i + r) % 2 == r
  {
  }

  /** Every position is written once: the write order is a bijection onto the numbers 1 to 3n+2. */
  lemma EmissionIndexOfEmitted(n: nat, j: nat)
    requires j < ObjectCount(n)
    ensures EmissionIndex(n, EmittedNum(n, j)) == j
  {
  }

  /** Where the objects of input `i` are written. */
  lemma InputPositions(n: nat, i: nat)
    requires i < n
    ensures EmissionIndex(n, ImageNum(i)) == i
    ensures EmissionIndex(n, ContentNum(i)) == n + 2 * i
    ensures EmissionIndex(n, PageNum(i)) == n + 2 * i + 1
  {
    DivMod3(i, 0);
    DivMod3(i, 1);
    DivMod3(i, 2);
  }

  // ---------------------------------------------------------------- text around the objects

  function Ref(num: nat): string { NatToString(num) + " 0 R" }

  function Header(): string { "%PDF-1.4\n%\U{FF}\U{FF}\U{FF}\U{FF}\n" }

  function ObjHeader(num: nat): string { NatToString(num) + " 0 obj\n" }

  function ObjFooter(): string { "\nendobj\n" }

  function XrefKeyword(): string { "xref\n" }

  /** The subsection line: objects 0 to `total`. */
  function XrefSubsection(total: nat): string { "0 " + NatToString(total + 1) + "\n" }

  function XrefHead(total: nat): string { XrefKeyword() + XrefSubsection(total) }

  function FreeEntry(): string { "0000000000 65535 f \n" }

  function InUseTail(): string { " 00000 n \n" }

  function XrefEntry(offset: nat): string { PadStart(NatToString(offset), 10, '0') + InUseTail() }

  function StartXref(xrefStart: nat): string { "startxref\n" + NatToString(xrefStart) + "\n%%EOF" }

  function TrailerDict(total: nat): string
  {
    "trailer\n<< /Size " + NatToString(total + 1) + " /Root " + Ref(CatalogNum) + " >>\n"
  }

  function Trailer(total: nat, xrefStart: nat): string
  {
    TrailerDict(total) + StartXref(xrefStart)
  }

  /** Decimal digits are ASCII. */
  lemma DigitsAscii(s: string)
    requires AllDigits(s)
    ensures IsAscii(s)
  {
  }

  // ---------------------------------------------------------------- the file

  /** An indirect object: its number and the bytes between its header line and its footer. */
  datatype PdfObject = PdfObject(num: nat, content: seq<byte>)

  /** What `writeObjHeader`, the object's own pushes and `writeObjFooter` add. All the
      text the writer produces around objects is ASCII, which `TextEncoder` writes one
      byte per character. */
  function ObjectBytes(o: PdfObject): seq<byte>
  {
    Ascii(ObjHeader(o.num)) + o.content + Ascii(ObjFooter())
  }

  /** The objects of a file from `n` images, listed as written, carry the numbers the
      writer hands out. */
  predicate InWriteOrder(n: nat, os: seq<PdfObject>)
  {
    |os| == ObjectCount(n) && forall j :: 0 <= j < |os| ==> os[j].num == EmittedNum(n, j)
  }

  /** The first `j` objects in write order, object `t` holding `content(t)`. */
  function Objects(n: nat, content: nat -> seq<byte>, j: nat): (os: seq<PdfObject>)
    requires j <= ObjectCount(n)
    ensures |os| == j
  {
    if j == 0 then [] else Objects(n, content, j - 1) + [PdfObject(EmittedNum(n, j - 1), content(j - 1))]
  }

  lemma {:induction false} ObjectsAt(n: nat, content: nat -> seq<byte>, j: nat, t: nat)
    requires t < j <= ObjectCount(n)
    ensures Objects(n, content, j)[t] == PdfObject(EmittedNum(n, t), content(t))
  {
    if t < j - 1 {
      ObjectsAt(n, content, j - 1, t);
    }
  }

  /** The content function of objects whose content is the bytes of the chunks pushed for them. */
  function FlatContents(pushed: nat -> seq<Chunk>): nat -> seq<byte>
  {
    (j: nat) => Flatten(pushed(j))
  }

  lemma ObjectsInWriteOrder(n: nat, content: nat -> seq<byte>)
    ensures InWriteOrder(n, Objects(n, content, ObjectCount(n)))
  {
    forall t | 0 <= t < ObjectCount(n) ensures Objects(n, content, ObjectCount(n))[t].num == EmittedNum(n, t) {
      ObjectsAt(n, content, ObjectCount(n), t);
    }
  }

  /** The bytes written before object `os[j]`: the header, then the objects before it. */
  function BodyBytes(os: seq<PdfObject>, j: nat): seq<byte>
    requires j <= |os|
  {
    if j == 0 then HeaderBytes else BodyBytes(os, j - 1) + ObjectBytes(os[j - 1])
  }

  /** The bytes of the objects `os[j..m]`. */
  function Between(os: seq<PdfObject>, j: nat, m: nat): seq<byte>
    requires j <= m <= |os|
    decreases m
  {
    if m == j then [] else Between(os, j, m - 1) + ObjectBytes(os[m - 1])
  }

  /** `sizeSoFar()` when object `os[j]` is about to be written. */
  function Position(os: seq<PdfObject>, j: nat): nat
    requires j <= |os|
  {
    |BodyBytes(os, j)|
  }

  /** `offsets[k]`: the byte offset of the object numbered `k`. */
  function Offset(n: nat, os: seq<PdfObject>, k: nat): nat
    requires |os| == ObjectCount(n) && 1 <= k <= ObjectCount(n)
  {
    Position(os, EmissionIndex(n, k))
  }

  /** `xrefStart`: the size of the header and all objects. */
  function XrefStart(os: seq<PdfObject>): nat
  {
    Position(os, |os|)
  }

  /** The offsets of objects 1 to 3n+2, in number order: `offsets[1..]`. */
  function OffsetTable(n: nat, os: seq<PdfObject>): (r: seq<nat>)
    requires |os| == ObjectCount(n)
    ensures |r| == ObjectCount(n)
  {
    seq(ObjectCount(n), i requires 0 <= i < ObjectCount(n) => Offset(n, os, i + 1))
  }

  /** The in-use cross-reference entries for a list of offsets, one after the other. */
  function EntriesBytes(offsets: seq<nat>): seq<byte>
  {
    if offsets == [] then []
    else EntriesBytes(offsets[..|offsets| - 1]) + Ascii(XrefEntry(offsets[|offsets| - 1]))
  }

  /** The bytes of the file. */
  function File(n: nat, os: seq<PdfObject>): seq<byte>
    requires |os| == ObjectCount(n)
  {
    var total := ObjectCount(n);
    BodyBytes(os, |os|) + Ascii(XrefHead(total)) + Ascii(FreeEntry()) + EntriesBytes(OffsetTable(n, os))
    + Ascii(Trailer(total, XrefStart(os)))
  }

  // ---------------------------------------------------------------- byte positions

  /** `p` holds the bytes `b` starting at offset `off`. */
  predicate At(p: seq<byte>, off: nat, b: seq<byte>)
  {
    off + |b| <= |p| && forall i :: 0 <= i < |b| ==> p[off + i] == b[i]
  }

  /** `p` ends with the bytes `b`. */
  predicate EndsWith(p: seq<byte>, b: seq<byte>)
  {
    |b| <= |p| && p[|p| - |b|..] == b
  }

  lemma AtAfter(p: seq<byte>, a: seq<byte>, b: seq<byte>, r: seq<byte>)
    requires p == a + b + r
    ensures At(p, |a|, b)
  {
    assert p[|a|..|a| + |b|] == b;
  }

  lemma AtMiddle(p: seq<byte>, off: nat, b: seq<byte>, u: seq<byte>, v: seq<byte>, w: seq<byte>)
    requires At(p, off, b) && b == u + v + w
    ensures At(p, off + |u|, v)
  {
    forall i | 0 <= i < |v| ensures p[off + |u| + i] == v[i] {
      assert p[off + (|u| + i)] == b[|u| + i];
    }
  }

  lemma AtFront(p: seq<byte>, off: nat, b: seq<byte>, v: seq<byte>, w: seq<byte>, x: seq<byte>)
    requires At(p, off, b) && b == v + w + x
    ensures At(p, off, v) && At(p, off + |v|, w)
  {
    forall i | 0 <= i < |v| ensures p[off + i] == v[i] {
      assert p[off + i] == b[i];
    }
    forall i | 0 <= i < |w| ensures p[off + |v| + i] == w[i] {
      assert p[off + (|v| + i)] == b[|v| + i];
    }
  }

  lemma AtPrefix(p: seq<byte>, off: nat, b: seq<byte>, c: seq<byte>)
    requires At(p, off, b + c)
    ensures At(p, off, b)
  {
    forall i | 0 <= i < |b| ensures p[off + i] == b[i] {
      assert p[off + i] == (b + c)[i];
    }
  }

  lemma AtSuffix(p: seq<byte>, off: nat, a: seq<byte>, b: seq<byte>)
    requires At(p, off, a + b)
    ensures At(p, off + |a|, b)
  {
    forall i | 0 <= i < |b| ensures p[off + |a| + i] == b[i] {
      assert p[off + (|a| + i)] == (a + b)[|a| + i];
    }
  }

  lemma AtShift(p: seq<byte>, pre: seq<byte>, q: seq<byte>, r: seq<byte>, off: nat, b: seq<byte>)
    requires p == pre + q + r && At(q, off, b)
    ensures At(p, |pre| + off, b)
  {
    forall i | 0 <= i < |b| ensures p[|pre| + off + i] == b[i] {
      assert q[off + i] == b[i];
    }
  }

  lemma AtExtend(p: seq<byte>, q: seq<byte>, off: nat, b: seq<byte>)
    requires At(p, off, b)
    ensures At(p + q, off, b)
  {
    assert (p + q)[off..off + |b|] == p[off..off + |b|];
  }

  lemma AtSlice(p: seq<byte>, off: nat, b: seq<byte>, i: nat, j: nat)
    requires At(p, off, b) && i <= j <= |b|
    ensures p[off + i..off + j] == b[i..j]
  {
    forall t | 0 <= t < j - i ensures p[off + i..off + j][t] == b[i..j][t] {
      assert p[off + (i + t)] == b[i + t];
    }
  }

  lemma AtEnd(p: seq<byte>, q: seq<byte>)
    ensures At(p + q, |p|, q)
  {
    assert (p + q)[|p|..|p| + |q|] == q;
  }

  /** The third and fourth of five consecutive parts of some bytes. */
  lemma AtParts(p: seq<byte>, off: nat, b: seq<byte>, x1: seq<byte>, x2: seq<byte>, x3: seq<byte>, x4: seq<byte>, x5: seq<byte>)
    requires At(p, off, b) && b == x1 + x2 + x3 + x4 + x5
    ensures At(p, off + |x1| + |x2|, x3) && At(p, off + |x1| + |x2| + |x3|, x4)
  {
    AtMiddle(p, off, b, x1 + x2, x3, x4 + x5);
    AtMiddle(p, off, b, x1 + x2 + x3, x4, x5);
  }

  lemma Assoc<T>(a: seq<T>, b: seq<T>, c: seq<T>)
    ensures a + (b + c) == a + b + c
  {
  }

  lemma SplitFirst(p: seq<byte>, a: seq<byte>, h: seq<byte>, f: seq<byte>, e: seq<byte>, t: seq<byte>, k: seq<byte>, u: seq<byte>)
    requires p == a + h + f + e + t && h == k + u
    ensures p == a + k + (u + f + e + t)
  {
  }

  lemma EndsWithSuffix(p: seq<byte>, a: seq<byte>, t: seq<byte>, b: seq<byte>)
    requires p == a + (t + b)
    ensures EndsWith(p, b)
  {
  }

  // ---------------------------------------------------------------- the header

  /** The header as bytes: `TextEncoder` turns each U+00FF into the two bytes C3 BF. */
  const HeaderBytes: seq<byte> :=
    [0x25, 0x50, 0x44, 0x46, 0x2D, 0x31, 0x2E, 0x34, 0x0A,
     0x25, 0xC3, 0xBF, 0xC3, 0xBF, 0xC3, 0xBF, 0xC3, 0xBF, 0x0A]

  lemma EncodeHeaderParts(a: string, f: string, z: string)
    ensures Encode(a + f + f + f + f + z) == Encode(a) + Encode(f) + Encode(f) + Encode(f) + Encode(f) + Encode(z)
  {
    EncodeAppend(a + f + f + f + f, z);
    EncodeAppend(a + f + f + f, f);
    EncodeAppend(a + f + f, f);
    EncodeAppend(a + f, f);
    EncodeAppend(a, f);
  }

  lemma ConcatHeaderBytes(ea: seq<byte>, ef: seq<byte>, ez: seq<byte>)
    requires ea == [0x25, 0x50, 0x44, 0x46, 0x2D, 0x31, 0x2E, 0x34, 0x0A, 0x25]
    requires ef == [0xC3, 0xBF] && ez == [0x0A]
    ensures ea + ef + ef + ef + ef + ez == HeaderBytes
  {
  }

  lemma EncodeHeaderText(h: string)
    requires h == "%PDF-1.4\n%\U{FF}\U{FF}\U{FF}\U{FF}\n"
    ensures Encode(h) == HeaderBytes
  {
    HeaderTextParts();
    EncodeHeaderParts("%PDF-1.4\n%", "\U{FF}", "\n");
    EncodeHeaderPieces();
    ConcatHeaderBytes(Encode("%PDF-1.4\n%"), Encode("\U{FF}"), Encode("\n"));
  }

  lemma HeaderTextParts()
    ensures "%PDF-1.4\n%\U{FF}\U{FF}\U{FF}\U{FF}\n" == "%PDF-1.4\n%" + "\U{FF}" + "\U{FF}" + "\U{FF}" + "\U{FF}" + "\n"
  {
  }

  lemma EncodeHeaderPieces()
    ensures Encode("%PDF-1.4\n%") == [0x25, 0x50, 0x44, 0x46, 0x2D, 0x31, 0x2E, 0x34, 0x0A, 0x25]
    ensures Encode("\U{FF}") == [0xC3, 0xBF] && Encode("\n") == [0x0A]
  {
    EncodeHeaderLine("%PDF-1.4\n%");
  }

  lemma EncodeHeaderLine(s: string)
    requires s == "%PDF-1.4\n%"
    ensures Encode(s) == [0x25, 0x50, 0x44, 0x46, 0x2D, 0x31, 0x2E, 0x34, 0x0A, 0x25]
  {
    EncodeIsAscii(s);
  }

  /** The header line `%PDF-1.4`, then the comment line `%` with U+00FF four times. */
  lemma HeaderEncoding()
    ensures Encode(Header()) == HeaderBytes
  {
    EncodeHeaderText(Header());
  }

  /** The eight bytes after the second `%` are all above 127: the comment still marks the
      file as binary, as section 7.5.2 of ISO 32000-1 recommends, though it holds C3 BF
      pairs rather than four 0xFF bytes. */
  lemma HeaderBinaryComment()
    ensures HeaderBytes[9] == 0x25
    ensures forall i :: 10 <= i < 18 ==> HeaderBytes[i] >= 0x80
  {
  }

  // ---------------------------------------------------------------- the objects in the file

  /** What is written between object `os[j]` and object `os[m]`. */
  lemma {:induction false} BodyExtends(os: seq<PdfObject>, j: nat, m: nat)
    requires j <= m <= |os|
    ensures BodyBytes(os, m) == BodyBytes(os, j) + Between(os, j, m)
    decreases m
  {
    if m > j {
      BodyExtends(os, j, m - 1);
      Assoc(BodyBytes(os, j), Between(os, j, m - 1), ObjectBytes(os[m - 1]));
    }
  }

  /** Every object adds bytes, so positions grow strictly in write order. */
  lemma {:induction false} BodyGrows(os: seq<PdfObject>, j: nat, m: nat)
    requires j < m <= |os|
    ensures Position(os, j) < Position(os, m)
    decreases m
  {
    if m - 1 > j {
      BodyGrows(os, j, m - 1);
    }
  }

  /** The file starts with the header. */
  lemma FileStartsWithHeader(n: nat, os: seq<PdfObject>)
    requires |os| == ObjectCount(n)
    ensures At(File(n, os), 0, HeaderBytes)
  {
    var total := ObjectCount(n);
    BodyExtends(os, 0, |os|);
    var rest := Ascii(XrefHead(total)) + Ascii(FreeEntry()) + EntriesBytes(OffsetTable(n, os))
                + Ascii(Trailer(total, XrefStart(os)));
    Tail4(File(n, os), BodyBytes(os, |os|), Ascii(XrefHead(total)), Ascii(FreeEntry()), EntriesBytes(OffsetTable(n, os)),
          Ascii(Trailer(total, XrefStart(os))));
    RegroupHead(File(n, os), BodyBytes(os, |os|), HeaderBytes, Between(os, 0, |os|), rest);
    AtAfter(File(n, os), [], HeaderBytes, Between(os, 0, |os|) + rest);
  }

  lemma Tail4(p: seq<byte>, a: seq<byte>, b: seq<byte>, c: seq<byte>, d: seq<byte>, e: seq<byte>)
    requires p == a + b + c + d + e
    ensures p == a + (b + c + d + e)
  {
  }

  lemma RegroupHead(p: seq<byte>, a: seq<byte>, x: seq<byte>, y: seq<byte>, r: seq<byte>)
    requires p == a + r && a == x + y
    ensures p == x + (y + r) && p == [] + x + (y + r)
  {
  }

  /** The file cut at object `os[j]`: what comes before, the object, what comes after. */
  lemma FileAround(n: nat, os: seq<PdfObject>, j: nat) returns (rest: seq<byte>)
    requires |os| == ObjectCount(n) && j < |os|
    ensures File(n, os) == BodyBytes(os, j) + ObjectBytes(os[j]) + rest
  {
    var total := ObjectCount(n);
    var tail := Ascii(XrefHead(total)) + Ascii(FreeEntry()) + EntriesBytes(OffsetTable(n, os))
                + Ascii(Trailer(total, XrefStart(os)));
    Tail4(File(n, os), BodyBytes(os, |os|), Ascii(XrefHead(total)), Ascii(FreeEntry()), EntriesBytes(OffsetTable(n, os)),
          Ascii(Trailer(total, XrefStart(os))));
    BodyExtends(os, j + 1, |os|);
    var after := Between(os, j + 1, |os|);
    Split3(File(n, os), BodyBytes(os, |os|), BodyBytes(os, j + 1), after, tail, BodyBytes(os, j), ObjectBytes(os[j]));
    rest := after + tail;
  }

  lemma Split3(p: seq<byte>, all: seq<byte>, upto: seq<byte>, after: seq<byte>, tail: seq<byte>, before: seq<byte>, o: seq<byte>)
    requires p == all + tail && all == upto + after && upto == before + o
    ensures p == before + o + (after + tail)
  {
  }

  /** The object written `j`-th lies at its writing position: its header line, then its content. */
  lemma ObjectAtPosition(n: nat, os: seq<PdfObject>, j: nat)
    requires |os| == ObjectCount(n) && j < |os|
    ensures At(File(n, os), Position(os, j), ObjectBytes(os[j]))
    ensures At(File(n, os), Position(os, j), Ascii(ObjHeader(os[j].num)))
    ensures At(File(n, os), Position(os, j) + |ObjHeader(os[j].num)|, os[j].content)
  {
    var o := os[j];
    var rest := FileAround(n, os, j);
    AtAfter(File(n, os), BodyBytes(os, j), ObjectBytes(o), rest);
    AtFront(File(n, os), Position(os, j), ObjectBytes(o), Ascii(ObjHeader(o.num)), o.content, Ascii(ObjFooter()));
  }

  /** The cross-reference offset of object `k` points at that object, which starts with
      its header line `k 0 obj`. */
  lemma ObjectAtOffset(n: nat, os: seq<PdfObject>, k: nat)
    requires InWriteOrder(n, os) && 1 <= k <= ObjectCount(n)
    ensures os[EmissionIndex(n, k)].num == k
    ensures At(File(n, os), Offset(n, os, k), ObjectBytes(os[EmissionIndex(n, k)]))
    ensures At(File(n, os), Offset(n, os, k), Ascii(ObjHeader(k)))
    ensures At(File(n, os), Offset(n, os, k) + |ObjHeader(k)|, os[EmissionIndex(n, k)].content)
  {
    ObjectAtPosition(n, os, EmissionIndex(n, k));
  }

  /** Object `k` begins with its header line `k 0 obj` at its offset. */
  lemma HeaderAtOffset(n: nat, os: seq<PdfObject>, k: nat)
    requires InWriteOrder(n, os) && 1 <= k <= ObjectCount(n)
    ensures At(File(n, os), Offset(n, os, k), Ascii(ObjHeader(k)))
  {
    ObjectAtOffset(n, os, k);
  }

  /** The content of object `k` follows its header line at its offset. */
  lemma ContentAtOffset(n: nat, os: seq<PdfObject>, k: nat, c: seq<byte>)
    requires InWriteOrder(n, os) && 1 <= k <= ObjectCount(n)
    requires os[EmissionIndex(n, k)].content == c
    ensures At(File(n, os), Offset(n, os, k) + |ObjHeader(k)|, c)
  {
    ObjectAtOffset(n, os, k);
  }

  /** A content made of three parts `a + b + c`: the middle part lies at `off`, after the
      header line and the first part. */
  lemma ContentPartAt(n: nat, os: seq<PdfObject>, k: nat, a: seq<byte>, b: seq<byte>, c: seq<byte>, off: nat)
    requires InWriteOrder(n, os) && 1 <= k <= ObjectCount(n)
    requires os[EmissionIndex(n, k)].content == a + b + c
    requires off == Offset(n, os, k) + |ObjHeader(k)| + |a|
    ensures At(File(n, os), off, b)
  {
    ContentAtOffset(n, os, k, a + b + c);
    AtMiddle(File(n, os), Offset(n, os, k) + |ObjHeader(k)|, a + b + c, a, b, c);
  }

  /** A content made of two parts `b + c`: the first lies at `off`, right after the header line. */
  lemma ContentFrontAt(n: nat, os: seq<PdfObject>, k: nat, b: seq<byte>, c: seq<byte>, off: nat)
    requires InWriteOrder(n, os) && 1 <= k <= ObjectCount(n)
    requires os[EmissionIndex(n, k)].content == b + c
    requires off == Offset(n, os, k) + |ObjHeader(k)|
    ensures At(File(n, os), off, b)
  {
    ContentAtOffset(n, os, k, b + c);
    AtPrefix(File(n, os), off, b, c);
  }

  /** A content made of two parts `a + b`: the second lies at `off`, after the header line and the first. */
  lemma ContentBackAt(n: nat, os: seq<PdfObject>, k: nat, a: seq<byte>, b: seq<byte>, off: nat)
    requires InWriteOrder(n, os) && 1 <= k <= ObjectCount(n)
    requires os[EmissionIndex(n, k)].content == a + b
    requires off == Offset(n, os, k) + |ObjHeader(k)| + |a|
    ensures At(File(n, os), off, b)
  {
    ContentAtOffset(n, os, k, a + b);
    AtSuffix(File(n, os), Offset(n, os, k) + |ObjHeader(k)|, a, b);
  }

  /** Objects lie in the file in write order, not in number order: the offsets grow with the write position. */
  lemma OffsetsFollowWriteOrder(n: nat, os: seq<PdfObject>, k1: nat, k2: nat)
    requires |os| == ObjectCount(n) && 1 <= k1 <= ObjectCount(n) && 1 <= k2 <= ObjectCount(n)
    requires EmissionIndex(n, k1) < EmissionIndex(n, k2)
    ensures Offset(n, os, k1) < Offset(n, os, k2)
  {
    BodyGrows(os, EmissionIndex(n, k1), EmissionIndex(n, k2));
  }

  /** The catalog, object 1, is written last, after the page tree, object 2. */
  lemma CatalogAfterPages(n: nat, os: seq<PdfObject>)
    requires |os| == ObjectCount(n)
    ensures Offset(n, os, PagesNum) < Offset(n, os, CatalogNum)
  {
    OffsetsFollowWriteOrder(n, os, PagesNum, CatalogNum);
  }

  /** Every object lies before the cross-reference table. */
  lemma OffsetBelowXref(n: nat, os: seq<PdfObject>, k: nat)
    requires |os| == ObjectCount(n) && 1 <= k <= ObjectCount(n)
    ensures Offset(n, os, k) < XrefStart(os)
  {
    BodyGrows(os, EmissionIndex(n, k), |os|);
  }

  // ---------------------------------------------------------------- cross-reference table

  /** The decimal value of ASCII digit bytes, most significant first, as a reader parses an offset field. */
  function ReadDecimal(b: seq<byte>): int
  {
    if b == [] then 0 else ReadDecimal(b[..|b| - 1]) * 10 + (b[|b| - 1] as int - 0x30)
  }

  lemma {:induction false} ReadDigits(s: string)
    requires AllDigits(s)
    ensures ReadDecimal(Ascii(s)) == DigitsValue(s)
  {
    if s != [] {
      var init := s[..|s| - 1];
      assert Ascii(s)[..|s| - 1] == Ascii(init);
      ReadDigits(init);
    }
  }

  /** An entry for an offset below 10^10 is 20 bytes: ten digits that read back as the
      offset, then ` 00000 n ` and the end of line (section 7.5.4 of ISO 32000-1). */
  lemma XrefEntryShape(offset: nat)
    requires offset < Pow10(10)
    ensures |XrefEntry(offset)| == 20
    ensures ReadDecimal(Ascii(XrefEntry(offset))[..10]) == offset
    ensures Ascii(XrefEntry(offset))[10..] == Ascii(InUseTail())
  {
    var digits := PadStart(NatToString(offset), 10, '0');
    PaddedOffset(offset);
    ReadDigits(digits);
    var e := Ascii(XrefEntry(offset));
    assert e[..10] == Ascii(digits);
  }

  lemma XrefEntryLength(offset: nat)
    requires offset < Pow10(10)
    ensures |XrefEntry(offset)| == 20
  {
    PaddedOffset(offset);
  }

  predicate FitTenDigits(offsets: seq<nat>)
  {
    forall i :: 0 <= i < |offsets| ==> offsets[i] < Pow10(10)
  }

  lemma {:induction false} EntriesLength(offsets: seq<nat>)
    requires FitTenDigits(offsets)
    ensures |EntriesBytes(offsets)| == 20 * |offsets|
  {
    if offsets != [] {
      var init := offsets[..|offsets| - 1];
      EntriesLength(init);
      XrefEntryLength(offsets[|offsets| - 1]);
    }
  }

  lemma {:induction false} EntryAt(offsets: seq<nat>, i: nat)
    requires FitTenDigits(offsets) && i < |offsets|
    ensures At(EntriesBytes(offsets), 20 * i, Ascii(XrefEntry(offsets[i])))
  {
    var init := offsets[..|offsets| - 1];
    var last := Ascii(XrefEntry(offsets[|offsets| - 1]));
    if i == |offsets| - 1 {
      EntriesLength(init);
      AtEnd(EntriesBytes(init), last);
    } else {
      EntryAt(init, i);
      AtExtend(EntriesBytes(init), last, 20 * i, Ascii(XrefEntry(offsets[i])));
    }
  }

  lemma OffsetTableAt(n: nat, os: seq<PdfObject>, k: nat)
    requires |os| == ObjectCount(n) && 1 <= k <= ObjectCount(n)
    ensures OffsetTable(n, os)[k - 1] == Offset(n, os, k)
  {
  }

  /** Every offset fits the ten-digit field when the objects take less than 10^10 bytes. */
  lemma OffsetsFit(n: nat, os: seq<PdfObject>)
    requires |os| == ObjectCount(n) && XrefStart(os) < Pow10(10)
    ensures FitTenDigits(OffsetTable(n, os))
  {
    forall i | 0 <= i < ObjectCount(n) ensures OffsetTable(n, os)[i] < Pow10(10) {
      OffsetTableAt(n, os, i + 1);
      OffsetBelowXref(n, os, i + 1);
    }
  }

  /** The cross-reference table holds as many entries as the trailer's `/Size` says: one per
      object and the free entry 0. */
  lemma XrefSectionLength(n: nat, os: seq<PdfObject>)
    requires |os| == ObjectCount(n) && XrefStart(os) < Pow10(10)
    ensures |Ascii(FreeEntry()) + EntriesBytes(OffsetTable(n, os))| == 20 * (ObjectCount(n) + 1)
  {
    OffsetsFit(n, os);
    EntriesLength(OffsetTable(n, os));
  }

  /** Where entry `k` of the table starts: after the two head lines, 20 bytes per entry. */
  function EntryPos(n: nat, os: seq<PdfObject>, k: nat): nat
  {
    XrefStart(os) + |XrefHead(ObjectCount(n))| + 20 * k
  }

  /** Entry 0 is the head of the free list, `0000000000 65535 f`. */
  lemma XrefFreeEntry(n: nat, os: seq<PdfObject>)
    requires |os| == ObjectCount(n)
    ensures At(File(n, os), EntryPos(n, os, 0), Ascii(FreeEntry())) && |FreeEntry()| == 20
  {
    var total := ObjectCount(n);
    AtAfter(File(n, os), BodyBytes(os, |os|) + Ascii(XrefHead(total)), Ascii(FreeEntry()),
            EntriesBytes(OffsetTable(n, os)) + Ascii(Trailer(total, XrefStart(os))));
  }

  lemma EntryWithin(p: seq<byte>, pre: seq<byte>, offsets: seq<nat>, post: seq<byte>, i: nat, off: nat)
    requires p == pre + EntriesBytes(offsets) + post && off == |pre| + 20 * i
    requires FitTenDigits(offsets) && i < |offsets|
    ensures At(p, off, Ascii(XrefEntry(offsets[i])))
  {
    EntryAt(offsets, i);
    RowShift(p, pre, EntriesBytes(offsets), post, Ascii(XrefEntry(offsets[i])), i, off);
  }

  lemma RowShift(p: seq<byte>, pre: seq<byte>, q: seq<byte>, post: seq<byte>, b: seq<byte>, i: nat, off: nat)
    requires p == pre + q + post && At(q, 20 * i, b) && off == |pre| + 20 * i
    ensures At(p, off, b)
  {
    AtShift(p, pre, q, post, 20 * i, b);
  }

  /** Entry `k`, for object `k`, is the `k`-th after the free entry. */
  lemma XrefEntryInFile(n: nat, os: seq<PdfObject>, k: nat)
    requires |os| == ObjectCount(n) && XrefStart(os) < Pow10(10)
    requires 1 <= k <= ObjectCount(n)
    ensures At(File(n, os), EntryPos(n, os, k), Ascii(XrefEntry(OffsetTable(n, os)[k - 1])))
  {
    var total := ObjectCount(n);
    var pre := BodyBytes(os, |os|) + Ascii(XrefHead(total)) + Ascii(FreeEntry());
    assert |pre| + 20 * (k - 1) == EntryPos(n, os, k);
    OffsetsFit(n, os);
    EntryWithin(File(n, os), pre, OffsetTable(n, os), Ascii(Trailer(total, XrefStart(os))), k - 1, EntryPos(n, os, k));
  }

  /** Reading a 20-byte entry: ten digits with the offset's value, then ` 00000 n `. */
  lemma ReadEntry(p: seq<byte>, off: nat, v: nat)
    requires At(p, off, Ascii(XrefEntry(v))) && v < Pow10(10)
    ensures off + 20 <= |p|
    ensures ReadDecimal(p[off..off + 10]) == v
    ensures p[off + 10..off + 20] == Ascii(InUseTail())
  {
    XrefEntryShape(v);
    AtSlice(p, off, Ascii(XrefEntry(v)), 0, 10);
    AtSlice(p, off, Ascii(XrefEntry(v)), 10, 20);
  }

  /** Entry `k` holds the offset of object `k` as ten digits, followed by ` 00000 n `:
      object `k` is found by reading its entry. */
  lemma XrefTable(n: nat, os: seq<PdfObject>, k: nat)
    requires |os| == ObjectCount(n) && XrefStart(os) < Pow10(10)
    requires 1 <= k <= ObjectCount(n)
    ensures EntryPos(n, os, k) + 20 <= |File(n, os)|
    ensures ReadDecimal(File(n, os)[EntryPos(n, os, k)..EntryPos(n, os, k) + 10]) == Offset(n, os, k)
    ensures File(n, os)[EntryPos(n, os, k) + 10..EntryPos(n, os, k) + 20] == Ascii(InUseTail())
  {
    var v := Offset(n, os, k);
    XrefEntryInFile(n, os, k);
    OffsetTableAt(n, os, k);
    OffsetBelowXref(n, os, k);
    assert At(File(n, os), EntryPos(n, os, k), Ascii(XrefEntry(v)));
    ReadEntry(File(n, os), EntryPos(n, os, k), v);
  }

  /** The file ends with `startxref`, the byte offset of the table and `%%EOF` (section
      7.5.5 of ISO 32000-1). */
  lemma StartXrefAtEnd(n: nat, os: seq<PdfObject>)
    requires |os| == ObjectCount(n)
    ensures EndsWith(File(n, os), Ascii(StartXref(XrefStart(os))))
  {
    var total := ObjectCount(n);
    var t, x := TrailerDict(total), StartXref(XrefStart(os));
    AsciiSplit(t, x);
    EndsWithSuffix(File(n, os), BodyBytes(os, |os|) + Ascii(XrefHead(total)) + Ascii(FreeEntry()) + EntriesBytes(OffsetTable(n, os)),
                   Ascii(t), Ascii(x));
  }

  /** The trailer's `/Size` reads back as the number of table entries, the objects and the
      free entry 0, and its `/Root` names the catalog, object 1. */
  lemma TrailerFields(total: nat) returns (size: string)
    ensures TrailerDict(total) == "trailer\n<< /Size " + size + " /Root 1 0 R >>\n"
    ensures AllDigits(size) && DigitsValue(size) == total + 1
  {
    size := NatToString(total + 1);
    NatToStringValue(total + 1);
  }

  /** At the offset `startxref` gives stands the `xref` keyword. */
  lemma XrefKeywordAtStart(n: nat, os: seq<PdfObject>)
    requires |os| == ObjectCount(n)
    ensures At(File(n, os), XrefStart(os), Ascii(XrefKeyword()))
  {
    var total := ObjectCount(n);
    var rest := Ascii(FreeEntry()) + EntriesBytes(OffsetTable(n, os)) + Ascii(Trailer(total, XrefStart(os)));
    AsciiSplit(XrefKeyword(), XrefSubsection(total));
    SplitFirst(File(n, os), BodyBytes(os, |os|), Ascii(XrefHead(total)), Ascii(FreeEntry()),
               EntriesBytes(OffsetTable(n, os)), Ascii(Trailer(total, XrefStart(os))),
               Ascii(XrefKeyword()), Ascii(XrefSubsection(total)));
    AtAfter(File(n, os), BodyBytes(os, |os|), Ascii(XrefKeyword()),
            Ascii(XrefSubsection(total)) + Ascii(FreeEntry()) + EntriesBytes(OffsetTable(n, os))
            + Ascii(Trailer(total, XrefStart(os))));
  }
}
