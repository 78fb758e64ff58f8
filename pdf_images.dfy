/** The indirect objects `buildPdfFromJpegs` writes for a list of JPEG images: one image
    XObject, one content stream and one page per image, then the page tree and the catalog.
    `Pdf(imgs)` is the file it produces. */
module PdfImages {
  import opened Utf8
  import opened Decimal
  import opened PdfFile

  /** `{ data, width, height }`: the JPEG bytes of one rendered page and its size in pixels. */
  datatype JpegImage = JpegImage(data: seq<byte>, width: nat, height: nat)

  // ---------------------------------------------------------------- the text of the objects

  /** The image dictionary and the `stream` keyword: a DCT-encoded RGB image of the JPEG's
      size whose `/Length` is the byte length of the JPEG data (sections 7.4.8 and 8.9.5 of
      ISO 32000-1). */
  function ImageDict(img: JpegImage): string
  {
    "<< /Type /XObject /Subtype /Image /Width " + NatToString(img.width) + " /Height " + NatToString(img.height)
    + " /ColorSpace /DeviceRGB /BitsPerComponent 8 /Filter /DCTDecode /Length " + NatToString(|img.data|)
    + " >>\nstream\n"
  }

  function EndImageStream(): string { "\nendstream" }

  /** The page's drawing: scale the unit square to the image size and paint image `/Im0`. */
  function ContentStream(img: JpegImage): string
  {
    "q\n" + NatToString(img.width) + " 0 0 " + NatToString(img.height) + " 0 0 cm\n/Im0 Do\nQ\n"
  }

  function StreamDict(length: nat): string { "<< /Length " + NatToString(length) + " >>\nstream\n" }

  function EndContentStream(): string { "endstream" }

  /** A page the size of the image, with the image as resource `/Im0` and the given content stream. */
  function PageDict(img: JpegImage, imageNum: nat, contentNum: nat): string
  {
    "<< /Type /Page /Parent " + Ref(PagesNum) + " /MediaBox [0 0 " + NatToString(img.width) + " "
    + NatToString(img.height) + "]" + " /Resources << /XObject << /Im0 " + Ref(imageNum) + " >> >> /Contents "
    + Ref(contentNum) + " >>"
  }

  /** `nums.map((n) => `${n} 0 R`).join(" ")` */
  function JoinRefs(nums: seq<nat>): string
  {
    if nums == [] then ""
    else if |nums| == 1 then Ref(nums[0])
    else JoinRefs(nums[..|nums| - 1]) + " " + Ref(nums[|nums| - 1])
  }

  function PagesDict(count: nat, pageNums: seq<nat>): string
  {
    "<< /Type /Pages /Count " + NatToString(count) + " /Kids [ " + JoinRefs(pageNums) + " ] >>"
  }

  function CatalogDict(): string { "<< /Type /Catalog /Pages " + Ref(PagesNum) + " >>" }

  /** The page numbers in input order, as the numbering loop collects them in `pageNums`. */
  function PageNums(n: nat): (r: seq<nat>)
    ensures |r| == n
  {
    seq(n, i requires 0 <= i < n => PageNum(i))
  }

  // ---------------------------------------------------------------- the objects

  function ContentChunks(img: JpegImage): seq<Chunk>
  {
    [Str(StreamDict(|ContentStream(img)|)), Str(ContentStream(img)), Str(EndContentStream())]
  }

  /** What the writer pushes for the object written `j`-th, between its header line and its footer. */
  function ObjectChunks(imgs: seq<JpegImage>, j: nat): seq<Chunk>
    requires j < ObjectCount(|imgs|)
  {
    var n := |imgs|;
    if j < n then [Str(ImageDict(imgs[j])), Raw(imgs[j].data), Str(EndImageStream())]
    else if j < 3 * n then
      var i := (j - n) / 2;
      if (j - n) % 2 == 0 then ContentChunks(imgs[i])
      else [Str(PageDict(imgs[i], ImageNum(i), ContentNum(i)))]
    else if j == 3 * n then [Str(PagesDict(n, PageNums(n)))]
    else [Str(CatalogDict())]
  }

  /** `ObjectChunks`, extended with nothing beyond the last object. */
  function Pushed(imgs: seq<JpegImage>): nat -> seq<Chunk>
  {
    (j: nat) => if j < ObjectCount(|imgs|) then ObjectChunks(imgs, j) else []
  }

  /** The objects in write order, each holding the bytes of what the writer pushes for it. */
  function Emission(imgs: seq<JpegImage>): (os: seq<PdfObject>)
    ensures InWriteOrder(|imgs|, os)
  {
    ObjectsInWriteOrder(|imgs|, FlatContents(Pushed(imgs)));
    Objects(|imgs|, FlatContents(Pushed(imgs)), ObjectCount(|imgs|))
  }

  /** The bytes `buildPdfFromJpegs(imgs)` returns. */
  function Pdf(imgs: seq<JpegImage>): seq<byte>
  {
    File(|imgs|, Emission(imgs))
  }

  /** Where the content of object `k` starts: right after its header line. */
  function ContentStart(imgs: seq<JpegImage>, k: nat): nat
    requires 1 <= k <= ObjectCount(|imgs|)
  {
    Offset(|imgs|, Emission(imgs), k) + |ObjHeader(k)|
  }

  // ---------------------------------------------------------------- what a reader finds

  lemma ContentOf(imgs: seq<JpegImage>, j: nat)
    requires j < ObjectCount(|imgs|)
    ensures Emission(imgs)[j].content == Flatten(ObjectChunks(imgs, j))
  {
    ObjectsAt(|imgs|, FlatContents(Pushed(imgs)), ObjectCount(|imgs|), j);
    assert Emission(imgs)[j].content == FlatContents(Pushed(imgs))(j);
    assert Pushed(imgs)(j) == ObjectChunks(imgs, j);
  }

  /** Object `k`'s cross-reference offset points at `k 0 obj`, and the content the writer
      pushed for it follows. */
  lemma ObjectsAtOffsets(imgs: seq<JpegImage>, k: nat)
    requires 1 <= k <= ObjectCount(|imgs|)
    ensures At(Pdf(imgs), Offset(|imgs|, Emission(imgs), k), Ascii(ObjHeader(k)))
    ensures At(Pdf(imgs), Offset(|imgs|, Emission(imgs), k) + |ObjHeader(k)|,
               Flatten(ObjectChunks(imgs, EmissionIndex(|imgs|, k))))
  {
    var n, os := |imgs|, Emission(imgs);
    var j := EmissionIndex(n, k);
    HeaderAtOffset(n, os, k);
    ContentOf(imgs, j);
    ContentAtOffset(n, os, k, Flatten(ObjectChunks(imgs, j)));
  }

  // ---------------------------------------------------------------- image XObjects

  lemma ImageContent(imgs: seq<JpegImage>, i: nat)
    requires i < |imgs|
    ensures Emission(imgs)[EmissionIndex(|imgs|, ImageNum(i))].content
            == Encode(ImageDict(imgs[i])) + imgs[i].data + Encode(EndImageStream())
  {
    InputPositions(|imgs|, i);
    ContentOf(imgs, i);
    Flatten3(Str(ImageDict(imgs[i])), Raw(imgs[i].data), Str(EndImageStream()));
  }

  /** The dictionary of image `i` starts its object's content. */
  lemma ImageDictAt(imgs: seq<JpegImage>, i: nat, off: nat)
    requires i < |imgs| && off == ContentStart(imgs, ImageNum(i))
    ensures At(Pdf(imgs), off, Encode(ImageDict(imgs[i])))
  {
    ImageContent(imgs, i);
    Assoc(Encode(ImageDict(imgs[i])), imgs[i].data, Encode(EndImageStream()));
    ContentFrontAt(|imgs|, Emission(imgs), ImageNum(i), Encode(ImageDict(imgs[i])),
                   imgs[i].data + Encode(EndImageStream()), off);
  }

  /** The JPEG data of image `i` lies verbatim right after its dictionary, which ends with
      the `stream` keyword. */
  lemma ImageDataAt(imgs: seq<JpegImage>, i: nat, off: nat)
    requires i < |imgs| && off == ContentStart(imgs, ImageNum(i)) + |Encode(ImageDict(imgs[i]))|
    ensures At(Pdf(imgs), off, imgs[i].data)
  {
    ImageContent(imgs, i);
    ContentPartAt(|imgs|, Emission(imgs), ImageNum(i), Encode(ImageDict(imgs[i])), imgs[i].data,
                  Encode(EndImageStream()), off);
  }

  /** `\nendstream` follows the JPEG data. */
  lemma ImageEndAt(imgs: seq<JpegImage>, i: nat, off: nat)
    requires i < |imgs|
    requires off == ContentStart(imgs, ImageNum(i)) + |Encode(ImageDict(imgs[i]))| + |imgs[i].data|
    ensures At(Pdf(imgs), off, Encode(EndImageStream()))
  {
    ImageContent(imgs, i);
    ContentBackAt(|imgs|, Emission(imgs), ImageNum(i), Encode(ImageDict(imgs[i])) + imgs[i].data,
                  Encode(EndImageStream()), off);
  }

  /** The `/Length` entry of an image dictionary comes last and reads back as the number of
      JPEG bytes, that is, the number of bytes between `stream\n` and `\nendstream`. */
  lemma ImageLengthField(img: JpegImage) returns (head: string, len: string)
    ensures ImageDict(img) == head + "/Length " + len + " >>\nstream\n"
    ensures AllDigits(len) && DigitsValue(len) == |img.data|
  {
    head := "<< /Type /XObject /Subtype /Image /Width " + NatToString(img.width) + " /Height " + NatToString(img.height)
            + " /ColorSpace /DeviceRGB /BitsPerComponent 8 /Filter /DCTDecode ";
    len := NatToString(|img.data|);
    NatToStringValue(|img.data|);
  }

  // ---------------------------------------------------------------- content streams

  /** The object written `n + 2i` is the content stream of input `i`. */
  lemma StreamChunks(imgs: seq<JpegImage>, i: nat)
    requires i < |imgs|
    ensures ObjectChunks(imgs, |imgs| + 2 * i) == ContentChunks(imgs[i])
  {
    DivMod2(i, 0);
    assert (|imgs| + 2 * i - |imgs|) / 2 == i && (|imgs| + 2 * i - |imgs|) % 2 == 0;
  }

  lemma PageDictChunks(imgs: seq<JpegImage>, i: nat)
    requires i < |imgs|
    ensures ObjectChunks(imgs, |imgs| + 2 * i + 1) == [Str(PageDict(imgs[i], ImageNum(i), ContentNum(i)))]
  {
    DivMod2(i, 1);
    assert (|imgs| + 2 * i + 1 - |imgs|) / 2 == i && (|imgs| + 2 * i + 1 - |imgs|) % 2 == 1;
  }

  lemma StreamContent(imgs: seq<JpegImage>, i: nat)
    requires i < |imgs|
    ensures Emission(imgs)[EmissionIndex(|imgs|, ContentNum(i))].content
            == Encode(StreamDict(|ContentStream(imgs[i])|)) + Encode(ContentStream(imgs[i])) + Encode(EndContentStream())
  {
    var j := |imgs| + 2 * i;
    InputPositions(|imgs|, i);
    assert EmissionIndex(|imgs|, ContentNum(i)) == j;
    StreamChunks(imgs, i);
    ChunksContent(imgs, j, ContentChunks(imgs[i]));
    StreamBytes(imgs[i]);
  }

  lemma StreamBytes(img: JpegImage)
    ensures Flatten(ContentChunks(img))
            == Encode(StreamDict(|ContentStream(img)|)) + Encode(ContentStream(img)) + Encode(EndContentStream())
  {
    Flatten3(Str(StreamDict(|ContentStream(img)|)), Str(ContentStream(img)), Str(EndContentStream()));
  }

  /** The drawing of page `i` lies right after the `stream` keyword of its content stream object. */
  lemma StreamAt(imgs: seq<JpegImage>, i: nat, off: nat)
    requires i < |imgs|
    requires off == ContentStart(imgs, ContentNum(i)) + |Encode(StreamDict(|ContentStream(imgs[i])|))|
    ensures At(Pdf(imgs), off, Encode(ContentStream(imgs[i])))
  {
    StreamContent(imgs, i);
    ContentPartAt(|imgs|, Emission(imgs), ContentNum(i), Encode(StreamDict(|ContentStream(imgs[i])|)),
                  Encode(ContentStream(imgs[i])), Encode(EndContentStream()), off);
  }

  lemma ContentStreamAscii(img: JpegImage)
    ensures IsAscii(ContentStream(img))
  {
    DigitsAscii(NatToString(img.width));
    DigitsAscii(NatToString(img.height));
    assert IsAscii("q\n") && IsAscii(" 0 0 ") && IsAscii(" 0 0 cm\n/Im0 Do\nQ\n");
    AsciiConcat5("q\n", NatToString(img.width), " 0 0 ", NatToString(img.height), " 0 0 cm\n/Im0 Do\nQ\n");
  }

  /** The content stream's `/Length` is the string length of the drawing, which is its number
      of bytes because the drawing is ASCII. */
  lemma StreamLengthField(img: JpegImage) returns (len: string)
    ensures StreamDict(|ContentStream(img)|) == "<< /Length " + len + " >>\nstream\n"
    ensures AllDigits(len) && DigitsValue(len) == |Encode(ContentStream(img))|
  {
    len := NatToString(|ContentStream(img)|);
    NatToStringValue(|ContentStream(img)|);
    ContentStreamAscii(img);
    EncodeAscii(ContentStream(img));
  }

  // ---------------------------------------------------------------- pages

  /** The page made for input `i` draws image `i` with content stream `i`. */
  lemma PageContent(imgs: seq<JpegImage>, i: nat)
    requires i < |imgs|
    ensures Emission(imgs)[EmissionIndex(|imgs|, PageNum(i))].content
            == Encode(PageDict(imgs[i], ImageNum(i), ContentNum(i)))
  {
    InputPositions(|imgs|, i);
    PageContentAt(imgs, i);
  }

  lemma PageContentAt(imgs: seq<JpegImage>, i: nat)
    requires i < |imgs|
    ensures Emission(imgs)[|imgs| + 2 * i + 1].content == Encode(PageDict(imgs[i], ImageNum(i), ContentNum(i)))
  {
    PageDictChunks(imgs, i);
    SingleChunk(imgs, |imgs| + 2 * i + 1, PageDict(imgs[i], ImageNum(i), ContentNum(i)));
  }

  /** An object written as one text chunk has that text's bytes as its content. */
  lemma SingleChunk(imgs: seq<JpegImage>, j: nat, s: string)
    requires j < ObjectCount(|imgs|) && ObjectChunks(imgs, j) == [Str(s)]
    ensures Emission(imgs)[j].content == Encode(s)
  {
    ChunksContent(imgs, j, [Str(s)]);
    Flatten1(Str(s));
  }

  /** An object's content is the flattening of the chunks written for it. */
  lemma ChunksContent(imgs: seq<JpegImage>, j: nat, chunks: seq<Chunk>)
    requires j < ObjectCount(|imgs|) && ObjectChunks(imgs, j) == chunks
    ensures Emission(imgs)[j].content == Flatten(chunks)
  {
    ContentOf(imgs, j);
  }

  lemma PageAt(imgs: seq<JpegImage>, i: nat, off: nat)
    requires i < |imgs| && off == ContentStart(imgs, PageNum(i))
    ensures At(Pdf(imgs), off, Encode(PageDict(imgs[i], ImageNum(i), ContentNum(i))))
  {
    PageContent(imgs, i);
    ContentAtOffset(|imgs|, Emission(imgs), PageNum(i), Encode(PageDict(imgs[i], ImageNum(i), ContentNum(i))));
  }

  /** A page is as large as its image: `/MediaBox [0 0 w h]`. */
  lemma MediaBox(img: JpegImage, imageNum: nat, contentNum: nat) returns (head: string, tail: string)
    ensures PageDict(img, imageNum, contentNum)
            == head + " /MediaBox [0 0 " + NatToString(img.width) + " " + NatToString(img.height) + "]" + tail
  {
    head := "<< /Type /Page /Parent " + Ref(PagesNum);
    tail := " /Resources << /XObject << /Im0 " + Ref(imageNum) + " >> >> /Contents " + Ref(contentNum) + " >>";
    PageDictShape("<< /Type /Page /Parent ", Ref(PagesNum), " /MediaBox [0 0 ", NatToString(img.width), " ",
                  NatToString(img.height), "]", " /Resources << /XObject << /Im0 ", Ref(imageNum), " >> >> /Contents ",
                  Ref(contentNum), " >>");
  }

  lemma PageDictShape(a: string, parent: string, b: string, w: string, c: string, h: string, d: string,
                       e: string, image: string, f: string, content: string, g: string)
    ensures a + parent + b + w + c + h + d + e + image + f + content + g
         == (a + parent) + b + w + c + h + d + (e + image + f + content + g)
  {
  }

  /** The page's parent is the page tree, object 2. */
  lemma ParentRef()
    ensures Ref(PagesNum) == "2 0 R"
  {
  }

  // ---------------------------------------------------------------- page tree and catalog

  lemma PagesContent(imgs: seq<JpegImage>)
    ensures Emission(imgs)[EmissionIndex(|imgs|, PagesNum)].content == Encode(PagesDict(|imgs|, PageNums(|imgs|)))
  {
    SingleChunk(imgs, 3 * |imgs|, PagesDict(|imgs|, PageNums(|imgs|)));
  }

  lemma PagesAt(imgs: seq<JpegImage>, off: nat)
    requires off == ContentStart(imgs, PagesNum)
    ensures At(Pdf(imgs), off, Encode(PagesDict(|imgs|, PageNums(|imgs|))))
  {
    PagesContent(imgs);
    ContentAtOffset(|imgs|, Emission(imgs), PagesNum, Encode(PagesDict(|imgs|, PageNums(|imgs|))));
  }

  /** `/Count` reads back as the number of images, and the `i`-th kid is the page written for input `i`. */
  lemma PagesFields(n: nat) returns (count: string)
    ensures PagesDict(n, PageNums(n)) == "<< /Type /Pages /Count " + count + " /Kids [ " + JoinRefs(PageNums(n)) + " ] >>"
    ensures AllDigits(count) && DigitsValue(count) == n
    ensures forall i :: 0 <= i < n ==> PageNums(n)[i] == PageNum(i) && EmissionIndex(n, PageNums(n)[i]) == n + 2 * i + 1
  {
    count := NatToString(n);
    NatToStringValue(n);
    forall i | 0 <= i < n ensures PageNums(n)[i] == PageNum(i) && EmissionIndex(n, PageNums(n)[i]) == n + 2 * i + 1 {
      InputPositions(n, i);
    }
  }

  lemma CatalogContent(imgs: seq<JpegImage>)
    ensures Emission(imgs)[EmissionIndex(|imgs|, CatalogNum)].content == Encode(CatalogDict())
  {
    SingleChunk(imgs, 3 * |imgs| + 1, CatalogDict());
  }

  /** The catalog, which the trailer names as `/Root`, points at the page tree, object 2. */
  lemma CatalogAt(imgs: seq<JpegImage>, off: nat)
    requires off == ContentStart(imgs, CatalogNum)
    ensures At(Pdf(imgs), off, Encode(CatalogDict()))
  {
    CatalogContent(imgs);
    ContentAtOffset(|imgs|, Emission(imgs), CatalogNum, Encode(CatalogDict()));
  }
}
