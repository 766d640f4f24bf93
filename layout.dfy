/** Composing the colouring book: every converted page is scaled to fit the
    printable box of a portrait A4 sheet (in millimetres), keeping its aspect
    ratio, centred on the sheet, and drawn on a page of its own. The PDF
    writer is represented by the list of calls made to it. */
module Layout {
  import opened Items

  const PageWidth: real := 210.0
  const PageHeight: real := 297.0
  const Margin: real := 10.0
  /** The printable box: 190 by 277. */
  const MaxWidth: real := PageWidth - Margin * 2.0
  const MaxHeight: real := PageHeight - Margin * 2.0
  /** The name the document is saved under. */
  const FileName: string := "mijn-kleurboek.pdf"

  /** A width and a height: an image's natural size in pixels, or a size on the page. */
  datatype Size = Size(width: real, height: real)

  predicate Positive(s: Size) { s.width > 0.0 && s.height > 0.0 }

  /** Where an image is drawn on its page and how large. */
  datatype Placement = Placement(x: real, y: real, width: real, height: real)

  /** One image drawn on a page: its URL and its placement. */
  datatype Drawn = Drawn(data: Url, at: Placement)

  /** The calls made to the PDF writer, in order. */
  datatype PdfOp = AddPage | AddImage(image: Drawn)

  /** A finished document: the calls that built it and the name it is saved under. */
  datatype Document = Document(ops: seq<PdfOp>, fileName: string)

  /** The size an image of natural size `natural` is drawn at: the constraining
      side fills the printable box, the other keeps the aspect ratio. */
  function Fit(natural: Size): (r: Size)
    requires Positive(natural)
    ensures Positive(r) && r.width <= MaxWidth && r.height <= MaxHeight
    ensures r.width * natural.height == r.height * natural.width
    ensures natural.width * MaxHeight > natural.height * MaxWidth ==> r.width == MaxWidth
    ensures natural.width * MaxHeight <= natural.height * MaxWidth ==> r.height == MaxHeight
  {
    var imgRatio := natural.width / natural.height;
    var pageRatio := MaxWidth / MaxHeight;
    RatioCompare(natural.width, natural.height);
    if imgRatio > pageRatio then
      Size(MaxWidth, MaxWidth / imgRatio)
    else
      Size(MaxHeight * imgRatio, MaxHeight)
  }

  /** Comparing the ratios is comparing the cross products. */
  lemma RatioCompare(w: real, h: real)
    requires w > 0.0 && h > 0.0
    ensures w / h > MaxWidth / MaxHeight <==> w * MaxHeight > h * MaxWidth
  {
    var r := w / h;
    assert r * h == w;
    assert r * MaxHeight * h == w * MaxHeight;
    assert MaxWidth * h == h * MaxWidth;
    if r > MaxWidth / MaxHeight {
      assert r * MaxHeight > MaxWidth;
      assert r * MaxHeight * h > MaxWidth * h;
      assert w * MaxHeight > h * MaxWidth;
    } else {
      assert r * MaxHeight <= MaxWidth;
      ScaleAtMost(r * MaxHeight, MaxWidth, h);
      assert w * MaxHeight <= h * MaxWidth;
    }
  }

  lemma ScaleAtMost(a: real, b: real, c: real)
    requires a <= b && c > 0.0
    ensures a * c <= b * c
  {
    assert (b - a) * c >= 0.0;
  }

  /** No uniform scaling of the image that fits the printable box is larger
      than the fitted size. */
  lemma FitIsLargest(natural: Size, scale: real)
    requires Positive(natural) && scale > 0.0
    requires scale * natural.width <= MaxWidth && scale * natural.height <= MaxHeight
    ensures scale * natural.width <= Fit(natural).width
    ensures scale * natural.height <= Fit(natural).height
  {
    var r := Fit(natural);
    var w, h := natural.width, natural.height;
    if w * MaxHeight > h * MaxWidth {
      assert r.width == MaxWidth;
      assert r.height * w == MaxWidth * h;
      assert scale * h * w <= MaxWidth * h by {
        assert scale * w <= MaxWidth;
      }
    } else {
      assert r.height == MaxHeight;
      assert r.width * h == MaxHeight * w;
      assert scale * w * h <= MaxHeight * w by {
        assert scale * h <= MaxHeight;
      }
    }
  }

  /** The placement of an image: fitted, then centred on the whole sheet. */
  function Place(natural: Size): (p: Placement)
    requires Positive(natural)
    ensures Size(p.width, p.height) == Fit(natural)
    ensures p.x + p.width / 2.0 == PageWidth / 2.0
    ensures p.y + p.height / 2.0 == PageHeight / 2.0
    ensures Margin <= p.x && p.x + p.width <= PageWidth - Margin
    ensures Margin <= p.y && p.y + p.height <= PageHeight - Margin
  {
    var size := Fit(natural);
    Placement((PageWidth - size.width) / 2.0, (PageHeight - size.height) / 2.0, size.width, size.height)
  }

  /** A 1000 by 500 image is drawn 190 wide and 95 high at (10, 101). */
  lemma PlaceWideExample()
    ensures Place(Size(1000.0, 500.0)) == Placement(10.0, 101.0, 190.0, 95.0)
  {
    var r := Fit(Size(1000.0, 500.0));
    assert r.width == 190.0;
    assert r.height * 1000.0 == 190.0 * 500.0;
  }

  /** What the PDF writer makes of a list of calls: a new document has one
      empty page, `AddPage` starts another, `AddImage` draws on the last one. */
  function Pages(ops: seq<PdfOp>): (pages: seq<seq<Drawn>>)
    ensures |pages| >= 1
  {
    if ops == [] then [[]]
    else
      var before := Pages(ops[..|ops| - 1]);
      match ops[|ops| - 1]
      case AddPage => before + [[]]
      case AddImage(image) => before[..|before| - 1] + [before[|before| - 1] + [image]]
  }

  function AddPageCount(ops: seq<PdfOp>): nat
  {
    if ops == [] then 0 else AddPageCount(ops[..|ops| - 1]) + (if ops[|ops| - 1] == AddPage then 1 else 0)
  }

  /** The document has the first page plus one page per `AddPage` call. */
  lemma {:induction false} PageCount(ops: seq<PdfOp>)
    ensures |Pages(ops)| == 1 + AddPageCount(ops)
  {
    if ops != [] {
      PageCount(ops[..|ops| - 1]);
    }
  }

  /** Each image drawn at its placement, in list order. */
  function Drawings(processed: seq<Processed>, sizes: seq<Size>): seq<Drawn>
    requires |sizes| == |processed|
    requires forall i :: 0 <= i < |sizes| ==> Positive(sizes[i])
  {
    seq(|processed|, i requires 0 <= i < |processed| => Drawn(processed[i].data, Place(sizes[i])))
  }

  /** One page per image, in order, each holding just that image. */
  function OnePerPage(images: seq<Drawn>): (pages: seq<seq<Drawn>>)
    ensures |pages| == |images|
    ensures forall i :: 0 <= i < |pages| ==> pages[i] == [images[i]]
  {
    if images == [] then [] else OnePerPage(images[..|images| - 1]) + [[images[|images| - 1]]]
  }

  lemma PagesAddPage(ops: seq<PdfOp>)
    ensures Pages(ops + [AddPage]) == Pages(ops) + [[]]
  {
    assert (ops + [AddPage])[..|ops|] == ops;
  }

  lemma PagesAddImage(ops: seq<PdfOp>, image: Drawn)
    ensures var before := Pages(ops);
      Pages(ops + [AddImage(image)]) == before[..|before| - 1] + [before[|before| - 1] + [image]]
  {
    assert (ops + [AddImage(image)])[..|ops|] == ops;
  }

  /** The calls of one turn of the page loop: `AddPage` unless it is the first image, then `AddImage`. */
  function PageStep(i: nat, image: Drawn): seq<PdfOp>
  {
    (if i > 0 then [AddPage] else []) + [AddImage(image)]
  }

  /** One turn of the page loop puts the next image on a page of its own. */
  lemma PageStepKeepsOnePerPage(ops: seq<PdfOp>, images: seq<Drawn>, i: nat)
    requires i < |images|
    requires i == 0 ==> ops == []
    requires i > 0 ==> Pages(ops) == OnePerPage(images[..i])
    ensures Pages(ops + PageStep(i, images[i])) == OnePerPage(images[..i + 1])
  {
    var image := images[i];
    var prefix := images[..i + 1];
    assert prefix[..|prefix| - 1] == images[..i] && prefix[|prefix| - 1] == image;
    var want := OnePerPage(images[..i]) + [[image]];
    assert OnePerPage(prefix) == want;
    var before := if i > 0 then Pages(ops) + [[]] else [[]];
    if i > 0 {
      PagesAddPage(ops);
      assert ops + PageStep(i, image) == (ops + [AddPage]) + [AddImage(image)];
      PagesAddImage(ops + [AddPage], image);
    } else {
      assert ops + PageStep(i, image) == ops + [AddImage(image)];
      PagesAddImage(ops, image);
    }
    assert Pages(ops + PageStep(i, image)) == before[..|before| - 1] + [before[|before| - 1] + [image]];
    assert before[..|before| - 1] == OnePerPage(images[..i]);
    assert before[|before| - 1] + [image] == [image];
  }

  /** The page loop of the PDF export: nothing for an empty list; otherwise
      the first image on the first page and `AddPage` before every later one.
      `sizes[i]` is the natural size the browser decodes for `processed[i]`. */
  method Compose(processed: seq<Processed>, sizes: seq<Size>) returns (doc: Option<Document>)
    requires |sizes| == |processed|
    requires forall i :: 0 <= i < |sizes| ==> Positive(sizes[i])
    ensures doc.None? <==> processed == []
    ensures doc.Some? ==> doc.value.fileName == FileName
    ensures doc.Some? ==> Pages(doc.value.ops) == OnePerPage(Drawings(processed, sizes))
    ensures doc.Some? ==> AddPageCount(doc.value.ops) == |processed| - 1
  {
    if |processed| == 0 {
      return None;
    }
    ghost var drawings := Drawings(processed, sizes);
    var ops: seq<PdfOp> := [];
    for i := 0 to |processed|
      invariant i == 0 ==> ops == []
      invariant i > 0 ==> Pages(ops) == OnePerPage(drawings[..i])
    {
      var image := Drawn(processed[i].data, Place(sizes[i]));
      assert image == drawings[i];
      PageStepKeepsOnePerPage(ops, drawings, i);
      if i > 0 {
        ops := ops + [AddPage];
      }
      ops := ops + [AddImage(image)];
    }
    assert drawings[..|processed|] == drawings;
    PageCount(ops);
    return Some(Document(ops, FileName));
  }
}
