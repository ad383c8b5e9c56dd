/** The conversion pipeline of ocr.py: rasterise a PDF into page images,
    optionally pre-process each page, recognise each page's text with the
    OCR engine, and join the page texts in page order.

    Rasterisation, greyscale conversion, bicubic resampling, the OCR engine
    and the file write are foreign; they are the fields of `Externals`. */
module Ocr {
  import opened Results

  /** Pixels strictly above this intensity become white. */
  const WhiteThreshold: int := 240
  const White: int := 255
  const Black: int := 0
  /** Both dimensions of a page are multiplied by this before thresholding. */
  const UpscaleFactor: nat := 3

  /** A page raster: its size and its intensities in row-major order. */
  datatype Image = Image(width: nat, height: nat, pixels: seq<int>)

  /** The raster holds exactly one intensity per pixel of its size. */
  predicate WellFormed(img: Image)
  {
    |img.pixels| == img.width * img.height
  }

  /** The failures a run can end with. */
  datatype Error =
    | DocumentReadFailure(message: string)   // raised by the rasteriser
    | OcrFailure(message: string)            // raised by the OCR engine
    | NotOpened                              // joining `texts` while it is None
    | FileWriteFailure(message: string)      // opening or writing the output file

  /** The foreign operations the pipeline calls.
      - rasterise: the pages of the PDF at a path, or an error message;
      - greyscale: conversion to an 8-bit intensity image;
      - resize: resampling to the given width and height;
      - recognise: the text the engine at the given executable path reads
        from an image, or an error message;
      - write: writes a text to a path; None on success, else a message. */
  datatype Externals = Externals(
    rasterise: string -> Result<seq<Image>, string>,
    greyscale: Image -> Image,
    resize: (Image, nat, nat) -> Image,
    recognise: (string, Image) -> Result<string, string>,
    write: (string, string) -> Option<string>)

  // ---------------------------------------------------------------------
  // Binarisation and pre-processing

  /** The per-pixel rule `val > 240 and 255`: the conjunction yields 255
      when the test holds and False, that is 0, otherwise. */
  function Threshold(v: int): (r: int)
    ensures r == White <==> v > WhiteThreshold
    ensures r == Black <==> v <= WhiteThreshold
  {
    if v > WhiteThreshold then White else Black
  }

  lemma ThresholdIdempotent(v: int)
    ensures Threshold(Threshold(v)) == Threshold(v)
  {
  }

  /** Every pixel is black or white. */
  predicate IsBinary(img: Image)
  {
    forall i :: 0 <= i < |img.pixels| ==> img.pixels[i] == Black || img.pixels[i] == White
  }

  /** The image with the threshold rule applied to every pixel. */
  function Binarize(img: Image): (r: Image)
    ensures r.width == img.width && r.height == img.height
    ensures |r.pixels| == |img.pixels|
    ensures forall i :: 0 <= i < |r.pixels| ==> r.pixels[i] == Threshold(img.pixels[i])
    ensures IsBinary(r)
    ensures WellFormed(img) ==> WellFormed(r)
  {
    img.(pixels := seq(|img.pixels|, i requires 0 <= i < |img.pixels| => Threshold(img.pixels[i])))
  }

  /** Thresholding leaves an already binary image as it is. */
  lemma BinarizeFixesBinary(img: Image)
    requires IsBinary(img)
    ensures Binarize(img) == img
  {
  }

  /** Thresholding twice is thresholding once. */
  lemma BinarizeIdempotent(img: Image)
    ensures Binarize(Binarize(img)) == Binarize(img)
  {
  }

  /** Greyscale, resample to three times the page's own size, threshold. */
  function PreProcess(img: Image, ext: Externals): (r: Image)
    ensures IsBinary(r)
  {
    Binarize(ext.resize(ext.greyscale(img), UpscaleFactor * img.width, UpscaleFactor * img.height))
  }

  /** The resampler produces a well-formed image of exactly the size it is
      asked for. */
  ghost predicate ResizeHonoursSize(ext: Externals)
  {
    forall im: Image, w: nat, h: nat ::
      ext.resize(im, w, h).width == w && ext.resize(im, w, h).height == h && WellFormed(ext.resize(im, w, h))
  }

  /** With a resampler that honours its target size, a pre-processed page is
      a well-formed raster three times as wide and as high as the page, and
      thresholding it again changes nothing. */
  lemma PreProcessShape(img: Image, ext: Externals)
    requires ResizeHonoursSize(ext)
    ensures PreProcess(img, ext).width == 3 * img.width
    ensures PreProcess(img, ext).height == 3 * img.height
    ensures WellFormed(PreProcess(img, ext))
    ensures |PreProcess(img, ext).pixels| == 9 * (img.width * img.height)
    ensures Binarize(PreProcess(img, ext)) == PreProcess(img, ext)
  {
  }

  // ---------------------------------------------------------------------
  // Recognition, page by page

  /** The text of one page: pre-processed first when `prep` is set. */
  function ReadPage(exePath: string, page: Image, prep: bool, ext: Externals): (r: Result<string, Error>)
    ensures r.Err? ==> r.error.OcrFailure?
    ensures !prep ==> (r.Ok? <==> ext.recognise(exePath, page).Ok?)
  {
    var input := if prep then PreProcess(page, ext) else page;
    match ext.recognise(exePath, input)
    case Ok(text) => Ok(text)
    case Err(message) => Err(OcrFailure(message))
  }

  /** The texts of all pages in page order, or the error of the first page
      whose recognition fails. */
  function OcrPages(exePath: string, pages: seq<Image>, prep: bool, ext: Externals): (r: Result<seq<string>, Error>)
    ensures r.Ok? ==> |r.value| == |pages|
    ensures r.Err? ==> r.error.OcrFailure?
    decreases |pages|
  {
    if pages == [] then Ok([])
    else
      match OcrPages(exePath, pages[..|pages| - 1], prep, ext)
      case Err(e) => Err(e)
      case Ok(texts) =>
        match ReadPage(exePath, pages[|pages| - 1], prep, ext)
        case Err(e) => Err(e)
        case Ok(text) => Ok(texts + [text])
  }

  /** Recognition of all pages succeeds exactly when every page's does. */
  lemma {:induction false} OcrPagesSucceeds(exePath: string, pages: seq<Image>, prep: bool, ext: Externals)
    ensures OcrPages(exePath, pages, prep, ext).Ok? <==>
            forall i :: 0 <= i < |pages| ==> ReadPage(exePath, pages[i], prep, ext).Ok?
  {
    if pages != [] {
      var front := pages[..|pages| - 1];
      OcrPagesSucceeds(exePath, front, prep, ext);
      assert forall i :: 0 <= i < |front| ==> front[i] == pages[i];
    }
  }

  /** On success there is one text per page, and text i is page i's. */
  lemma {:induction false} OcrPagesPageByPage(exePath: string, pages: seq<Image>, prep: bool, ext: Externals)
    requires OcrPages(exePath, pages, prep, ext).Ok?
    ensures |OcrPages(exePath, pages, prep, ext).value| == |pages|
    ensures forall i :: 0 <= i < |pages| ==>
              ReadPage(exePath, pages[i], prep, ext) == Ok(OcrPages(exePath, pages, prep, ext).value[i])
  {
    if pages != [] {
      var front := pages[..|pages| - 1];
      OcrPagesPageByPage(exePath, front, prep, ext);
      assert forall i :: 0 <= i < |front| ==> front[i] == pages[i];
    }
  }

  /** When pages before j are read and page j fails, the whole recognition
      fails with page j's error. */
  lemma {:induction false} OcrPagesFirstFailure(exePath: string, pages: seq<Image>, prep: bool, ext: Externals, j: nat)
    requires j < |pages|
    requires forall i :: 0 <= i < j ==> ReadPage(exePath, pages[i], prep, ext).Ok?
    requires ReadPage(exePath, pages[j], prep, ext).Err?
    ensures OcrPages(exePath, pages, prep, ext) == Err(ReadPage(exePath, pages[j], prep, ext).error)
  {
    var front := pages[..|pages| - 1];
    assert forall i :: 0 <= i < |front| ==> front[i] == pages[i];
    if j == |pages| - 1 {
      OcrPagesSucceeds(exePath, front, prep, ext);
    } else {
      OcrPagesFirstFailure(exePath, front, prep, ext, j);
    }
  }

  // ---------------------------------------------------------------------
  // Joining and writing

  /** The sum of the lengths of the page texts. */
  function TotalLength(texts: seq<string>): nat
  {
    if texts == [] then 0 else TotalLength(texts[..|texts| - 1]) + |texts[|texts| - 1]|
  }

  /** `''.join(texts)`: the page texts one after another, no separator. */
  function Concat(texts: seq<string>): (r: string)
    ensures |r| == TotalLength(texts)
  {
    if texts == [] then "" else Concat(texts[..|texts| - 1]) + texts[|texts| - 1]
  }

  /** Joining is order-preserving over a split of the pages. */
  lemma {:induction false} ConcatAppend(a: seq<string>, b: seq<string>)
    ensures Concat(a + b) == Concat(a) + Concat(b)
  {
    if b != [] {
      var front := b[..|b| - 1];
      assert (a + b)[..|a + b| - 1] == a + front;
      ConcatAppend(a, front);
    } else {
      assert a + b == a;
    }
  }

  /** Page i's text sits in the output right after the texts of pages
      0 .. i-1, with nothing in between. */
  lemma ConcatPlacesPage(texts: seq<string>, i: nat)
    requires i < |texts|
    ensures TotalLength(texts[..i]) + |texts[i]| <= |Concat(texts)|
    ensures Concat(texts)[TotalLength(texts[..i]) .. TotalLength(texts[..i]) + |texts[i]|] == texts[i]
  {
    assert texts == texts[..i] + [texts[i]] + texts[i + 1..];
    ConcatAppend(texts[..i] + [texts[i]], texts[i + 1..]);
    ConcatAppend(texts[..i], [texts[i]]);
    assert Concat([texts[i]]) == texts[i] by {
      assert [texts[i]][..0] == [];
    }
  }

  lemma ConcatTwoPages()
    ensures Concat(["A", "B"]) == "AB"
  {
  }

  /** Writing `text` to `path`: the text written, or the write's failure. */
  function Persist(path: string, text: string, ext: Externals): Result<string, Error>
  {
    match ext.write(path, text)
    case None => Ok(text)
    case Some(message) => Err(FileWriteFailure(message))
  }

  /** The outcome of a fresh object's open followed by save: the text
      written, or the first failure raised. */
  function Convert(exePath: string, src: string, prep: bool, out: string, ext: Externals): (r: Result<string, Error>)
    ensures r.Err? ==> !r.error.NotOpened?
    ensures (r.Err? && r.error.DocumentReadFailure?) <==> ext.rasterise(src).Err?
    ensures r.Ok? ==> ext.rasterise(src).Ok? && OcrPages(exePath, ext.rasterise(src).value, prep, ext).Ok?
    ensures r.Ok? ==> ext.write(out, r.value).None?
  {
    match ext.rasterise(src)
    case Err(message) => Err(DocumentReadFailure(message))
    case Ok(pages) =>
      match OcrPages(exePath, pages, prep, ext)
      case Err(e) => Err(e)
      case Ok(texts) => Persist(out, Concat(texts), ext)
  }

  /** End to end: when the document rasterises, every page is recognised and
      the write succeeds, the run writes the page texts joined in order. */
  lemma EndToEnd(exePath: string, src: string, prep: bool, out: string, ext: Externals,
                 pages: seq<Image>, texts: seq<string>)
    requires ext.rasterise(src) == Ok(pages)
    requires |texts| == |pages|
    requires forall i :: 0 <= i < |pages| ==> ReadPage(exePath, pages[i], prep, ext) == Ok(texts[i])
    requires ext.write(out, Concat(texts)).None?
    ensures Convert(exePath, src, prep, out, ext) == Ok(Concat(texts))
  {
    OcrPagesSucceeds(exePath, pages, prep, ext);
    OcrPagesPageByPage(exePath, pages, prep, ext);
    assert OcrPages(exePath, pages, prep, ext).value == texts;
  }

  // ---------------------------------------------------------------------
  // The PDF2Text object

  class Pdf2Text {
    var exePath: string
    var images: Option<seq<Image>>
    var texts: Option<seq<string>>

    constructor (exePath: string)
      ensures this.exePath == exePath && images == None && texts == None
    {
      this.exePath := exePath;
      images := None;
      texts := None;
    }

    /** Rasterise the PDF at `path` into `images`, then recognise them into
        `texts`. A failure leaves the fields it had not reached as they were. */
    method Open(path: string, prep: bool, ext: Externals) returns (failure: Option<Error>)
      modifies this
      ensures exePath == old(exePath)
      ensures match ext.rasterise(path)
              case Err(message) =>
                failure == Some(DocumentReadFailure(message)) && images == old(images) && texts == old(texts)
              case Ok(pages) =>
                images == Some(pages) &&
                match OcrPages(exePath, pages, prep, ext)
                case Err(e) => failure == Some(e) && texts == old(texts)
                case Ok(ts) => failure == None && texts == Some(ts)
    {
      match ext.rasterise(path) {
        case Err(message) =>
          failure := Some(DocumentReadFailure(message));
        case Ok(pages) =>
          images := Some(pages);
          var r := ReadPages(pages, prep, ext);
          match r {
            case Err(e) =>
              failure := Some(e);
            case Ok(ts) =>
              texts := Some(ts);
              failure := None;
          }
      }
    }

    /** The recognition loop: one text per page, appended in page order,
        stopping at the first page the engine fails on. */
    method ReadPages(pages: seq<Image>, prep: bool, ext: Externals) returns (r: Result<seq<string>, Error>)
      ensures r == OcrPages(exePath, pages, prep, ext)
    {
      var acc: seq<string> := [];
      var i := 0;
      while i < |pages|
        invariant 0 <= i <= |pages|
        invariant OcrPages(exePath, pages[..i], prep, ext) == Ok(acc)
      {
        var page := pages[i];
        if prep {
          page := PreProcess(page, ext);
        }
        match ext.recognise(exePath, page) {
          case Err(message) =>
            OcrPagesSucceeds(exePath, pages[..i], prep, ext);
            OcrPagesFirstFailure(exePath, pages, prep, ext, i);
            return Err(OcrFailure(message));
          case Ok(text) =>
            assert pages[..i + 1][..i] == pages[..i];
            acc := acc + [text];
        }
        i := i + 1;
      }
      assert pages[..|pages|] == pages;
      r := Ok(acc);
    }

    /** The text `save` writes: the page texts joined; joining before `open`
        has set `texts` fails. */
    method Save(path: string, ext: Externals) returns (r: Result<string, Error>)
      ensures texts.None? ==> r == Err(NotOpened)
      ensures texts.Some? ==> r == Persist(path, Concat(texts.value), ext)
    {
      match texts {
        case None =>
          r := Err(NotOpened);
        case Some(ts) =>
          var output := Concat(ts);
          r := Persist(path, output, ext);
      }
    }
  }
}
