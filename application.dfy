/**
 * The application instance (src/application.rs): the screenshot taken when
 * the overlay opens, the feature vector, and the completion handler that
 * crops the selected area out of the screenshot, hands it to OCR and puts
 * the text on the clipboard.
 */
module Application {
  import opened Wrappers
  import opened Geometry
  import opened Features
  import opened Pixbuf

  /** Rust's `f64 as i32` on a finite value: truncation toward zero. */
  function Trunc(r: real): (t: int)
    ensures r >= 0.0 ==> t >= 0 && t as real <= r < t as real + 1.0
    ensures r < 0.0 ==> t <= 0 && r <= t as real && (t as real) - 1.0 < r
  {
    if r >= 0.0 then r.Floor else -((-r).Floor)
  }

  /**
   * The crop's top-left pixel: each minimum coordinate cast to `i32`. It is
   * the pixel holding the top-left corner when that corner is on screen, and
   * it is the smaller of the two corners' truncated coordinates.
   */
  function CropOrigin(a: Area): (o: (int, int))
    ensures a.TopLeft().x >= 0.0 ==> 0 <= o.0 && o.0 as real <= a.TopLeft().x < o.0 as real + 1.0
    ensures a.TopLeft().y >= 0.0 ==> 0 <= o.1 && o.1 as real <= a.TopLeft().y < o.1 as real + 1.0
    ensures o.0 <= Trunc(a.start.x) && o.0 <= Trunc(a.end.x)
    ensures o.0 == Trunc(a.start.x) || o.0 == Trunc(a.end.x)
    ensures o.1 <= Trunc(a.start.y) && o.1 <= Trunc(a.end.y)
    ensures o.1 == Trunc(a.start.y) || o.1 == Trunc(a.end.y)
  {
    (Trunc(a.TopLeft().x), Trunc(a.TopLeft().y))
  }

  /**
   * The crop's size: the area's width and height, each cast to `i32` on its
   * own: the whole number of pixels the width (height) covers, which is zero
   * exactly when the width (height) is below one pixel.
   */
  function CropSize(a: Area): (s: (nat, nat))
    ensures s.0 as real <= a.Width() < s.0 as real + 1.0
    ensures s.1 as real <= a.Height() < s.1 as real + 1.0
    ensures s.0 == 0 <==> a.Width() < 1.0
    ensures s.1 == 0 <==> a.Height() < 1.0
  {
    (Trunc(a.Width()), Trunc(a.Height()))
  }

  /**
   * The crop is a non-empty block inside the screenshot: the source passes
   * these values to `Pixbuf::new` and `copy_area` unchecked.
   */
  predicate CropFits(shot: array2<Pixel>, a: Area) {
    var (ox, oy) := CropOrigin(a);
    var (w, h) := CropSize(a);
    0 < w && 0 < h &&
    0 <= ox && ox + w <= shot.Length0 &&
    0 <= oy && oy + h <= shot.Length1
  }

  /** The cropped block of the screenshot, as rows. */
  function CropRows(shot: array2<Pixel>, a: Area): (rows: seq<seq<Pixel>>)
    requires CropFits(shot, a)
    reads shot
  {
    var (ox, oy) := CropOrigin(a);
    var (w, h) := CropSize(a);
    seq(h, y requires 0 <= y < h reads shot =>
      seq(w, x requires 0 <= x < w reads shot => shot[ox + x, oy + y]))
  }

  /** The RGBA image the completion handler hands to OCR for area `a`. */
  function CropImage(shot: array2<Pixel>, a: Area): RgbaImage
    requires CropFits(shot, a)
    reads shot
  {
    RgbaImage(CropSize(a).0, CropSize(a).1, ImageBytes(CropRows(shot, a)))
  }

  /**
   * The image is as wide and as high as the area (after the cast) and its
   * pixel (x, y) is the screenshot's pixel at the crop origin plus (x, y).
   */
  lemma CropImagePixel(shot: array2<Pixel>, a: Area, x: nat, y: nat)
    requires CropFits(shot, a)
    requires x < CropSize(a).0 && y < CropSize(a).1
    ensures CropImage(shot, a).width == Trunc(a.Width())
    ensures CropImage(shot, a).height == Trunc(a.Height())
    ensures |CropImage(shot, a).data| == 4 * Trunc(a.Width()) * Trunc(a.Height())
    ensures Offset(CropImage(shot, a).width, x, y) + 4 <= |CropImage(shot, a).data|
    ensures CropImage(shot, a).PixelAt(x, y) ==
      shot[CropOrigin(a).0 + x, CropOrigin(a).1 + y]
  {
    var rows := CropRows(shot, a);
    ImageBytesLength(rows, CropSize(a).0);
    PixelRoundTrip(rows, CropSize(a).0, x, y);
  }

  /** Dragging the same rectangle in the opposite direction yields the same image. */
  lemma CropIgnoresDragDirection(shot: array2<Pixel>, a: Area)
    requires CropFits(shot, a)
    ensures CropFits(shot, Area(a.end, a.start))
    ensures CropImage(shot, Area(a.end, a.start)) == CropImage(shot, a)
  {
    SwapInvariant(a);
  }

  /**
   * The width is truncated on its own, not as the difference of the
   * truncated corners, so the crop ends at the pixel column of the far
   * corner or one column before it (likewise for rows).
   */
  lemma CropReachesFarCorner(a: Area)
    requires a.TopLeft().x >= 0.0 && a.TopLeft().y >= 0.0
    ensures var right := CropOrigin(a).0 + CropSize(a).0;
      right == Trunc(Max(a.start.x, a.end.x)) || right == Trunc(Max(a.start.x, a.end.x)) - 1
    ensures var bottom := CropOrigin(a).1 + CropSize(a).1;
      bottom == Trunc(Max(a.start.y, a.end.y)) || bottom == Trunc(Max(a.start.y, a.end.y)) - 1
  {
  }

  /** The layout `dispatch` asks `Pixbuf::new` for: RGB with alpha, 8 bits per sample. */
  const CropFormat: PixbufFormat := PixbufFormat(Rgb, true, 8)

  /** The crop buffer's samples per pixel match the four 8-bit samples of an RGBA image. */
  lemma CropFormatIsRgba8()
    ensures IsRgba8(CropFormat)
    ensures NChannels(CropFormat) == |Channels(Pixel(0, 0, 0, 0))|
  {
  }

  /**
   * The crop and conversion steps of `dispatch`: allocate the buffer, copy
   * the block, read its bytes and rebuild them as an RGBA image.
   */
  method CropForOcr(shot: array2<Pixel>, a: Area) returns (img: RgbaImage)
    requires CropFits(shot, a)
    ensures img == CropImage(shot, a)
  {
    var (w, h) := CropSize(a);
    var (ox, oy) := CropOrigin(a);
    CropFormatIsRgba8();
    var newPix := NewPixbuf(CropFormat, w, h);
    CopyArea(shot, ox, oy, w, h, newPix, 0, 0);
    var rows := RowsOf(newPix);
    assert rows == CropRows(shot, a) by {
      var crop := CropRows(shot, a);
      assert |rows| == |crop|;
      forall y | 0 <= y < h
        ensures rows[y] == crop[y]
      {
        assert |rows[y]| == |crop[y]|;
        forall x | 0 <= x < w
          ensures rows[y][x] == crop[y][x]
        {
          assert rows[y][x] == newPix[x, y];
        }
      }
    }
    var buffer := ImageBytes(rows);
    ImageBytesLength(rows, w);
    var image := FromVec(w, h, buffer);
    img := image.value;
  }

  /** `rusty_tesseract::Args`. */
  datatype TesseractArgs = TesseractArgs(
    lang: string,
    configVariables: map<string, string>,
    dpi: Option<int>,
    psm: Option<int>,
    oem: Option<int>)

  /** The characters OCR may report. */
  const CharWhitelist: string :=
    "éãúabcdefghijklmnopqrstuvwxyzABCDEFGHIJKLMNOPQRSTUVWXYZ0123456789:-_ ();,.[]{}´'\"`!-=+*/%$#@&|\\/<>\t"

  /** The fixed arguments of every OCR call. */
  const OcrArgs: TesseractArgs := TesseractArgs(
    "eng",
    map["tessedit_char_whitelist" := CharWhitelist],
    Some(150),
    Some(6),
    Some(3))

  lemma OcrArgsAreFixed()
    ensures OcrArgs.lang == "eng"
    ensures OcrArgs.dpi == Some(150) && OcrArgs.psm == Some(6) && OcrArgs.oem == Some(3)
    ensures OcrArgs.configVariables.Keys == {"tessedit_char_whitelist"}
    ensures OcrArgs.configVariables["tessedit_char_whitelist"] == CharWhitelist
  {
  }

  /** The events the application handles. */
  datatype Event = AreaSelectionCompleted(area: Area)

  /** Number of slots the feature vector is resized to. */
  const FeatureSlots: nat := 20

  /**
   * `ApplicationInstance`. The OCR engine is a parameter of `Dispatch`; the
   * clipboard and the window are reduced to the text last written and a
   * closed flag.
   */
  class ApplicationInstance {
    const screenshot: array2<Pixel>
    var features: seq<Feature>
    var clipboard: Option<string>
    var closed: bool

    /** `window_to_instance`: a new instance with an empty feature vector. */
    constructor (screenshot: array2<Pixel>)
      ensures this.screenshot == screenshot
      ensures features == [] && clipboard == None && !closed
    {
      this.screenshot := screenshot;
      features := [];
      clipboard := None;
      closed := false;
    }

    /** `adjust_features_vec_size`: the feature vector is resized to 20, padded with `Disabled`. */
    method AdjustFeaturesVecSize()
      modifies this`features
      ensures features == ResizeWith(old(features), FeatureSlots, Disabled)
      ensures old(features) == [] ==> features == seq(FeatureSlots, _ => Disabled)
    {
      features := ResizeWith(features, FeatureSlots, Disabled);
    }

    /**
     * `dispatch`: the selected area's crop of the screenshot is recognised
     * with the fixed arguments, the text goes to the clipboard and the
     * window closes.
     */
    method Dispatch(event: Event, ocr: (RgbaImage, TesseractArgs) -> string)
      requires CropFits(screenshot, event.area)
      modifies this`clipboard, this`closed
      ensures clipboard == Some(ocr(CropImage(screenshot, event.area), OcrArgs))
      ensures closed
    {
      match event
      case AreaSelectionCompleted(area) =>
        var img := CropForOcr(screenshot, area);
        var output := ocr(img, OcrArgs);
        clipboard := Some(output);
        closed := true;
    }
  }
}
