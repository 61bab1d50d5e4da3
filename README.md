# screenshotocr — selection, crop and OCR hand-off, modelled in Dafny

screenshotocr opens a full-screen overlay showing a screenshot. The user drags out a rectangle with the pointer. On release, the program crops that rectangle out of the screenshot and runs Tesseract OCR on it. The recognised text goes to the clipboard.

This project models the three parts of the program that hold state:

- **Geometry** (`geometry.dfy`, module `Geometry`): `Position`, `Area` and the width, height, top-left corner and outline rectangle of an area. Coordinates are reals.
- **Area selection** (`area_selection.dfy`, module `AreaSelection`): the `selecting` flag and the optional selected area.
  - The class `AreaSelectionFeature` holds them in fields. Its `OnMotion` and `OnRelease` methods model the motion and release handlers. `SelectedRectangle` models the draw handler's outline.
  - The methods are proved to follow the value-level `Step`. `Run` folds `Step` over an event sequence and records the dispatched areas and the redraw requests. The lemmas about event sequences are stated over `Run`.
- **Feature vector** (`features.dfy`, module `Features`): the `Feature` variants, the area-selection index, and the effect of `Vec::insert` and `Vec::resize_with`.
- **Pixel buffers** (`pixbuf.dfy`, module `Pixbuf`): the library calls the crop relies on.
  - A pixbuf is an `array2<Pixel>` indexed `[x, y]`.
  - `copy_area` is a nested-loop block copy.
  - The packed RGBA bytes that `read_pixel_bytes` yields are modelled, along with the `image` crate's `from_vec` rebuild of those bytes.
- **Application** (`application.dfy`, module `Application`):
  - The crop step of `dispatch`: its origin, its size after the `as i32` casts, and the crop as a method filling a fresh buffer.
  - The fixed Tesseract arguments.
  - `adjust_features_vec_size`.
  - The `ApplicationInstance` class, whose `Dispatch` writes the recognised text to the clipboard and closes the window.
- **Session** (`session.dfy`, module `Session`): registering the feature, the `build_application` sequence, and the release handler's call into `dispatch`. They sit in their own module for one reason: in the program, the feature and the application refer to each other, and Dafny modules may not.

Two points about the code that shape the model:

- The code neither clamps the rectangle nor handles zero sizes. It passes the values to `Pixbuf::new` and `copy_area` unchecked, so a non-empty, in-bounds crop is a precondition (`CropFits`).
- A motion after a release starts a new drag with a new anchor (`Step`, `DragThenRelease`).

## Model

| member | source | states |
|---|---|---|
| `Geometry.Area.Width` | src/types.rs:14-17 | Width ≥ 0. It is 0 iff the corners share x. The smaller x plus the width is the larger x. |
| `Geometry.Area.Height` | src/types.rs:18-21 | Height ≥ 0. It is 0 iff the corners share y. The smaller y plus the height is the larger y. |
| `Geometry.Area.TopLeft` | src/application.rs:42-49 | Each coordinate is the minimum of the two corners' coordinates: ≤ both, and equal to one of them. |
| `Geometry.Area.Bounds` | src/features/area_selection.rs:62-73 | The outline has non-negative size. Its two vertical edges lie at the two corners' x values and its two horizontal edges at their y values. |
| `Geometry.DefaultAreaIsEmpty` | src/types.rs:1-11 | The default area has both corners at the origin, zero width and height, and outline (0, 0, 0, 0). |
| `Geometry.SwapInvariant` | src/types.rs:14-21 | Swapping start and end leaves width, height, top-left corner and outline unchanged. |
| `Geometry.SizeFollowsAxes` | src/types.rs:14-21 | Width depends only on the x coordinates; height depends only on the y coordinates. |
| `AreaSelection.Step` | src/features/area_selection.rs:83-126 | Motion at p: selecting becomes true, an area is stored with end p, nothing is dispatched and one redraw is requested. While dragging, the stored start is kept; otherwise the area becomes (p, p). Release: selecting becomes false, the area is kept, the stored area is dispatched iff there is one, and one redraw is requested. |
| `AreaSelection.OneRedrawPerEvent` | src/features/area_selection.rs:104-125 | Any event sequence requests exactly one redraw per event. |
| `AreaSelection.MotionsKeepAnchor` | src/features/area_selection.rs:88-105 | A run of motions dispatches nothing and keeps the anchor chosen by the first motion. The moving corner ends at the last position. |
| `AreaSelection.DragThenRelease` | src/features/area_selection.rs:80-127 | From a state that is not dragging, motions at p0..pn followed by a release dispatch exactly one area, (p0, pn), and leave selecting false. |
| `AreaSelection.ThreeMotionsThenRelease` | src/features/area_selection.rs:80-127 | From the initial state, motion(a), motion(b), motion(c), release dispatches exactly [Area(a, c)]. |
| `AreaSelection.ReleasesAloneDispatchNothing` | src/features/area_selection.rs:117-123 | With no area stored, releases without motions dispatch nothing and store nothing. |
| `AreaSelection.EveryReleaseDispatchesOnceSelected` | src/features/area_selection.rs:117-123 | Once an area is stored it is never cleared, and each later release dispatches exactly one area. |
| `AreaSelection.ClickDispatchesEmptyArea` | src/features/area_selection.rs:88-123 | A single motion at p followed by a release dispatches (p, p), which has zero width and height. |
| `AreaSelection.AreaSelectionFeature.constructor` | src/features/area_selection.rs:17-24 | A fresh feature is not selecting, has no area and has requested no redraw. |
| `AreaSelection.AreaSelectionFeature.OnMotion` | src/features/area_selection.rs:80-110 | The new state is `Step` of the old state on the motion, and the redraw count grows by one. |
| `AreaSelection.AreaSelectionFeature.OnRelease` | src/features/area_selection.rs:112-127 | The new state is `Step` of the old state on the release. It returns the stored area, if any, as the completed area. The redraw count grows by one. |
| `AreaSelection.AreaSelectionFeature.SelectedRectangle` | src/features/area_selection.rs:57-73 | There is no outline iff no area is stored. Otherwise the outline has non-negative size and its edges lie at the stored corners' coordinates. |
| `AreaSelection.DragScenario` | src/features/area_selection.rs:80-127 | A default feature driven through the methods with motions at a, b, c and a release completes with the area (a, c). |
| `Features.Insert` | src/features/area_selection.rs:45-48 | The new value is at index i and the length grows by one. Entries before i stay put; entries from i on shift one place right. |
| `Features.ResizeWith` | src/application.rs:125-130 | The result has length n. The old entries are kept up to n and the rest is the fill value. |
| `Pixbuf.NewPixbuf` | src/application.rs:33-40 | For an RGBA 8-bit format and a positive size, a fresh buffer of exactly that width and height. |
| `Pixbuf.FromVec` | src/application.rs:63-68 | The image is built iff the buffer holds at least 4·w·h samples. It then has width w, height h and exactly those samples. |
| `Pixbuf.CopyArea` | src/application.rs:51-59 | The width × height block of the source at the source offset lands in the destination at the destination offset. Every other destination pixel is unchanged. |
| `Pixbuf.RowsOf` | src/application.rs:61 | The rows of a pixbuf: one per y, each holding the pixels at every x of that row. |
| `Pixbuf.ImageBytesAt` | src/application.rs:61-68 | Packed rows of width w take 4·w·h bytes. Sample c of pixel (x, y) sits at byte 4·(y·w + x) + c. |
| `Pixbuf.PixelRoundTrip` | src/application.rs:61-68 | Rebuilding an image from its packed bytes always succeeds, and it reads back every pixel unchanged. |
| `Application.Trunc` | src/application.rs:51-55 | The `as i32` cast truncates toward zero: it is within one of the value and never farther from zero. |
| `Application.CropOrigin` | src/application.rs:42-53 | When the top-left corner is on screen, the origin is the pixel holding it: within one below each minimum coordinate, and not negative. It equals the smaller of the two corners' truncated coordinates. |
| `Application.CropSize` | src/application.rs:37-38 | Each size is the whole number of pixels the width (height) covers: within one below it. It is zero exactly when the width (height) is below one. |
| `Application.CropImagePixel` | src/application.rs:33-59 | The crop image is Trunc(width) × Trunc(height) with 4·w·h samples. Its pixel (x, y) is the screenshot pixel at (Trunc(min x) + x, Trunc(min y) + y). |
| `Application.CropIgnoresDragDirection` | src/application.rs:33-59 | Swapping the area's start and end keeps the crop in bounds and yields the identical image. |
| `Application.CropReachesFarCorner` | src/application.rs:42-55 | The width is truncated separately from the origin. So the crop ends at the far corner's pixel column, or one column before it, and likewise for rows. |
| `Application.CropFormatIsRgba8` | src/application.rs:33-36 | The format `dispatch` allocates with (RGB with alpha, 8 bits per sample) has four 8-bit samples per pixel, the layout of `Pixel` and of an RGBA 8-bit image. `CropForOcr` allocates its buffer through this format. |
| `Application.CropForOcr` | src/application.rs:33-71 | Allocating the buffer in the RGBA 8-bit format, block-copying the region, reading the bytes and rebuilding them as RGBA yields exactly `CropImage` of the area. The `from_vec` unwrap cannot fail. |
| `Application.OcrArgsAreFixed` | src/application.rs:73-82 | The OCR arguments are lang "eng", dpi 150, psm 6, oem 3, and a single config variable `tessedit_char_whitelist` holding the fixed whitelist. |
| `Application.ApplicationInstance.constructor` | src/application.rs:115-123 | A new instance holds the given screenshot, an empty feature vector, no clipboard text and an open window. |
| `Application.ApplicationInstance.AdjustFeaturesVecSize` | src/application.rs:125-133 | The feature vector is resized to 20, padded with `Disabled`. An empty vector becomes 20 `Disabled` entries. |
| `Application.ApplicationInstance.Dispatch` | src/application.rs:30-91 | The clipboard receives the OCR of the area's crop under the fixed arguments, and the window is closed. |
| `Session.AddAreaSelectionFeature` | src/features/area_selection.rs:26-51 | A fresh default feature is inserted at index 0 of the feature vector. |
| `Session.BuildApplication` | src/application.rs:94-100 | After the resize and the registration, the vector is the feature followed by 20 `Disabled` entries. The feature is in its default state. |
| `Session.ReleaseAndDispatch` | src/features/area_selection.rs:112-127 | Release follows `Step`. With an area stored, the clipboard receives the OCR of its crop and the window closes. With none, the clipboard and window are untouched. |
| `Session.CaptureDrag` | src/application.rs:29-92 | From a freshly built application, motions at a, b, c and a release put on the clipboard the OCR of the crop of Area(a, c). |

## Left out

- `Application.ApplicationInstance.Dispatch`, `Application.CropForOcr` and `Session.ReleaseAndDispatch` require the crop to be non-empty and inside the screenshot (`CropFits`). The program calls `Pixbuf::new` and `copy_area` unchecked, and unwraps at src/application.rs:40. What gdk-pixbuf does otherwise is not part of this model. `ClickDispatchesEmptyArea` shows that a click with a single motion dispatches a zero-size area, which lies outside that precondition.
- `Pixbuf.NewPixbuf` requires a positive size and an RGBA 8-bit format. What `Pixbuf::new` returns for a size of zero or less, and for other formats, is not part of this model.
- `Application.Trunc`: the saturation of `as i32` at the 32-bit bounds, and the NaN and infinity cases, are not modelled; coordinates are finite reals.
- IEEE details of `min_by(total_cmp)` (for example −0.0 against +0.0) are not modelled.
- The OCR engine is a function parameter of `Dispatch`. Several steps are not modelled: the temporary image file, Tesseract failures and their unwraps (src/application.rs:72, 83), the `println!`, and clipboard failures (src/application.rs:86-87). The clipboard is reduced to the text last written and the window to a closed flag.
- Screen capture (`get_screenshot`) is not modelled: the screenshot is an input array. It is modelled in RGBA. Any format conversion `copy_area` does from the root window's RGB pixbuf is not modelled.
- The pixbuf byte layout is packed, row after row. For the 4-channel, 8-bit format used here, gdk-pixbuf's rowstride is exactly 4·width, so no padding exists.
- Window creation, the fullscreen overlay, painting the background, the Cairo colour, line width and `stroke`, and connecting the handlers to GTK signals are not modelled. Which motion events GTK delivers to the handler is not modelled either: every delivered motion is an `OnMotion` call.
- `Arc`, `RwLock`, `Rc` and the `unsafe impl Send/Sync` are not modelled: the program handles events one at a time on one thread, so the state is plain fields.
- `src/main.rs` (the process entry point) is not part of this model.
