/**
 * How the pieces are put together when the overlay opens
 * (`build_application`) and what the handlers do with each other: the
 * area-selection feature is registered in the feature vector, and its
 * release handler passes the stored area to the instance's `dispatch`.
 *
 * The registration and the dispatch call live here rather than next to the
 * feature, because the feature and the application refer to each other and
 * Dafny modules may not.
 */
module Session {
  import opened Wrappers
  import opened Geometry
  import opened AreaSelection
  import opened Features
  import opened Pixbuf
  import opened Application

  /**
   * `add_area_selection_feature`: a default feature is created and inserted
   * at the area-selection index of the feature vector.
   */
  method AddAreaSelectionFeature(instance: ApplicationInstance) returns (feature: AreaSelectionFeature)
    modifies instance`features
    ensures fresh(feature)
    ensures feature.State() == Initial && feature.redraws == 0
    ensures instance.features ==
      Insert(old(instance.features), AreaSelectionIndex, OcrAreaSelection(feature))
  {
    feature := new AreaSelectionFeature();
    instance.features := Insert(instance.features, AreaSelectionIndex, OcrAreaSelection(feature));
  }

  /**
   * `build_application` for a given screenshot: after the resize and the
   * registration the vector holds the feature first and twenty `Disabled`
   * entries after it.
   */
  method BuildApplication(screenshot: array2<Pixel>)
    returns (instance: ApplicationInstance, feature: AreaSelectionFeature)
    ensures fresh(instance) && fresh(feature)
    ensures instance.screenshot == screenshot
    ensures instance.clipboard == None && !instance.closed
    ensures feature.State() == Initial && feature.redraws == 0
    ensures instance.features == [OcrAreaSelection(feature)] + seq(FeatureSlots, _ => Disabled)
  {
    instance := new ApplicationInstance(screenshot);
    instance.AdjustFeaturesVecSize();
    feature := AddAreaSelectionFeature(instance);
  }

  /**
   * The release handler as a whole: the selection stops, and when an area is
   * stored its crop is recognised and the text written to the clipboard;
   * with no area nothing is dispatched.
   */
  method ReleaseAndDispatch(feature: AreaSelectionFeature, instance: ApplicationInstance,
                            ocr: (RgbaImage, TesseractArgs) -> string)
    requires feature.selectedArea.Some? ==> CropFits(instance.screenshot, feature.selectedArea.value)
    modifies feature, instance`clipboard, instance`closed
    ensures feature.State() == Step(old(feature.State()), Release).final
    ensures feature.redraws == old(feature.redraws) + 1
    ensures old(feature.selectedArea).Some? ==>
      instance.clipboard == Some(ocr(CropImage(instance.screenshot, old(feature.selectedArea).value), OcrArgs)) &&
      instance.closed
    ensures old(feature.selectedArea).None? ==>
      instance.clipboard == old(instance.clipboard) && instance.closed == old(instance.closed)
  {
    var completed := feature.OnRelease();
    if completed.Some? {
      instance.Dispatch(AreaSelectionCompleted(completed.value), ocr);
    }
  }

  /**
   * A whole session: the overlay opens on `screenshot`, the pointer moves to
   * a, b and c and is released. The clipboard receives the text recognised
   * in the crop of the area from a to c.
   */
  method CaptureDrag(screenshot: array2<Pixel>, a: Position, b: Position, c: Position,
                     ocr: (RgbaImage, TesseractArgs) -> string)
    returns (clipboard: Option<string>)
    requires CropFits(screenshot, Area(a, c))
    ensures clipboard == Some(ocr(CropImage(screenshot, Area(a, c)), OcrArgs))
  {
    var instance, feature := BuildApplication(screenshot);
    feature.OnMotion(a);
    feature.OnMotion(b);
    feature.OnMotion(c);
    ReleaseAndDispatch(feature, instance, ocr);
    clipboard := instance.clipboard;
  }
}
