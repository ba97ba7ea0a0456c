/** public/ResponsivePreview.js: the preview's state (the chosen device or a
    custom size, the orientation, the optimisation verdict and the iframe's
    flags), its event handlers, the size given to the iframe and the class
    that labels it, and the verdict drawn from what the page's document
    shows. */
module Preview {
  import opened Text
  import opened DevicePresets

  /** getIframeDimensions: the custom size in custom mode, the device's
      otherwise, exchanged in landscape. src/components/ResponsivePreview.jsx
      has the same function. */
  function IframeDimensions(device: Device, customSize: Size, isCustom: bool, orientation: Orientation): (r: Size)
    ensures var base := if isCustom then customSize else SizeOf(device);
      r == Oriented(base, orientation)
  {
    var d := if isCustom then customSize else SizeOf(device);
    if orientation == Landscape then Size(d.height, d.width) else Size(d.width, d.height)
  }

  /** Toggling the orientation exchanges the iframe's width and height, and
      toggling twice gives back the same size. */
  lemma DimensionsAfterToggle(device: Device, customSize: Size, isCustom: bool, orientation: Orientation)
    ensures var r := IframeDimensions(device, customSize, isCustom, orientation);
      IframeDimensions(device, customSize, isCustom, Flip(orientation)) == Size(r.height, r.width)
    ensures IframeDimensions(device, customSize, isCustom, Flip(Flip(orientation)))
      == IframeDimensions(device, customSize, isCustom, orientation)
  {
    FlipOriented(if isCustom then customSize else SizeOf(device), orientation);
  }

  /** The label getDeviceTypeClass gives a width. */
  datatype DeviceType = Mobile | Tablet | Desktop

  function DeviceTypeClass(width: int): (t: DeviceType)
    ensures t == Mobile <==> width < 600
    ensures t == Tablet <==> 600 <= width < 1024
    ensures t == Desktop <==> 1024 <= width
  {
    if width < 600 then Mobile
    else if width < 1024 then Tablet
    else Desktop
  }

  function Rank(t: DeviceType): nat {
    match t
    case Mobile => 0
    case Tablet => 1
    case Desktop => 2
  }

  /** A wider iframe never gets a smaller class. */
  lemma DeviceTypeMonotone(w1: int, w2: int)
    requires w1 <= w2
    ensures Rank(DeviceTypeClass(w1)) <= Rank(DeviceTypeClass(w2))
  {
  }

  /** With the table's devices upright, the three "Mobile" presets, the
      iPhones, the Pixel and the Samsung are mobile, the iPads tablets, and
      the laptop and the desktop desktops; turned sideways, the "Mobile L"
      preset (812 wide) is a tablet. */
  lemma PresetClasses()
    ensures forall i :: 0 <= i < 7 ==> DeviceTypeClass(IframeDimensions(Presets[i], Size(0, 0), false, Portrait).width) == Mobile
    ensures forall i :: 7 <= i < 9 ==> DeviceTypeClass(IframeDimensions(Presets[i], Size(0, 0), false, Portrait).width) == Tablet
    ensures forall i :: 9 <= i < 11 ==> DeviceTypeClass(IframeDimensions(Presets[i], Size(0, 0), false, Portrait).width) == Desktop
    ensures DeviceTypeClass(IframeDimensions(Presets[2], Size(0, 0), false, Landscape).width) == Tablet
  {
  }

  /** What the optimisation check reads from the page's document: the
      viewport meta element (None when there is none; Some(None) when it has
      no content attribute) and the detectors' answers. */
  datatype Page = Page(
    viewportMeta: Option<Option<string>>,
    hasMediaRules: bool,
    hasBootstrap: bool,
    hasFoundation: bool,
    hasTailwind: bool,
    hasFlexbox: bool,
    hasGrid: bool,
    hasRem: bool)

  /** The responsive-design evidence other than the viewport meta. */
  predicate HasResponsiveEvidence(p: Page) {
    p.hasMediaRules || p.hasBootstrap || p.hasFoundation || p.hasTailwind || (p.hasFlexbox && p.hasGrid && p.hasRem)
  }

  /** The verdict of checkMobileOptimization, by its truthiness, or None when
      reading a viewport meta without content throws. */
  function OptimizationVerdict(p: Page): (r: Option<bool>)
    ensures r.None? <==> p.viewportMeta == Some(None)
    ensures r == Some(true) <==>
      p.viewportMeta.Some? && p.viewportMeta.value.Some? &&
      Contains(p.viewportMeta.value.value, DeviceWidth) && HasResponsiveEvidence(p)
  {
    match p.viewportMeta
    case None => Some(false)
    case Some(None) => None
    case Some(Some(content)) =>
      Some(Includes(content, "width=device-width") && HasResponsiveEvidence(p))
  }

  /** More evidence never turns an optimised verdict into a negative one. */
  lemma VerdictMonotone(p: Page, q: Page)
    requires p.viewportMeta == q.viewportMeta
    requires p.hasMediaRules ==> q.hasMediaRules
    requires p.hasBootstrap ==> q.hasBootstrap
    requires p.hasFoundation ==> q.hasFoundation
    requires p.hasTailwind ==> q.hasTailwind
    requires p.hasFlexbox ==> q.hasFlexbox
    requires p.hasGrid ==> q.hasGrid
    requires p.hasRem ==> q.hasRem
    ensures OptimizationVerdict(p) == Some(true) ==> OptimizationVerdict(q) == Some(true)
  {
  }

  /** A page whose viewport meta is the one getViewportMetaForDevice writes,
      and which has media rules, is judged optimised. */
  lemma PresetViewportPasses(p: Page, d: Device)
    requires p.viewportMeta == Some(Some(GetViewportMetaForDevice(d))) && p.hasMediaRules
    ensures OptimizationVerdict(p) == Some(true)
  {
  }

  /** The verdict after a run of checkMobileOptimization that sees
      `loadedSeen` as `iframeLoaded`: without an iframe, or when it sees the
      iframe as not loaded, the verdict stays `before`; otherwise it becomes
      the page's verdict, and stays when reading the page throws or gives
      no verdict. */
  function VerdictAfterCheck(hasIframe: bool, loadedSeen: bool, page: Option<Page>, before: bool): (v: bool)
    ensures !hasIframe || !loadedSeen ==> v == before
    ensures page.None? || OptimizationVerdict(page.value).None? ==> v == before
    ensures hasIframe && loadedSeen && page.Some? && OptimizationVerdict(page.value).Some? ==>
      v == OptimizationVerdict(page.value).value
  {
    if hasIframe && loadedSeen && page.Some? && OptimizationVerdict(page.value).Some? then
      OptimizationVerdict(page.value).value
    else before
  }

  /** As written, the check that handleIframeLoad schedules is the one of
      the render before the load, which sees `iframeLoaded` false: even an
      optimised page is not judged so after a load, while a check that sees
      the iframe loaded would judge it so. */
  lemma LoadCheckSeesNotLoaded(p: Page)
    requires OptimizationVerdict(p) == Some(true)
    ensures !VerdictAfterCheck(true, false, Some(p), false)
    ensures VerdictAfterCheck(true, true, Some(p), false)
  {
  }

  class Preview {
    var selectedDevice: Device
    var customSize: Size
    var isCustom: bool
    var orientation: Orientation
    var isAlreadyOptimized: bool
    var isCheckingOptimization: bool
    var iframeLoaded: bool
    var iframeError: bool

    /** A failed load also counts as loaded, and no check is left running
        between events. */
    ghost predicate Valid()
      reads this
    {
      (iframeError ==> iframeLoaded) && !isCheckingOptimization
    }

    /** The size the iframe is given in the current state. */
    function Dimensions(): Size
      reads this
    {
      IframeDimensions(selectedDevice, customSize, isCustom, orientation)
    }

    constructor()
      ensures Valid()
      ensures selectedDevice == Presets[2] && customSize == Size(425, 812)
      ensures !isCustom && orientation == Portrait
      ensures !isAlreadyOptimized && !iframeLoaded && !iframeError
      ensures Dimensions() == Size(425, 812)
    {
      selectedDevice := Presets[2];
      customSize := Size(425, 812);
      isCustom := false;
      orientation := Portrait;
      isAlreadyOptimized := false;
      isCheckingOptimization := false;
      iframeLoaded := false;
      iframeError := false;
    }

    /** handleDeviceChange: the device is shown upright, and the verdict and
        the error flag are cleared. The check its timer schedules is a call
        of CheckMobileOptimization of its own, seeing the `iframeLoaded` of
        the moment of the change. */
    method HandleDeviceChange(device: Device)
      modifies this
      requires Valid()
      ensures Valid()
      ensures selectedDevice == device && !isCustom && orientation == Portrait
      ensures !isAlreadyOptimized && !iframeError
      ensures customSize == old(customSize) && iframeLoaded == old(iframeLoaded)
      ensures Dimensions() == SizeOf(device)
    {
      selectedDevice := device;
      isCustom := false;
      orientation := Portrait;
      isAlreadyOptimized := false;
      iframeError := false;
    }

    /** handleCustomWidthChange: `parseInt(value) || customSize.width`. Only
        the width changes, and custom mode is switched on. */
    method HandleCustomWidthChange(value: string)
      modifies this
      requires Valid()
      ensures Valid()
      ensures customSize.height == old(customSize.height)
      ensures customSize.width == ParseIntOr(value, true, old(customSize.width))
      ensures isCustom
      ensures selectedDevice == old(selectedDevice) && orientation == old(orientation)
      ensures isAlreadyOptimized == old(isAlreadyOptimized)
      ensures iframeLoaded == old(iframeLoaded) && iframeError == old(iframeError)
    {
      var width := ParseIntOr(value, true, customSize.width);
      customSize := Size(width, customSize.height);
      isCustom := true;
    }

    /** handleCustomHeightChange, the same for the height. */
    method HandleCustomHeightChange(value: string)
      modifies this
      requires Valid()
      ensures Valid()
      ensures customSize.width == old(customSize.width)
      ensures customSize.height == ParseIntOr(value, true, old(customSize.height))
      ensures isCustom
      ensures selectedDevice == old(selectedDevice) && orientation == old(orientation)
      ensures isAlreadyOptimized == old(isAlreadyOptimized)
      ensures iframeLoaded == old(iframeLoaded) && iframeError == old(iframeError)
    {
      var height := ParseIntOr(value, true, customSize.height);
      customSize := Size(customSize.width, height);
      isCustom := true;
    }

    /** The "Custom" button. */
    method SelectCustom()
      modifies this
      requires Valid()
      ensures Valid()
      ensures isCustom && Dimensions() == Oriented(customSize, orientation)
      ensures selectedDevice == old(selectedDevice) && customSize == old(customSize)
      ensures orientation == old(orientation) && isAlreadyOptimized == old(isAlreadyOptimized)
      ensures iframeLoaded == old(iframeLoaded) && iframeError == old(iframeError)
    {
      isCustom := true;
    }

    /** toggleOrientation: the other orientation, so the iframe's width and
        height are exchanged; the verdict and the error flag are cleared. */
    method ToggleOrientation()
      modifies this
      requires Valid()
      ensures Valid()
      ensures orientation == Flip(old(orientation))
      ensures Dimensions() == Size(old(Dimensions()).height, old(Dimensions()).width)
      ensures !isAlreadyOptimized && !iframeError
      ensures selectedDevice == old(selectedDevice) && customSize == old(customSize) && isCustom == old(isCustom)
      ensures iframeLoaded == old(iframeLoaded)
    {
      DimensionsAfterToggle(selectedDevice, customSize, isCustom, orientation);
      orientation := if orientation == Portrait then Landscape else Portrait;
      isAlreadyOptimized := false;
      iframeError := false;
    }

    /** checkMobileOptimization. The function is a closure over the render
        it was made in, so `loadedSeen` is the `iframeLoaded` of that render,
        which the caller passes. Nothing happens without an iframe or when
        it sees the iframe as not loaded. `page` is what the iframe's
        document shows, None when reading it throws; a throw leaves the
        verdict as it was. */
    method CheckMobileOptimization(hasIframe: bool, loadedSeen: bool, page: Option<Page>)
      modifies this
      requires Valid()
      ensures Valid()
      ensures isAlreadyOptimized == VerdictAfterCheck(hasIframe, loadedSeen, page, old(isAlreadyOptimized))
      ensures selectedDevice == old(selectedDevice) && customSize == old(customSize)
      ensures isCustom == old(isCustom) && orientation == old(orientation)
      ensures iframeLoaded == old(iframeLoaded) && iframeError == old(iframeError)
    {
      if !hasIframe || !loadedSeen {
        return;
      }
      isCheckingOptimization := true;
      if page.Some? {
        var verdict := OptimizationVerdict(page.value);
        if verdict.Some? {
          isAlreadyOptimized := verdict.value;
        }
      }
      isCheckingOptimization := false;
    }

    /** handleIframeLoad: loaded, without error, and then (once its timer
        has fired) the check it scheduled. That check is the
        checkMobileOptimization of the render the load event fired in, so it
        sees `iframeLoaded` as it was before the load. `page` is what the
        iframe shows when the check runs. */
    method HandleIframeLoad(hasIframe: bool, page: Option<Page>)
      modifies this
      requires Valid()
      ensures Valid()
      ensures iframeLoaded && !iframeError
      ensures isAlreadyOptimized == VerdictAfterCheck(hasIframe, old(iframeLoaded), page, old(isAlreadyOptimized))
      ensures !old(iframeLoaded) ==> isAlreadyOptimized == old(isAlreadyOptimized)
      ensures selectedDevice == old(selectedDevice) && customSize == old(customSize)
      ensures isCustom == old(isCustom) && orientation == old(orientation)
    {
      var loadedSeen := iframeLoaded;
      iframeLoaded := true;
      iframeError := false;
      CheckMobileOptimization(hasIframe, loadedSeen, page);
    }

    /** handleIframeLoad as intended: the delayed check sees the iframe
        loaded, so the loaded page is judged. */
    method HandleIframeLoadIntended(hasIframe: bool, page: Option<Page>)
      modifies this
      requires Valid()
      ensures Valid()
      ensures iframeLoaded && !iframeError
      ensures isAlreadyOptimized == VerdictAfterCheck(hasIframe, true, page, old(isAlreadyOptimized))
      ensures hasIframe && page.Some? && OptimizationVerdict(page.value).Some? ==>
        isAlreadyOptimized == OptimizationVerdict(page.value).value
      ensures selectedDevice == old(selectedDevice) && customSize == old(customSize)
      ensures isCustom == old(isCustom) && orientation == old(orientation)
    {
      iframeLoaded := true;
      iframeError := false;
      CheckMobileOptimization(hasIframe, iframeLoaded, page);
    }

    /** handleIframeError: failed, and loaded so that the loading indicator
        goes away. */
    method HandleIframeError()
      modifies this
      requires Valid()
      ensures Valid()
      ensures iframeError && iframeLoaded
      ensures selectedDevice == old(selectedDevice) && customSize == old(customSize)
      ensures isCustom == old(isCustom) && orientation == old(orientation)
      ensures isAlreadyOptimized == old(isAlreadyOptimized)
    {
      iframeError := true;
      iframeLoaded := true;
    }

    /** reloadIframe: without an iframe nothing changes; otherwise loading
        starts again, without error. */
    method ReloadIframe(hasIframe: bool)
      modifies this
      requires Valid()
      ensures Valid()
      ensures hasIframe ==> !iframeLoaded && !iframeError
      ensures !hasIframe ==> iframeLoaded == old(iframeLoaded) && iframeError == old(iframeError)
      ensures selectedDevice == old(selectedDevice) && customSize == old(customSize)
      ensures isCustom == old(isCustom) && orientation == old(orientation)
      ensures isAlreadyOptimized == old(isAlreadyOptimized)
    {
      if !hasIframe {
        return;
      }
      iframeLoaded := false;
      iframeError := false;
    }
  }
}
