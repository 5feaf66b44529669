/**
 * Swapchain negotiation and creation of the renderer
 * (src/engine/renderer/context/swapchain.rs): the image-count clamp, the
 * extent choice, the create-info, and one image view per swapchain image.
 */
module Swapchain {
  import opened Vk
  import opened Gpu
  import opened DeviceSelection

  /**
   * The image count asked for: one more than the surface minimum, lowered to
   * the surface maximum when it exceeds it.  A maximum of 0 (Vulkan's "no
   * limit") is not treated specially, so it lowers the count to 0; a minimum
   * of u32::MAX wraps `min + 1` round to 0, which the `> 0` guard then keeps.
   */
  function MinImageCount(caps: SurfaceCapabilities): (n: u32)
    ensures caps.minImageCount < U32_MAX ==>
              n <= caps.minImageCount + 1 && n <= caps.maxImageCount &&
              (n == caps.minImageCount + 1 || n == caps.maxImageCount)
    ensures caps.minImageCount < caps.maxImageCount ==> n == caps.minImageCount + 1
    ensures caps.maxImageCount == 0 ==> n == 0
    ensures caps.minImageCount == U32_MAX ==> n == 0
  {
    if caps.minImageCount == U32_MAX then 0
    else if caps.maxImageCount < caps.minImageCount + 1 then caps.maxImageCount
    else caps.minImageCount + 1
  }

  /** Equal bounds give the minimum itself, not one more than it. */
  lemma EqualBoundsGiveMinimum(caps: SurfaceCapabilities)
    requires 0 < caps.minImageCount == caps.maxImageCount < U32_MAX
    ensures MinImageCount(caps) == caps.minImageCount
  {
  }

  /** `choose_min_image_count`, with the release-build wrap of the u32 addition. */
  method ChooseMinImageCount(caps: SurfaceCapabilities) returns (minImageCount: u32)
    ensures minImageCount == MinImageCount(caps)
  {
    var maxImageCount := caps.maxImageCount;
    minImageCount := WrappingAdd(caps.minImageCount, 1);
    if minImageCount > 0 && minImageCount > maxImageCount {
      minImageCount := maxImageCount;
    }
  }

  const SENTINEL_EXTENT: Extent2D := Extent2D(U32_MAX, U32_MAX)

  /**
   * `choose_extent`: the window size when the surface reports the sentinel
   * (u32::MAX, u32::MAX), the surface's current extent otherwise.
   */
  function ChooseExtent(caps: SurfaceCapabilities, window: Extent2D): (e: Extent2D)
    ensures e == window || e == caps.currentExtent
    ensures e == window <== caps.currentExtent == SENTINEL_EXTENT
    ensures e == caps.currentExtent <== caps.currentExtent != SENTINEL_EXTENT
  {
    match caps.currentExtent {
      case Extent2D(w, h) =>
        if w == U32_MAX && h == U32_MAX then Extent2D(window.width, window.height) else caps.currentExtent
    }
  }

  /** Only one side at u32::MAX is not the sentinel: the surface's extent is kept as it is. */
  lemma OneSidedSentinelKeptAsIs(caps: SurfaceCapabilities, window: Extent2D)
    requires (caps.currentExtent.width == U32_MAX) != (caps.currentExtent.height == U32_MAX)
    ensures ChooseExtent(caps, window) == caps.currentExtent
    ensures ChooseExtent(caps, window).width == U32_MAX || ChooseExtent(caps, window).height == U32_MAX
  {
  }

  // ---------------------------------------------------------------------------
  // Image views

  /** A 2D view of one swapchain image: one mip level, one layer. */
  function ViewInfo(image: Handle, format: Format, aspects: set<ImageAspect>): ImageViewCreateInfo {
    ImageViewCreateInfo(image, View2D, format, SubresourceRange(aspects, 1, 1))
  }

  /** The `create_image_view` calls for `images`, view i made from image i. */
  function ViewEvents(images: seq<Handle>, views: seq<Handle>, format: Format, aspects: set<ImageAspect>): (es: seq<Event>)
    requires |images| == |views|
    ensures |es| == |images|
  {
    seq(|images|, i requires 0 <= i < |images| => Event.CreateImageView(views[i], ViewInfo(images[i], format, aspects)))
  }

  lemma ViewEventsAt(images: seq<Handle>, views: seq<Handle>, format: Format, aspects: set<ImageAspect>, i: nat)
    requires |images| == |views| && i < |images|
    ensures ViewEvents(images, views, format, aspects)[i] ==
            Event.CreateImageView(views[i], ImageViewCreateInfo(images[i], View2D, format, SubresourceRange(aspects, 1, 1)))
  {
  }

  lemma ViewEventsAfter(before: seq<Event>, images: seq<Handle>, views: seq<Handle>, format: Format, aspects: set<ImageAspect>)
    requires |images| == |views|
    ensures forall i :: 0 <= i < |images| ==>
              (before + ViewEvents(images, views, format, aspects))[|before| + i] ==
              Event.CreateImageView(views[i], ImageViewCreateInfo(images[i], View2D, format, SubresourceRange(aspects, 1, 1)))
  {
    forall i | 0 <= i < |images|
      ensures (before + ViewEvents(images, views, format, aspects))[|before| + i] ==
              Event.CreateImageView(views[i], ImageViewCreateInfo(images[i], View2D, format, SubresourceRange(aspects, 1, 1)))
    {
      ViewEventsAt(images, views, format, aspects, i);
    }
  }

  lemma ViewEventsSnoc(images: seq<Handle>, views: seq<Handle>, image: Handle, view: Handle, format: Format, aspects: set<ImageAspect>)
    requires |images| == |views|
    ensures ViewEvents(images + [image], views + [view], format, aspects) ==
            ViewEvents(images, views, format, aspects) + [Event.CreateImageView(view, ViewInfo(image, format, aspects))]
  {
    var e := Event.CreateImageView(view, ViewInfo(image, format, aspects));
    var lhs := ViewEvents(images + [image], views + [view], format, aspects);
    var rhs := ViewEvents(images, views, format, aspects) + [e];
    assert |lhs| == |rhs|;
    forall i | 0 <= i < |lhs| ensures lhs[i] == rhs[i] {
      if i < |images| {
        assert (images + [image])[i] == images[i] && (views + [view])[i] == views[i];
      }
    }
  }

  /** One more round of the view loop: the log and the handle list each grow by the new view. */
  lemma ViewStep(l0: seq<Event>, images: seq<Handle>, i: nat, next0: nat, format: Format, aspects: set<ImageAspect>)
    requires i < |images|
    ensures Range(next0, i) + [next0 + i] == Range(next0, i + 1)
    ensures l0 + ViewEvents(images[..i], Range(next0, i), format, aspects) +
              [Event.CreateImageView(next0 + i, ViewInfo(images[i], format, aspects))] ==
            l0 + ViewEvents(images[..i + 1], Range(next0, i + 1), format, aspects)
  {
    PrefixSnoc(images, i);
    RangeSnoc(next0, i);
    ViewEventsSnoc(images[..i], Range(next0, i), images[i], next0 + i, format, aspects);
    AppendAssoc(l0, ViewEvents(images[..i], Range(next0, i), format, aspects),
                [Event.CreateImageView(next0 + i, ViewInfo(images[i], format, aspects))]);
  }

  /** The fault is the failure of view `k` for some `k < n`. */
  predicate ViewFailsBefore(fault: Option<Fault>, n: nat) {
    fault.Some? && fault.value.SwapchainViewFails? && fault.value.index < n
  }

  /**
   * The map/collect of `create_images`: one view per image, in image order,
   * each made from the image at the same index.  A failing view creation is
   * an `unwrap` panic that stops the map there.
   */
  method CreateImageViews(driver: Driver, images: seq<Handle>, format: Format, aspects: set<ImageAspect>, fault: Option<Fault>)
    returns (r: Outcome<seq<Handle>>)
    requires driver.Valid()
    modifies driver`log, driver`next
    ensures driver.Valid()
    ensures !r.Err?
    ensures r.Panic? <==> ViewFailsBefore(fault, |images|)
    ensures r.Ok? ==> r.value == Range(old(driver.next), |images|) &&
                      driver.log == old(driver.log) + ViewEvents(images, r.value, format, aspects)
    ensures r.Panic? ==> var k := fault.value.index;
                         driver.log == old(driver.log) + ViewEvents(images[..k], Range(old(driver.next), k), format, aspects)
  {
    var views: seq<Handle> := [];
    var i := 0;
    while i < |images|
      invariant 0 <= i <= |images|
      invariant driver.Valid()
      invariant views == Range(old(driver.next), i) && driver.next == old(driver.next) + i
      invariant driver.log == old(driver.log) + ViewEvents(images[..i], views, format, aspects)
      invariant !ViewFailsBefore(fault, i)
    {
      if fault == Some(SwapchainViewFails(i)) {
        return Panic;
      }
      var view := driver.Fresh();
      driver.Record(Event.CreateImageView(view, ViewInfo(images[i], format, aspects)));
      ViewStep(old(driver.log), images, i, old(driver.next), format, aspects);
      views := views + [view];
      i := i + 1;
    }
    assert images[..i] == images;
    r := Ok(views);
  }

  // ---------------------------------------------------------------------------
  // SwapchainHandle::new

  datatype SwapchainHandle = SwapchainHandle(
    swapchain: Handle,
    images: seq<Handle>,
    imageViews: seq<Handle>,
    imageExtent: Extent2D)

  function SwapchainInfo(surface: Handle, device: DeviceHandle, minImageCount: u32, extent: Extent2D): SwapchainCreateInfo {
    SwapchainCreateInfo(
      surface, device.format.format, device.format.colorSpace, device.presentMode, minImageCount,
      1, {OpaqueAlpha}, {ColorAttachmentUsage}, Exclusive, extent, device.capabilities.currentTransform, true)
  }

  /** The driver calls of a successful `SwapchainHandle::new`. */
  function SwapchainEvents(surface: Handle, device: DeviceHandle, h: SwapchainHandle): seq<Event>
    requires |h.images| == |h.imageViews|
  {
    [Event.CreateSwapchain(h.swapchain, SwapchainInfo(surface, device, MinImageCount(device.capabilities), h.imageExtent)),
     Event.GetSwapchainImages(h.swapchain, h.images)] +
    ViewEvents(h.images, h.imageViews, device.format.format, {ColorAspect})
  }

  /**
   * The swapchain is created first, with the negotiated surface format,
   * present mode, image count and extent and the fixed settings of the
   * create-info; its images are fetched next; then come the views.
   */
  lemma CreateInfoFields(surface: Handle, device: DeviceHandle, h: SwapchainHandle)
    requires |h.images| == |h.imageViews|
    ensures var t := SwapchainEvents(surface, device, h);
            && |t| == 2 + |h.images|
            && t[0].CreateSwapchain? && t[0].swapchain == h.swapchain
            && t[1] == Event.GetSwapchainImages(h.swapchain, h.images)
            && var info := t[0].swapchainInfo;
               && info.surface == surface
               && info.imageFormat == device.format.format && info.imageColorSpace == device.format.colorSpace
               && info.presentMode == device.presentMode
               && info.minImageCount == MinImageCount(device.capabilities)
               && info.imageExtent == h.imageExtent
               && info.imageArrayLayers == 1 && info.compositeAlpha == {OpaqueAlpha}
               && info.imageUsage == {ColorAttachmentUsage} && info.sharingMode == Exclusive
               && info.preTransform == device.capabilities.currentTransform && info.clipped
  {
  }

  /** The `create_swapchain` call, as logged. */
  function CreateEvent(swapchain: Handle, surface: Handle, device: DeviceHandle, window: Extent2D): Event {
    Event.CreateSwapchain(swapchain, SwapchainInfo(surface, device, MinImageCount(device.capabilities), ChooseExtent(device.capabilities, window)))
  }

  /** `create_swapchain`: the create-info built from the negotiated values; a failure is returned with `?`. */
  method CreateSwapchain(driver: Driver, surface: Handle, device: DeviceHandle, minImageCount: u32, extent: Extent2D,
                         fault: Option<Fault>)
    returns (r: Outcome<Handle>)
    requires driver.Valid()
    modifies driver`log, driver`next
    ensures driver.Valid()
    ensures !r.Panic?
    ensures r.Err? <==> fault == Some(CreateSwapchainFails)
    ensures r.Err? ==> driver.log == old(driver.log)
    ensures r.Ok? ==>
              && r.value == old(driver.next) && driver.next == old(driver.next) + 1
              && driver.log == old(driver.log) + [Event.CreateSwapchain(r.value, SwapchainInfo(surface, device, minImageCount, extent))]
  {
    if fault == Some(CreateSwapchainFails) {
      return Err;
    }
    var swapchain := driver.Fresh();
    driver.Record(Event.CreateSwapchain(swapchain, SwapchainInfo(surface, device, minImageCount, extent)));
    r := Ok(swapchain);
  }

  /**
   * `create_images`: the images the driver reports (a failure is returned
   * with `?`), then one COLOR view per image, where a failing view panics.
   */
  method CreateImages(driver: Driver, swapchain: Handle, imageCount: nat, format: Format, fault: Option<Fault>)
    returns (r: Outcome<(seq<Handle>, seq<Handle>)>)
    requires driver.Valid()
    modifies driver`log, driver`next
    ensures driver.Valid()
    ensures r.Err? <==> fault == Some(GetSwapchainImagesFails)
    ensures r.Panic? <==> fault != Some(GetSwapchainImagesFails) && ViewFailsBefore(fault, imageCount)
    ensures r.Err? ==> driver.log == old(driver.log)
    ensures r.Panic? ==>
              var k := fault.value.index;
              driver.log == old(driver.log) + ([Event.GetSwapchainImages(swapchain, Range(old(driver.next), imageCount))] +
                            ViewEvents(Range(old(driver.next), k), Range(old(driver.next) + imageCount, k), format, {ColorAspect}))
    ensures r.Ok? ==>
              var (images, views) := r.value;
              && images == Range(old(driver.next), imageCount)
              && views == Range(old(driver.next) + imageCount, imageCount)
              && driver.log == old(driver.log) + ([Event.GetSwapchainImages(swapchain, images)] +
                                                  ViewEvents(images, views, format, {ColorAspect}))
  {
    if fault == Some(GetSwapchainImagesFails) {
      return Err;
    }
    var images := driver.FreshRange(imageCount);
    driver.Record(Event.GetSwapchainImages(swapchain, images));
    ghost var viewsFrom := driver.next;
    var views := CreateImageViews(driver, images, format, {ColorAspect}, fault);
    if views.Panic? {
      var k := fault.value.index;
      RangePrefix(old(driver.next), imageCount, k);
      AppendAssoc(old(driver.log), [Event.GetSwapchainImages(swapchain, images)],
                  ViewEvents(images[..k], Range(viewsFrom, k), format, {ColorAspect}));
      return Panic;
    }
    AppendAssoc(old(driver.log), [Event.GetSwapchainImages(swapchain, images)], ViewEvents(images, views.value, format, {ColorAspect}));
    r := Ok((images, views.value));
  }

  /** The log of the two steps of `SwapchainHandle::new`, regrouped. */
  lemma StepsLog(l0: seq<Event>, created: Event, got: Event, views: seq<Event>)
    ensures l0 + [created] + ([got] + views) == l0 + ([created, got] + views)
  {
    assert [created] + ([got] + views) == [created, got] + views;
    AppendAssoc(l0, [created], [got] + views);
  }

  /**
   * The driver calls of a `SwapchainHandle::new` whose view `k` fails: the
   * swapchain, its images, and the views of the images before image `k`.
   */
  function PanicEvents(swapchain: Handle, surface: Handle, device: DeviceHandle, window: Extent2D, imageCount: nat, k: nat): seq<Event>
    requires k < imageCount
  {
    [CreateEvent(swapchain, surface, device, window), Event.GetSwapchainImages(swapchain, Range(swapchain + 1, imageCount))] +
    ViewEvents(Range(swapchain + 1, k), Range(swapchain + 1 + imageCount, k), device.format.format, {ColorAspect})
  }


  /**
   * `SwapchainHandle::new`.  The driver decides how many images the swapchain
   * has (`imageCount`).  On success the handle keeps the chosen extent, the
   * create-info carries the chosen image count, and there is one colour view
   * per image.
   */
  method New(driver: Driver, surface: Handle, device: DeviceHandle, window: Extent2D, imageCount: nat, fault: Option<Fault>)
    returns (r: Outcome<SwapchainHandle>)
    requires driver.Valid()
    modifies driver`log, driver`next
    ensures driver.Valid()
    ensures r.Err? <==> fault == Some(CreateSwapchainFails) || fault == Some(GetSwapchainImagesFails)
    ensures r.Panic? <==> ViewFailsBefore(fault, imageCount)
    ensures fault == Some(CreateSwapchainFails) ==> driver.log == old(driver.log)
    ensures fault == Some(GetSwapchainImagesFails) ==>
              driver.log == old(driver.log) + [CreateEvent(old(driver.next), surface, device, window)]
    ensures r.Panic? ==>
              driver.log == old(driver.log) + PanicEvents(old(driver.next), surface, device, window, imageCount, fault.value.index)
    ensures r.Ok? ==>
              var h := r.value;
              && h.imageExtent == ChooseExtent(device.capabilities, window)
              && h.swapchain == old(driver.next)
              && h.images == Range(old(driver.next) + 1, imageCount)
              && h.imageViews == Range(old(driver.next) + 1 + imageCount, imageCount)
              && driver.log == old(driver.log) + SwapchainEvents(surface, device, h)
  {
    var minImageCount := ChooseMinImageCount(device.capabilities);
    var imageExtent := ChooseExtent(device.capabilities, window);
    var swapchain := CreateSwapchain(driver, surface, device, minImageCount, imageExtent, fault);
    if swapchain.Err? {
      return Err;
    }
    var images := CreateImages(driver, swapchain.value, imageCount, device.format.format, fault);
    match images {
      case Err => return Err;
      case Panic =>
        var k := fault.value.index;
        StepsLog(old(driver.log), CreateEvent(swapchain.value, surface, device, window),
                 Event.GetSwapchainImages(swapchain.value, Range(swapchain.value + 1, imageCount)),
                 ViewEvents(Range(swapchain.value + 1, k), Range(swapchain.value + 1 + imageCount, k), device.format.format, {ColorAspect}));
        return Panic;
      case Ok((imgs, views)) =>
        StepsLog(old(driver.log), CreateEvent(swapchain.value, surface, device, window), Event.GetSwapchainImages(swapchain.value, imgs),
                 ViewEvents(imgs, views, device.format.format, {ColorAspect}));
        r := Ok(SwapchainHandle(swapchain.value, imgs, views, imageExtent));
    }
  }
}
