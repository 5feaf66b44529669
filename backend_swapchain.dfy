/**
 * The backend's copy of swapchain creation (src/engine/backend/context/swapchain.rs).
 * Its `choose_min_image_count` and `choose_extent` are the renderer's,
 * character for character, and are modelled by `Swapchain.ChooseMinImageCount`
 * and `Swapchain.ChooseExtent`.  It differs from the renderer in three places:
 * the create-info sets no composite alpha, the views leave the aspect mask
 * empty, and the handle does not keep the extent.
 */
module BackendSwapchain {
  import opened Vk
  import opened Gpu
  import opened DeviceSelection
  import Swapchain

  datatype SwapchainHandle = SwapchainHandle(swapchain: Handle, images: seq<Handle>, imageViews: seq<Handle>)

  function SwapchainInfo(surface: Handle, device: DeviceHandle, minImageCount: u32, extent: Extent2D): SwapchainCreateInfo {
    SwapchainCreateInfo(
      surface, device.format.format, device.format.colorSpace, device.presentMode, minImageCount,
      1, {}, {ColorAttachmentUsage}, Exclusive, extent, device.capabilities.currentTransform, true)
  }

  /** The `create_swapchain` call, as logged. */
  function CreateEvent(swapchain: Handle, surface: Handle, device: DeviceHandle, window: Extent2D): Event {
    Event.CreateSwapchain(swapchain, SwapchainInfo(surface, device, Swapchain.MinImageCount(device.capabilities),
                                                   Swapchain.ChooseExtent(device.capabilities, window)))
  }

  /**
   * `create_images`: one view per image, in image order, with the aspect mask
   * left at its default (no aspect); `unwrap_or_log` turns a failed view into
   * a panic.
   */
  method CreateImages(driver: Driver, swapchain: Handle, imageCount: nat, format: Format, fault: Option<Fault>)
    returns (r: Outcome<(seq<Handle>, seq<Handle>)>)
    requires driver.Valid()
    modifies driver`log, driver`next
    ensures driver.Valid()
    ensures r.Err? <==> fault == Some(GetSwapchainImagesFails)
    ensures r.Panic? <==> fault != Some(GetSwapchainImagesFails) &&
                          Swapchain.ViewFailsBefore(fault, imageCount)
    ensures r.Err? ==> driver.log == old(driver.log)
    ensures r.Panic? ==>
              var k := fault.value.index;
              var images := Range(old(driver.next), imageCount);
              driver.log == old(driver.log) + [Event.GetSwapchainImages(swapchain, images)] +
                            Swapchain.ViewEvents(images[..k], Range(old(driver.next) + imageCount, k), format, {})
    ensures r.Ok? ==>
              var (images, views) := r.value;
              && |images| == imageCount && |views| == imageCount
              && driver.log == old(driver.log) + [Event.GetSwapchainImages(swapchain, images)] +
                                                 Swapchain.ViewEvents(images, views, format, {})
  {
    if fault == Some(GetSwapchainImagesFails) {
      return Err;
    }
    var images := driver.FreshRange(imageCount);
    driver.Record(Event.GetSwapchainImages(swapchain, images));
    ghost var before := driver.log;
    var views := Swapchain.CreateImageViews(driver, images, format, {}, fault);
    if views.Panic? {
      return Panic;
    }
    r := Ok((images, views.value));
  }

  /**
   * `SwapchainHandle::new` of the backend: the same image count and extent as
   * the renderer's, no composite alpha, and the extent is not kept.
   */
  method New(driver: Driver, surface: Handle, device: DeviceHandle, window: Extent2D, imageCount: nat, fault: Option<Fault>)
    returns (r: Outcome<SwapchainHandle>)
    requires driver.Valid()
    modifies driver`log, driver`next
    ensures driver.Valid()
    ensures r.Err? <==> fault == Some(CreateSwapchainFails) || fault == Some(GetSwapchainImagesFails)
    ensures r.Panic? <==> Swapchain.ViewFailsBefore(fault, imageCount)
    ensures fault == Some(CreateSwapchainFails) ==> driver.log == old(driver.log)
    ensures fault == Some(GetSwapchainImagesFails) ==>
              driver.log == old(driver.log) + [CreateEvent(old(driver.next), surface, device, window)]
    ensures r.Panic? ==>
              var k := fault.value.index;
              var images := Range(old(driver.next) + 1, imageCount);
              driver.log == old(driver.log) + [CreateEvent(old(driver.next), surface, device, window),
                                               Event.GetSwapchainImages(old(driver.next), images)] +
                            Swapchain.ViewEvents(images[..k], Range(old(driver.next) + 1 + imageCount, k), device.format.format, {})
    ensures r.Ok? ==>
              var h := r.value;
              var n := |old(driver.log)|;
              && |h.images| == imageCount && |h.imageViews| == imageCount
              && |driver.log| == n + 2 + imageCount
              && driver.log[n].CreateSwapchain? && driver.log[n].swapchain == h.swapchain
              && driver.log[n + 1..] == [Event.GetSwapchainImages(h.swapchain, h.images)] +
                                        Swapchain.ViewEvents(h.images, h.imageViews, device.format.format, {})
              && var info := driver.log[n].swapchainInfo;
                 && info.surface == surface
                 && info.imageFormat == device.format.format && info.imageColorSpace == device.format.colorSpace
                 && info.presentMode == device.presentMode
                 && info.minImageCount == Swapchain.MinImageCount(device.capabilities)
                 && info.imageExtent == Swapchain.ChooseExtent(device.capabilities, window)
                 && info.imageArrayLayers == 1 && info.compositeAlpha == {}
                 && info.imageUsage == {ColorAttachmentUsage} && info.sharingMode == Exclusive
                 && info.preTransform == device.capabilities.currentTransform && info.clipped
  {
    var minImageCount := Swapchain.ChooseMinImageCount(device.capabilities);
    var imageExtent := Swapchain.ChooseExtent(device.capabilities, window);
    if fault == Some(CreateSwapchainFails) {
      return Err;
    }
    var swapchain := driver.Fresh();
    driver.Record(Event.CreateSwapchain(swapchain, SwapchainInfo(surface, device, minImageCount, imageExtent)));
    ghost var before := driver.log;
    assert before == old(driver.log) + [CreateEvent(swapchain, surface, device, window)];
    var images := CreateImages(driver, swapchain, imageCount, device.format.format, fault);
    match images {
      case Err => return Err;
      case Panic => return Panic;
      case Ok((imgs, views)) =>
        assert driver.log[|before|..] == [Event.GetSwapchainImages(swapchain, imgs)] +
                                         Swapchain.ViewEvents(imgs, views, device.format.format, {});
        r := Ok(SwapchainHandle(swapchain, imgs, views));
    }
  }
}
