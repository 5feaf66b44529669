/**
 * The depth buffer (src/engine/renderer/context/depth.rs): one D32_SFLOAT
 * image allocated through `Resources`, which then owns it, and one depth view
 * of it.
 */
module Depth {
  import opened Vk
  import opened Gpu
  import Resources

  const DEPTH_FORMAT: Format := D32Sfloat

  /** The image of `DepthBuffer::new`: a single-sampled, optimally tiled 2D depth attachment of one level and one layer. */
  function DepthImageInfo(extent: Extent3D): ImageCreateInfo {
    ImageCreateInfo(DEPTH_FORMAT, {DepthStencilAttachmentUsage}, extent, 1, OptimalTiling, 1, 1, Image2D)
  }

  /** Device-local memory, chosen automatically. */
  const DEPTH_ALLOCATION: AllocationCreateInfo := AllocationCreateInfo(AutoUsage, {}, {DeviceLocal})

  /** The depth view: the whole image, depth aspect. */
  function DepthViewInfo(image: Handle): ImageViewCreateInfo {
    ImageViewCreateInfo(image, View2D, DEPTH_FORMAT, SubresourceRange({DepthAspect}, 1, 1))
  }

  datatype DepthBuffer = DepthBuffer(image: Handle, imageView: Handle)

  /** The driver calls of a successful `DepthBuffer::new`; the allocation follows its image. */
  function DepthEvents(extent: Extent3D, d: DepthBuffer): seq<Event> {
    [Event.CreateImage(d.image, d.image + 1, DepthImageInfo(extent), DEPTH_ALLOCATION),
     Event.CreateImageView(d.imageView, DepthViewInfo(d.image))]
  }

  /**
   * `DepthBuffer::new`: allocate the image through the resources, then create
   * its view.  A failed view creation is returned with `?` after the image is
   * already registered, so the resources still release it at teardown.
   */
  method New(driver: Driver, resources: Resources.Resources, extent: Extent3D, fault: Option<Fault>)
    returns (r: Outcome<DepthBuffer>)
    requires resources.Valid(driver)
    modifies resources, driver`log, driver`memory, driver`next
    ensures resources.Valid(driver)
    ensures !r.Panic?
    ensures r.Err? <==> fault == Some(DepthImageFails) || fault == Some(DepthViewFails)
    ensures fault == Some(DepthImageFails) ==>
              resources.images == old(resources.images) && driver.log == old(driver.log) && driver.memory == old(driver.memory)
    ensures fault != Some(DepthImageFails) ==>
              && resources.images == old(resources.images) + [Resources.Image(old(driver.next), old(driver.next) + 1)]
              && driver.memory == old(driver.memory)[old(driver.next) + 1 := []]
    ensures fault == Some(DepthViewFails) ==>
              driver.log == old(driver.log) + [Event.CreateImage(old(driver.next), old(driver.next) + 1, DepthImageInfo(extent), DEPTH_ALLOCATION)]
    ensures r.Ok? ==>
              && r.value.image == old(driver.next)
              && r.value.imageView == old(driver.next) + 2
              && driver.log == old(driver.log) + DepthEvents(extent, r.value)
  {
    var image := resources.AllocateDepthImage(driver, DepthImageInfo(extent), DEPTH_ALLOCATION, fault);
    if image.Err? {
      return Err;
    }
    if fault == Some(DepthViewFails) {
      return Err;
    }
    var view := driver.Fresh();
    driver.Record(Event.CreateImageView(view, DepthViewInfo(image.value)));
    r := Ok(DepthBuffer(image.value, view));
  }
}
