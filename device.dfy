/**
 * Physical-device selection and logical-device setup of `DeviceHandle::new`
 * (src/engine/backend/context/device.rs).  The capability queries the source
 * makes per physical device are the fields of a `PhysicalDevice` record; the
 * selection is then the source's iterator chain: a `filter_map` that keeps a
 * device only when it has a drawing queue family and an sRGB surface format,
 * followed by `max_by_key` over the device-type score.
 */
module DeviceSelection {
  import opened Vk
  import opened Gpu

  /** One queue family: its GRAPHICS flag and whether it can present to the surface. */
  datatype QueueFamily = QueueFamily(graphics: bool, presentSupport: bool)

  /** What the instance and the surface loader report about one physical device. */
  datatype PhysicalDevice = PhysicalDevice(
    handle: Handle,
    deviceType: PhysicalDeviceType,
    queueFamilies: seq<QueueFamily>,
    formats: seq<SurfaceFormat>,
    presentModes: seq<PresentMode>,
    extensions: seq<string>,
    capabilities: SurfaceCapabilities)

  /** The tuple the `filter_map` closure yields for a device it keeps. */
  datatype Candidate = Candidate(
    device: Handle,
    deviceType: PhysicalDeviceType,
    queueFamilyIndex: nat,
    format: SurfaceFormat,
    presentMode: PresentMode,
    capabilities: SurfaceCapabilities)

  /** `NoCompatibleDevice` is the `panic!` of the `unwrap_or_else`. */
  datatype Selection = Selected(candidate: Candidate) | NoCompatibleDevice

  predicate CanDraw(q: QueueFamily) {
    q.graphics && q.presentSupport
  }

  predicate IsSrgb(f: SurfaceFormat) {
    (f.format == R8G8B8A8Srgb || f.format == B8G8R8A8Srgb) && f.colorSpace == SrgbNonlinear
  }

  /** `position` of the first family with GRAPHICS that can present. */
  function FindQueueFamily(families: seq<QueueFamily>): (r: Option<nat>)
    ensures r.Some? ==> r.value < |families| && CanDraw(families[r.value])
    ensures r.Some? ==> forall j :: 0 <= j < r.value ==> !CanDraw(families[j])
    ensures r.None? <==> forall j :: 0 <= j < |families| ==> !CanDraw(families[j])
  {
    if families == [] then None
    else if CanDraw(families[0]) then Some(0)
    else match FindQueueFamily(families[1..]) {
      case None => None
      case Some(i) => Some(i + 1)
    }
  }

  /** `find` of the first sRGB format with the non-linear sRGB colour space. */
  function FindSrgbFormat(formats: seq<SurfaceFormat>): (r: Option<SurfaceFormat>)
    ensures r.Some? ==> IsSrgb(r.value)
    ensures r.Some? ==> exists i :: 0 <= i < |formats| && formats[i] == r.value &&
                                    forall j :: 0 <= j < i ==> !IsSrgb(formats[j])
    ensures r.None? <==> forall j :: 0 <= j < |formats| ==> !IsSrgb(formats[j])
  {
    if formats == [] then None
    else if IsSrgb(formats[0]) then Some(formats[0])
    else
      var r := FindSrgbFormat(formats[1..]);
      assert r.Some? ==> forall j :: 1 <= j < |formats| ==> formats[j] == formats[1..][j - 1];
      r
  }

  /** MAILBOX when listed, FIFO (always available) otherwise. */
  function ChoosePresentMode(modes: seq<PresentMode>): (r: PresentMode)
    ensures r == Mailbox || r == Fifo
    ensures r == Mailbox <==> Mailbox in modes
  {
    if Mailbox in modes then Mailbox else Fifo
  }

  /** The `max_by_key` key. */
  function Score(t: PhysicalDeviceType): (s: nat)
    ensures s <= 3
  {
    match t
    case DiscreteGpu => 3
    case IntegratedGpu => 2
    case _ => 0
  }

  /** The `filter_map` closure over one physical device. */
  function Candidacy(d: PhysicalDevice): (r: Option<Candidate>)
    ensures r.Some? <==> (exists i :: 0 <= i < |d.queueFamilies| && CanDraw(d.queueFamilies[i])) &&
                         (exists i :: 0 <= i < |d.formats| && IsSrgb(d.formats[i]))
    ensures r.Some? ==> r.value.device == d.handle && r.value.deviceType == d.deviceType
    ensures r.Some? ==> r.value.queueFamilyIndex < |d.queueFamilies| && CanDraw(d.queueFamilies[r.value.queueFamilyIndex])
    ensures r.Some? ==> r.value.format in d.formats && IsSrgb(r.value.format)
    ensures r.Some? ==> r.value.presentMode == (if Mailbox in d.presentModes then Mailbox else Fifo)
    ensures r.Some? ==> r.value.capabilities == d.capabilities
  {
    match FindQueueFamily(d.queueFamilies) {
      case None => None
      case Some(q) =>
        match FindSrgbFormat(d.formats) {
          case None => None
          case Some(f) => Some(Candidate(d.handle, d.deviceType, q, f, ChoosePresentMode(d.presentModes), d.capabilities))
        }
    }
  }

  /** The devices the `filter_map` keeps, in enumeration order. */
  function Candidates(devices: seq<PhysicalDevice>): (cs: seq<Candidate>)
    ensures |cs| <= |devices|
  {
    if devices == [] then []
    else
      match Candidacy(devices[0]) {
        case None => Candidates(devices[1..])
        case Some(c) => [c] + Candidates(devices[1..])
      }
  }

  /** Every kept tuple comes from some enumerated device. */
  lemma {:induction false} CandidatesSound(devices: seq<PhysicalDevice>, c: Candidate)
    requires c in Candidates(devices)
    ensures exists i :: 0 <= i < |devices| && Candidacy(devices[i]) == Some(c)
  {
    if Candidacy(devices[0]) != Some(c) {
      CandidatesSound(devices[1..], c);
      var i :| 0 <= i < |devices[1..]| && Candidacy(devices[1..][i]) == Some(c);
      assert devices[1..][i] == devices[i + 1];
    }
  }

  /** Every device that qualifies is kept. */
  lemma {:induction false} CandidatesComplete(devices: seq<PhysicalDevice>, i: nat)
    requires i < |devices| && Candidacy(devices[i]).Some?
    ensures Candidacy(devices[i]).value in Candidates(devices)
  {
    if i > 0 {
      CandidatesComplete(devices[1..], i - 1);
      assert devices[1..][i - 1] == devices[i];
    }
  }

  /**
   * `Iterator::max_by_key`: a left fold that replaces the current best by every
   * element whose key is at least as large, so the LAST of equal maxima wins.
   */
  function MaxByKey(cs: seq<Candidate>): (r: Option<nat>)
    ensures r.None? <==> cs == []
    ensures r.Some? ==> r.value < |cs|
    ensures r.Some? ==> forall j :: 0 <= j < |cs| ==> Score(cs[j].deviceType) <= Score(cs[r.value].deviceType)
    ensures r.Some? ==> forall j :: r.value < j < |cs| ==> Score(cs[j].deviceType) < Score(cs[r.value].deviceType)
  {
    if cs == [] then None
    else
      var init := cs[..|cs| - 1];
      match MaxByKey(init) {
        case None => Some(0)
        case Some(k) =>
          assert forall j :: 0 <= j < |init| ==> init[j] == cs[j];
          if Score(cs[|cs| - 1].deviceType) >= Score(cs[k].deviceType) then Some(|cs| - 1) else Some(k)
      }
  }

  /** The selection of `DeviceHandle::new`; no candidate is a panic, not an error value. */
  function SelectDevice(devices: seq<PhysicalDevice>): (r: Selection)
    ensures r.NoCompatibleDevice? <==> Candidates(devices) == []
    ensures r.Selected? ==> r.candidate in Candidates(devices)
  {
    var cs := Candidates(devices);
    match MaxByKey(cs) {
      case None => NoCompatibleDevice
      case Some(k) => Selected(cs[k])
    }
  }

  /**
   * What the selection promises in terms of the enumerated devices: a panic
   * exactly when no device qualifies; otherwise a qualifying device whose
   * score is at least that of every qualifying device.
   */
  lemma SelectDeviceSpec(devices: seq<PhysicalDevice>)
    ensures SelectDevice(devices).NoCompatibleDevice? <==> forall i :: 0 <= i < |devices| ==> Candidacy(devices[i]).None?
    ensures SelectDevice(devices).Selected? ==>
              exists i :: 0 <= i < |devices| && Candidacy(devices[i]) == Some(SelectDevice(devices).candidate)
    ensures SelectDevice(devices).Selected? ==>
              forall i :: 0 <= i < |devices| && Candidacy(devices[i]).Some? ==>
                Score(devices[i].deviceType) <= Score(SelectDevice(devices).candidate.deviceType)
  {
    var cs := Candidates(devices);
    match MaxByKey(cs) {
      case None =>
        forall i | 0 <= i < |devices| && Candidacy(devices[i]).Some? ensures false {
          CandidatesComplete(devices, i);
        }
      case Some(k) =>
        CandidatesSound(devices, cs[k]);
        forall i | 0 <= i < |devices| && Candidacy(devices[i]).Some?
          ensures Score(devices[i].deviceType) <= Score(cs[k].deviceType)
        {
          CandidatesComplete(devices, i);
          var j :| 0 <= j < |cs| && cs[j] == Candidacy(devices[i]).value;
        }
    }
  }

  lemma {:induction false} CandidatesAppend(devices: seq<PhysicalDevice>, d: PhysicalDevice)
    ensures Candidates(devices + [d]) ==
            Candidates(devices) + (if Candidacy(d).Some? then [Candidacy(d).value] else [])
  {
    var ds := devices + [d];
    if devices == [] {
      assert ds == [d] && ds[1..] == [];
    } else {
      assert ds[0] == devices[0];
      assert ds[1..] == devices[1..] + [d];
      CandidatesAppend(devices[1..], d);
    }
  }

  /**
   * Ties go to the device enumerated last: a candidate appended after the
   * others whose score is at least theirs is the one selected.
   */
  lemma LaterCandidateWinsTies(devices: seq<PhysicalDevice>, d: PhysicalDevice)
    requires Candidacy(d).Some?
    requires forall i :: 0 <= i < |devices| && Candidacy(devices[i]).Some? ==>
               Score(devices[i].deviceType) <= Score(d.deviceType)
    ensures SelectDevice(devices + [d]) == Selected(Candidacy(d).value)
  {
    CandidatesAppend(devices, d);
    var cs := Candidates(devices + [d]);
    var init := Candidates(devices);
    assert cs[..|cs| - 1] == init;
    match MaxByKey(init) {
      case None =>
      case Some(k) =>
        CandidatesSound(devices, init[k]);
    }
  }

  /** Two discrete GPUs: the second one is chosen. */
  lemma TwoDiscreteGpusPickSecond(a: PhysicalDevice, b: PhysicalDevice)
    requires Candidacy(a).Some? && Candidacy(b).Some?
    requires a.deviceType == DiscreteGpu && b.deviceType == DiscreteGpu
    ensures SelectDevice([a, b]) == Selected(Candidacy(b).value)
  {
    LaterCandidateWinsTies([a], b);
    assert [a] + [b] == [a, b];
  }

  function WithExtensions(devices: seq<PhysicalDevice>, extensions: seq<seq<string>>): (r: seq<PhysicalDevice>)
    requires |extensions| == |devices|
    ensures |r| == |devices|
    ensures forall i :: 0 <= i < |devices| ==> r[i] == devices[i].(extensions := extensions[i])
  {
    seq(|devices|, i requires 0 <= i < |devices| => devices[i].(extensions := extensions[i]))
  }

  /**
   * Support for the swapchain extension is never consulted: replacing every
   * device's extension list leaves the selection unchanged.
   */
  lemma {:induction false} SelectionIgnoresExtensions(devices: seq<PhysicalDevice>, extensions: seq<seq<string>>)
    requires |extensions| == |devices|
    ensures SelectDevice(WithExtensions(devices, extensions)) == SelectDevice(devices)
  {
    CandidatesIgnoreExtensions(devices, extensions);
  }

  lemma {:induction false} CandidatesIgnoreExtensions(devices: seq<PhysicalDevice>, extensions: seq<seq<string>>)
    requires |extensions| == |devices|
    ensures Candidates(WithExtensions(devices, extensions)) == Candidates(devices)
  {
    if devices != [] {
      var w := WithExtensions(devices, extensions);
      assert w[1..] == WithExtensions(devices[1..], extensions[1..]);
      CandidatesIgnoreExtensions(devices[1..], extensions[1..]);
    }
  }

  const SWAPCHAIN_EXTENSION: string := "VK_KHR_swapchain"
  const VALIDATION_LAYER: string := "VK_LAYER_KHRONOS_validation"

  /**
   * The create-info of the logical device: the swapchain extension is the only
   * extension, one queue (priority list of length one) from the chosen family,
   * Vulkan 1.3 dynamic rendering and synchronization2 switched on; the
   * validation layer only with the `validation` feature.
   */
  function DeviceInfo(c: Candidate, validation: bool): DeviceCreateInfo
  {
    DeviceCreateInfo(
      [SWAPCHAIN_EXTENSION],
      if validation then [VALIDATION_LAYER] else [],
      [QueueCreateInfo(c.queueFamilyIndex, 1)],
      true, true)
  }

  /**
   * What a successful selection hands to device creation: the only extension
   * requested is the swapchain one, and exactly one queue is created, from a
   * family of the chosen device that has GRAPHICS and can present.
   */
  lemma SelectedDeviceSetup(devices: seq<PhysicalDevice>, validation: bool)
    requires SelectDevice(devices).Selected?
    ensures var c := SelectDevice(devices).candidate;
            var info := DeviceInfo(c, validation);
            && info.enabledExtensions == [SWAPCHAIN_EXTENSION]
            && |info.queueCreateInfos| == 1
            && info.queueCreateInfos[0].queueFamilyIndex == c.queueFamilyIndex
            && info.queueCreateInfos[0].priorityCount == 1
            && exists i :: 0 <= i < |devices| && devices[i].handle == c.device &&
                 c.queueFamilyIndex < |devices[i].queueFamilies| &&
                 CanDraw(devices[i].queueFamilies[c.queueFamilyIndex]) &&
                 c.format in devices[i].formats && IsSrgb(c.format)
  {
    var c := SelectDevice(devices).candidate;
    SelectDeviceSpec(devices);
    var i :| 0 <= i < |devices| && Candidacy(devices[i]) == Some(c);
  }

  // ---------------------------------------------------------------------------
  // The surface queries that panic through `unwrap_or_log`

  /**
   * The family indices whose surface support `position` asks for, from
   * `from` on: only families with GRAPHICS are asked (the `&&`
   * short-circuits), and the search stops at the first one that can present.
   */
  function SupportQueries(families: seq<QueueFamily>, from: nat): (js: seq<nat>)
    decreases |families| - from
  {
    if from >= |families| then []
    else if !families[from].graphics then SupportQueries(families, from + 1)
    else if families[from].presentSupport then [from]
    else [from] + SupportQueries(families, from + 1)
  }

  /** The support of family j is queried: it has GRAPHICS and no earlier family can draw. */
  predicate SupportQueried(families: seq<QueueFamily>, j: nat) {
    j < |families| && families[j].graphics && forall k :: 0 <= k < j ==> !CanDraw(families[k])
  }

  lemma {:induction false} SupportQueriesFrom(families: seq<QueueFamily>, from: nat, j: nat)
    ensures j in SupportQueries(families, from) <==>
            from <= j < |families| && families[j].graphics && forall k :: from <= k < j ==> !CanDraw(families[k])
    decreases |families| - from
  {
    if from < |families| {
      SupportQueriesFrom(families, from + 1, j);
    }
  }

  /** The walk of `position` asks exactly for the families `SupportQueried` names. */
  lemma SupportQueriesSpec(families: seq<QueueFamily>, j: nat)
    ensures j in SupportQueries(families, 0) <==> SupportQueried(families, j)
  {
    SupportQueriesFrom(families, 0, j);
  }

  /** The search stops at the family it returns: that one is the last whose support is asked for. */
  lemma FoundFamilyQueriedLast(families: seq<QueueFamily>, j: nat)
    requires FindQueueFamily(families).Some?
    ensures SupportQueried(families, FindQueueFamily(families).value)
    ensures SupportQueried(families, j) ==> j <= FindQueueFamily(families).value
  {
  }

  /**
   * The `filter_map` closure runs for every enumerated device (`max_by_key`
   * drains the iterator).  A failing support query panics when the search
   * reaches it; the format list is queried once a family is found, and the
   * present modes once a format is found too.
   */
  predicate FilterQueryPanics(devices: seq<PhysicalDevice>, fault: Option<Fault>) {
    match fault
    case Some(SurfaceSupportFails(i, j)) => i < |devices| && SupportQueried(devices[i].queueFamilies, j)
    case Some(SurfaceFormatsFails(i)) => i < |devices| && FindQueueFamily(devices[i].queueFamilies).Some?
    case Some(PresentModesFails(i)) => i < |devices| && Candidacy(devices[i]).Some?
    case _ => false
  }

  /** After the selection, the device name's `to_str` and the capability query panic when they fail. */
  predicate SelectedQueryPanics(fault: Option<Fault>) {
    fault == Some(DeviceNameFails) || fault == Some(SurfaceCapabilitiesFails)
  }

  /** A device is selected and none of the queries on the way panics. */
  predicate DeviceReady(devices: seq<PhysicalDevice>, fault: Option<Fault>) {
    SelectDevice(devices).Selected? && !FilterQueryPanics(devices, fault) && !SelectedQueryPanics(fault)
  }

  /** The fields of `DeviceHandle` the rest of the renderer reads. */
  datatype DeviceHandle = DeviceHandle(
    physicalDevice: Handle,
    device: Handle,
    deviceType: PhysicalDeviceType,
    queueFamilyIndex: nat,
    queue: Handle,
    capabilities: SurfaceCapabilities,
    format: SurfaceFormat,
    presentMode: PresentMode)

  /**
   * `DeviceHandle::new`: enumerate (which may fail), select (which may panic),
   * create the logical device (which may fail) and fetch queue 0 of the
   * chosen family.
   */
  method NewDeviceHandle(driver: Driver, devices: seq<PhysicalDevice>, validation: bool, fault: Option<Fault>)
    returns (r: Outcome<DeviceHandle>)
    requires driver.Valid()
    modifies driver`log, driver`next
    ensures driver.Valid()
    ensures r.Err? <==> fault == Some(EnumerateDevicesFails) ||
                        (SelectDevice(devices).Selected? && fault == Some(CreateDeviceFails))
    ensures r.Panic? <==> fault != Some(EnumerateDevicesFails) && !DeviceReady(devices, fault)
    ensures !r.Ok? ==> driver.log == old(driver.log)
    ensures r.Ok? ==>
              var c := SelectDevice(devices).candidate;
              var h := r.value;
              && h.physicalDevice == c.device && h.deviceType == c.deviceType
              && h.queueFamilyIndex == c.queueFamilyIndex && h.capabilities == c.capabilities
              && h.format == c.format && h.presentMode == c.presentMode
              && h.device == old(driver.next) && h.queue == old(driver.next) + 1
              && driver.log == old(driver.log) + [Event.CreateDevice(h.device, c.device, DeviceInfo(c, validation)),
                                                  Event.GetDeviceQueue(c.queueFamilyIndex, 0, h.queue)]
  {
    if fault == Some(EnumerateDevicesFails) {
      return Err;
    }
    if FilterQueryPanics(devices, fault) {
      return Panic;
    }
    var selection := SelectDevice(devices);
    if selection.NoCompatibleDevice? {
      return Panic;
    }
    if SelectedQueryPanics(fault) {
      return Panic;
    }
    var c := selection.candidate;
    if fault == Some(CreateDeviceFails) {
      return Err;
    }
    var device := driver.Fresh();
    driver.Record(Event.CreateDevice(device, c.device, DeviceInfo(c, validation)));
    var queue := driver.Fresh();
    driver.Record(Event.GetDeviceQueue(c.queueFamilyIndex, 0, queue));
    r := Ok(DeviceHandle(c.device, device, c.deviceType, c.queueFamilyIndex, queue, c.capabilities, c.format, c.presentMode));
  }
}
