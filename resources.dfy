/**
 * The GPU resources of the renderer (src/engine/renderer/resources.rs): the
 * memory allocator, the per-mesh buffers and the images allocated through it.
 * `Resources` owns every allocation in these lists; dropping it destroys each
 * of them once and then the allocator.
 */
module Resources {
  import opened Vk
  import opened Gpu
  import opened Buffer

  /** An image and the allocation that backs it. */
  datatype Image = Image(image: Handle, allocation: Handle)

  /** One destroy call of the teardown. */
  datatype Release = ReleaseBuffer(buffer: Handle, allocation: Handle) | ReleaseImage(image: Handle, allocation: Handle)

  function Min(a: nat, b: nat): nat {
    if a <= b then a else b
  }

  /** The `zip` of a vertex-buffer set's buffers and allocations. */
  function PairReleases(buffers: seq<Handle>, allocations: seq<Handle>): (rs: seq<Release>)
    ensures |rs| == Min(|buffers|, |allocations|)
  {
    if buffers == [] || allocations == [] then []
    else [ReleaseBuffer(buffers[0], allocations[0])] + PairReleases(buffers[1..], allocations[1..])
  }

  function VertexReleases(vbs: seq<VertexBuffers>): seq<Release> {
    if vbs == [] then []
    else PairReleases(vbs[0].buffers, vbs[0].allocations) + VertexReleases(vbs[1..])
  }

  function IndexReleases(ibs: seq<IndexBuffer>): seq<Release> {
    if ibs == [] then [] else [ReleaseBuffer(ibs[0].buffer, ibs[0].allocation)] + IndexReleases(ibs[1..])
  }

  function ImageReleases(images: seq<Image>): seq<Release> {
    if images == [] then [] else [ReleaseImage(images[0].image, images[0].allocation)] + ImageReleases(images[1..])
  }

  /** Every destroy of the teardown, in order: vertex buffers, index buffers, images. */
  function Releases(vbs: seq<VertexBuffers>, ibs: seq<IndexBuffer>, images: seq<Image>): seq<Release> {
    VertexReleases(vbs) + (IndexReleases(ibs) + ImageReleases(images))
  }

  function Allocations(rs: seq<Release>): (hs: seq<Handle>)
    ensures |hs| == |rs|
  {
    if rs == [] then [] else [rs[0].allocation] + Allocations(rs[1..])
  }

  function ReleaseEvent(r: Release): Event {
    match r
    case ReleaseBuffer(b, a) => Event.DestroyBuffer(b, a)
    case ReleaseImage(i, a) => Event.DestroyImage(i, a)
  }

  function ReleaseEvents(rs: seq<Release>): (es: seq<Event>)
    ensures |es| == |rs|
  {
    if rs == [] then [] else [ReleaseEvent(rs[0])] + ReleaseEvents(rs[1..])
  }

  function AllocationSet(rs: seq<Release>): set<Handle> {
    set a | a in Allocations(rs)
  }

  lemma {:induction false} ReleasesAppend(a: seq<Release>, b: seq<Release>)
    ensures Allocations(a + b) == Allocations(a) + Allocations(b)
    ensures ReleaseEvents(a + b) == ReleaseEvents(a) + ReleaseEvents(b)
  {
    if a == [] {
      assert a + b == b;
    } else {
      assert (a + b)[0] == a[0] && (a + b)[1..] == a[1..] + b;
      ReleasesAppend(a[1..], b);
    }
  }

  lemma {:induction false} VertexReleasesAppend(a: seq<VertexBuffers>, b: seq<VertexBuffers>)
    ensures VertexReleases(a + b) == VertexReleases(a) + VertexReleases(b)
  {
    if a == [] {
      assert a + b == b;
    } else {
      assert (a + b)[0] == a[0] && (a + b)[1..] == a[1..] + b;
      VertexReleasesAppend(a[1..], b);
    }
  }

  lemma {:induction false} IndexReleasesAppend(a: seq<IndexBuffer>, b: seq<IndexBuffer>)
    ensures IndexReleases(a + b) == IndexReleases(a) + IndexReleases(b)
  {
    if a == [] {
      assert a + b == b;
    } else {
      assert (a + b)[0] == a[0] && (a + b)[1..] == a[1..] + b;
      IndexReleasesAppend(a[1..], b);
    }
  }

  lemma {:induction false} ImageReleasesAppend(a: seq<Image>, b: seq<Image>)
    ensures ImageReleases(a + b) == ImageReleases(a) + ImageReleases(b)
  {
    if a == [] {
      assert a + b == b;
    } else {
      assert (a + b)[0] == a[0] && (a + b)[1..] == a[1..] + b;
      ImageReleasesAppend(a[1..], b);
    }
  }

  // ---------------------------------------------------------------------------
  // Ownership

  /** No allocation appears twice. */
  ghost predicate Distinct(hs: seq<Handle>) {
    forall i, j :: 0 <= i < j < |hs| ==> hs[i] != hs[j]
  }

  /** Every allocation in `hs` appears once, is live and is not mapped. */
  ghost predicate Owns(hs: seq<Handle>, memory: map<Handle, seq<byte>>, mapped: set<Handle>) {
    && Distinct(hs)
    && forall i :: 0 <= i < |hs| ==> hs[i] in memory && hs[i] !in mapped
  }

  /** The ownership part of `Valid`, on the values of the three lists. */
  ghost predicate OwnsLists(vbs: seq<VertexBuffers>, ibs: seq<IndexBuffer>, images: seq<Image>,
                            memory: map<Handle, seq<byte>>, mapped: set<Handle>)
  {
    Owns(Allocations(Releases(vbs, ibs, images)), memory, mapped)
  }

  /** Ownership survives allocations that only add keys; everything owned lies below the handle counter. */
  lemma OwnsGrow(hs: seq<Handle>, mem0: map<Handle, seq<byte>>, memory: map<Handle, seq<byte>>,
                 mapped: set<Handle>, next0: nat)
    requires Owns(hs, mem0, mapped) && mem0.Keys <= memory.Keys
    requires forall a :: a in mem0 ==> a < next0
    ensures Owns(hs, memory, mapped)
    ensures forall a :: a in hs ==> a < next0
  {
  }

  /** A live, unmapped allocation not owned yet can be owned once, at any position. */
  lemma OwnsInsert(a: seq<Handle>, x: Handle, b: seq<Handle>, memory: map<Handle, seq<byte>>, mapped: set<Handle>)
    requires Owns(a + b, memory, mapped)
    requires x in memory && x !in mapped && x !in a + b
    ensures Owns(a + [x] + b, memory, mapped)
  {
    var s, t := a + b, a + [x] + b;
    assert forall i :: 0 <= i < |t| && i < |a| ==> t[i] == s[i];
    assert forall i :: |a| < i < |t| ==> t[i] == s[i - 1];
    assert t[|a|] == x;
    forall i, j | 0 <= i < j < |t|
      ensures t[i] != t[j]
    {
      if i == |a| {
        assert t[j] == s[j - 1] && s[j - 1] in s;
      } else if j == |a| {
        assert t[i] == s[i] && s[i] in s;
      }
    }
  }

  /** The allocations of the teardown, list by list. */
  lemma AllocationsOfReleases(vbs: seq<VertexBuffers>, ibs: seq<IndexBuffer>, images: seq<Image>)
    ensures Allocations(Releases(vbs, ibs, images)) ==
            Allocations(VertexReleases(vbs)) + (Allocations(IndexReleases(ibs)) + Allocations(ImageReleases(images)))
  {
    ReleasesAppend(VertexReleases(vbs), IndexReleases(ibs) + ImageReleases(images));
    ReleasesAppend(IndexReleases(ibs), ImageReleases(images));
  }

  /** Pushing one vertex-buffer set inserts its allocation after those of the earlier sets. */
  lemma VertexInsert(vbs: seq<VertexBuffers>, ibs: seq<IndexBuffer>, images: seq<Image>, b: Handle, x: Handle)
    ensures Allocations(VertexReleases(vbs + [VertexBuffers([b], [0], [x])])) == Allocations(VertexReleases(vbs)) + [x]
  {
    var r := ReleaseBuffer(b, x);
    VertexReleasesAppend(vbs, [VertexBuffers([b], [0], [x])]);
    assert VertexReleases([VertexBuffers([b], [0], [x])]) == [r];
    ReleasesAppend(VertexReleases(vbs), [r]);
    assert Allocations([r]) == [x];
  }

  /** Pushing one index buffer inserts its allocation after those of the earlier index buffers. */
  lemma IndexInsert(ibs: seq<IndexBuffer>, ib: IndexBuffer)
    ensures Allocations(IndexReleases(ibs + [ib])) == Allocations(IndexReleases(ibs)) + [ib.allocation]
  {
    var r := ReleaseBuffer(ib.buffer, ib.allocation);
    IndexReleasesAppend(ibs, [ib]);
    assert IndexReleases([ib]) == [r];
    ReleasesAppend(IndexReleases(ibs), [r]);
    assert Allocations([r]) == [ib.allocation];
  }

  /** Pushing one image appends its allocation last. */
  lemma ImageInsert(images: seq<Image>, image: Image)
    ensures Allocations(ImageReleases(images + [image])) == Allocations(ImageReleases(images)) + [image.allocation]
  {
    var r := ReleaseImage(image.image, image.allocation);
    ImageReleasesAppend(images, [image]);
    assert ImageReleases([image]) == [r];
    ReleasesAppend(ImageReleases(images), [r]);
    assert Allocations([r]) == [image.allocation];
  }

  lemma Regroup(p: seq<Handle>, q: seq<Handle>, x: Handle, r: seq<Handle>)
    ensures p + (q + r) == (p + q) + r
    ensures p + ((q + [x]) + r) == ((p + q) + [x]) + r
    ensures p + (q + (r + [x])) == (p + (q + r)) + [x] + []
  {
  }

  /** Pushing a freshly created image keeps ownership sound. */
  lemma OwnsAfterImage(vbs: seq<VertexBuffers>, ibs: seq<IndexBuffer>, images: seq<Image>, image: Image,
                       mem0: map<Handle, seq<byte>>, memory: map<Handle, seq<byte>>, mapped: set<Handle>, next0: nat)
    requires OwnsLists(vbs, ibs, images, mem0, mapped) && mem0.Keys <= memory.Keys && mapped <= mem0.Keys
    requires forall a :: a in mem0 ==> a < next0
    requires image.allocation >= next0 && image.allocation in memory
    ensures OwnsLists(vbs, ibs, images + [image], memory, mapped)
  {
    var av, ai, am := Allocations(VertexReleases(vbs)), Allocations(IndexReleases(ibs)), Allocations(ImageReleases(images));
    AllocationsOfReleases(vbs, ibs, images);
    AllocationsOfReleases(vbs, ibs, images + [image]);
    ImageInsert(images, image);
    OwnsGrow(av + (ai + am), mem0, memory, mapped, next0);
    Regroup(av, ai, image.allocation, am);
    assert av + (ai + am) + [] == av + (ai + am);
    OwnsInsert(av + (ai + am), image.allocation, [], memory, mapped);
  }

  /** An upload that ends any of its three ways keeps ownership sound. */
  lemma OwnsAfterUpload(vbs0: seq<VertexBuffers>, ibs0: seq<IndexBuffer>, images: seq<Image>,
                        vbs: seq<VertexBuffers>, ibs: seq<IndexBuffer>,
                        mem0: map<Handle, seq<byte>>, memory: map<Handle, seq<byte>>, mapped: set<Handle>, next0: nat)
    requires OwnsLists(vbs0, ibs0, images, mem0, mapped) && mem0.Keys <= memory.Keys && mapped <= mem0.Keys
    requires forall a :: a in mem0 ==> a < next0
    requires || (vbs == vbs0 && ibs == ibs0)
             || (vbs == vbs0 + [VertexBuffers([next0], [0], [next0 + 1])] && ibs == ibs0 && next0 + 1 in memory)
             || (vbs == vbs0 + [VertexBuffers([next0], [0], [next0 + 1])] && ibs == ibs0 + [IndexBuffer(next0 + 2, Uint32, 0, next0 + 3)]
                 && next0 + 1 in memory && next0 + 3 in memory)
    ensures OwnsLists(vbs, ibs, images, memory, mapped)
  {
    var av, ai, am := Allocations(VertexReleases(vbs0)), Allocations(IndexReleases(ibs0)), Allocations(ImageReleases(images));
    AllocationsOfReleases(vbs0, ibs0, images);
    OwnsGrow(av + (ai + am), mem0, memory, mapped, next0);
    if vbs != vbs0 {
      VertexInsert(vbs0, ibs0, images, next0, next0 + 1);
      AllocationsOfReleases(vbs, ibs0, images);
      OwnsInsert(av, next0 + 1, ai + am, memory, mapped);
      if ibs != ibs0 {
        var ib := IndexBuffer(next0 + 2, Uint32, 0, next0 + 3);
        IndexInsert(ibs0, ib);
        AllocationsOfReleases(vbs, ibs, images);
        var av' := av + [next0 + 1];
        assert next0 + 3 !in av' + (ai + am) by {
          assert next0 + 3 !in av + (ai + am);
        }
        Regroup(av', ai, next0 + 3, am);
        OwnsInsert(av' + ai, next0 + 3, am, memory, mapped);
      }
    }
  }

  /** The binds of one `bind_buffers_per_draw`: the zip of the two lists, vertex set before index buffer. */
  function BindEvents(vbs: seq<VertexBuffers>, ibs: seq<IndexBuffer>, cb: Handle): seq<Event> {
    if vbs == [] || ibs == [] then []
    else [Event.BindVertexBuffers(cb, 0, vbs[0].buffers, vbs[0].offsets),
          Event.BindIndexBuffer(cb, ibs[0].buffer, ibs[0].offset, ibs[0].indexType)] +
         BindEvents(vbs[1..], ibs[1..], cb)
  }

  lemma {:induction false} BindEventsLength(vbs: seq<VertexBuffers>, ibs: seq<IndexBuffer>, cb: Handle)
    ensures |BindEvents(vbs, ibs, cb)| == 2 * Min(|vbs|, |ibs|)
  {
    if vbs != [] && ibs != [] {
      BindEventsLength(vbs[1..], ibs[1..], cb);
    }
  }

  /** Pair `k` of the binds: vertex set `k`, then index buffer `k`. */
  lemma {:induction false} BindEventsAt(vbs: seq<VertexBuffers>, ibs: seq<IndexBuffer>, cb: Handle, k: nat)
    requires k < Min(|vbs|, |ibs|)
    ensures 2 * k + 1 < |BindEvents(vbs, ibs, cb)|
    ensures BindEvents(vbs, ibs, cb)[2 * k] == Event.BindVertexBuffers(cb, 0, vbs[k].buffers, vbs[k].offsets)
    ensures BindEvents(vbs, ibs, cb)[2 * k + 1] == Event.BindIndexBuffer(cb, ibs[k].buffer, ibs[k].offset, ibs[k].indexType)
  {
    BindEventsLength(vbs, ibs, cb);
    if k > 0 {
      var head := [Event.BindVertexBuffers(cb, 0, vbs[0].buffers, vbs[0].offsets),
                   Event.BindIndexBuffer(cb, ibs[0].buffer, ibs[0].offset, ibs[0].indexType)];
      var tail := BindEvents(vbs[1..], ibs[1..], cb);
      assert BindEvents(vbs, ibs, cb) == head + tail;
      BindEventsAt(vbs[1..], ibs[1..], cb, k - 1);
      assert vbs[1..][k - 1] == vbs[k] && ibs[1..][k - 1] == ibs[k];
      assert (head + tail)[2 * k] == tail[2 * k - 2] && (head + tail)[2 * k + 1] == tail[2 * k - 1];
    }
  }

  /** One pair per mesh that has both lists, in list order, vertex set first. */
  lemma BindEventsShape(vbs: seq<VertexBuffers>, ibs: seq<IndexBuffer>, cb: Handle)
    ensures |BindEvents(vbs, ibs, cb)| == 2 * Min(|vbs|, |ibs|)
    ensures forall k :: 0 <= k < Min(|vbs|, |ibs|) ==>
              && BindEvents(vbs, ibs, cb)[2 * k] == Event.BindVertexBuffers(cb, 0, vbs[k].buffers, vbs[k].offsets)
              && BindEvents(vbs, ibs, cb)[2 * k + 1] == Event.BindIndexBuffer(cb, ibs[k].buffer, ibs[k].offset, ibs[k].indexType)
  {
    BindEventsLength(vbs, ibs, cb);
    forall k | 0 <= k < Min(|vbs|, |ibs|)
      ensures BindEvents(vbs, ibs, cb)[2 * k] == Event.BindVertexBuffers(cb, 0, vbs[k].buffers, vbs[k].offsets)
      ensures BindEvents(vbs, ibs, cb)[2 * k + 1] == Event.BindIndexBuffer(cb, ibs[k].buffer, ibs[k].offset, ibs[k].indexType)
    {
      BindEventsAt(vbs, ibs, cb, k);
    }
  }

  class Resources {
    const allocator: Handle
    const buffers: AllocatedBuffers
    var images: seq<Image>

    /** `Resources::new` after the allocator exists: all three lists empty. */
    constructor (allocator: Handle)
      ensures this.allocator == allocator && fresh(buffers)
      ensures buffers.vertexBuffers == [] && buffers.indexBuffers == [] && images == []
    {
      this.allocator := allocator;
      buffers := new AllocatedBuffers();
      images := [];
    }

    function AllReleases(): seq<Release>
      reads this, buffers
    {
      Releases(buffers.vertexBuffers, buffers.indexBuffers, images)
    }

    /**
     * Every owned allocation is owned once, is live and is not mapped; an index
     * buffer exists only for a mesh whose vertex buffer exists.
     */
    ghost predicate Valid(driver: Driver)
      reads this, buffers, driver`memory, driver`mapped, driver`fences, driver`next
    {
      && driver.Valid()
      && |buffers.indexBuffers| <= |buffers.vertexBuffers|
      && OwnsLists(buffers.vertexBuffers, buffers.indexBuffers, images, driver.memory, driver.mapped)
    }

    /** `uplaod_mesh`: the allocator's upload, keeping ownership sound whichever way it ends. */
    method UploadMesh(driver: Driver, mesh: Mesh.Mesh, fault: Option<Fault>) returns (r: Outcome<()>)
      requires Valid(driver)
      modifies buffers, driver`log, driver`memory, driver`mapped, driver`next
      ensures Valid(driver)
      ensures images == old(images)
      ensures !r.Panic?
      ensures r.Err? <==> fault in {Some(BufferCreateFails(VertexBufferUsage)), Some(BufferMapFails(VertexBufferUsage)),
                                    Some(BufferCreateFails(IndexBufferUsage)), Some(BufferMapFails(IndexBufferUsage))}
      ensures fault in {Some(BufferCreateFails(VertexBufferUsage)), Some(BufferMapFails(VertexBufferUsage))} ==>
                buffers.vertexBuffers == old(buffers.vertexBuffers) && buffers.indexBuffers == old(buffers.indexBuffers)
      ensures fault in {Some(BufferCreateFails(IndexBufferUsage)), Some(BufferMapFails(IndexBufferUsage))} ==>
                && buffers.vertexBuffers == old(buffers.vertexBuffers) + [VertexBuffers([old(driver.next)], [0], [old(driver.next) + 1])]
                && buffers.indexBuffers == old(buffers.indexBuffers)
      ensures r.Ok? ==>
                var vb, va, ib, ia := old(driver.next), old(driver.next) + 1, old(driver.next) + 2, old(driver.next) + 3;
                && buffers.vertexBuffers == old(buffers.vertexBuffers) + [VertexBuffers([vb], [0], [va])]
                && buffers.indexBuffers == old(buffers.indexBuffers) + [IndexBuffer(ib, Uint32, 0, ia)]
                && driver.next == old(driver.next) + 4
                && driver.memory == old(driver.memory)[va := Mesh.VerticesBytes(mesh.vertices)][ia := IndicesBytes(mesh.indices)]
                && driver.log == old(driver.log) +
                                 UploadEvents(vb, va, Mesh.VERTEX_SIZE * |mesh.vertices|, VertexBufferUsage) +
                                 UploadEvents(ib, ia, INDEX_SIZE * |mesh.indices|, IndexBufferUsage)
    {
      ghost var vbs0, ibs0, mem0, next0 := buffers.vertexBuffers, buffers.indexBuffers, driver.memory, driver.next;
      r := buffers.UploadMesh(driver, mesh, fault);
      OwnsAfterUpload(vbs0, ibs0, images, buffers.vertexBuffers, buffers.indexBuffers, mem0, driver.memory, driver.mapped, next0);
    }

    /**
     * `allocate_depth_image`: the image is pushed onto the image list and its
     * handle returned; a failed `create_image` changes nothing.
     */
    method AllocateDepthImage(driver: Driver, imageInfo: ImageCreateInfo, allocationInfo: AllocationCreateInfo, fault: Option<Fault>)
      returns (r: Outcome<Handle>)
      requires Valid(driver)
      modifies this, driver`log, driver`memory, driver`next
      ensures Valid(driver)
      ensures !r.Panic?
      ensures r.Err? <==> fault == Some(DepthImageFails)
      ensures r.Err? ==> images == old(images) && driver.log == old(driver.log) && driver.memory == old(driver.memory)
      ensures r.Ok? ==>
                && r.value == old(driver.next)
                && images == old(images) + [Image(r.value, r.value + 1)]
                && driver.next == old(driver.next) + 2
                && driver.memory == old(driver.memory)[r.value + 1 := []]
                && driver.log == old(driver.log) + [Event.CreateImage(r.value, r.value + 1, imageInfo, allocationInfo)]
    {
      if fault == Some(DepthImageFails) {
        return Err;
      }
      ghost var mem0, next0 := driver.memory, driver.next;
      var image, allocation := driver.CreateImage(imageInfo, allocationInfo);
      OwnsAfterImage(buffers.vertexBuffers, buffers.indexBuffers, images, Image(image, allocation), mem0, driver.memory, driver.mapped, next0);
      images := images + [Image(image, allocation)];
      r := Ok(image);
    }

    /** `bind_buffers_per_draw`: one bind pair per entry of the zip of the two lists. */
    method BindBuffersPerDraw(driver: Driver, cb: Handle)
      requires driver.Valid()
      modifies driver`log
      ensures driver.log == old(driver.log) + BindEvents(buffers.vertexBuffers, buffers.indexBuffers, cb)
    {
      var vbs, ibs := buffers.vertexBuffers, buffers.indexBuffers;
      var i := 0;
      while i < Min(|vbs|, |ibs|)
        invariant 0 <= i <= Min(|vbs|, |ibs|)
        invariant driver.Valid()
        invariant old(driver.log) + BindEvents(vbs, ibs, cb) == driver.log + BindEvents(vbs[i..], ibs[i..], cb)
      {
        assert vbs[i..][1..] == vbs[i + 1..] && ibs[i..][1..] == ibs[i + 1..];
        driver.Record(Event.BindVertexBuffers(cb, 0, vbs[i].buffers, vbs[i].offsets));
        driver.Record(Event.BindIndexBuffer(cb, ibs[i].buffer, ibs[i].offset, ibs[i].indexType));
        i := i + 1;
      }
    }

    /** The mesh count the renderer draws: the length of the vertex-buffer list. */
    function AllocatedBuffersLen(): (n: nat)
      reads this, buffers
      ensures n == |buffers.vertexBuffers|
    {
      |buffers.vertexBuffers|
    }

    /**
     * `Drop`: destroy every (buffer, allocation) pair of every vertex-buffer
     * set, then every index buffer, then every image, then the allocator.
     */
    method Drop(driver: Driver)
      requires Valid(driver)
      modifies driver`log, driver`memory
      ensures driver.Valid()
      ensures driver.memory == old(driver.memory) - AllocationSet(AllReleases())
      ensures driver.log == old(driver.log) + ReleaseEvents(AllReleases()) + [Event.DestroyAllocator(allocator)]
    {
      var vbs, ibs := buffers.vertexBuffers, buffers.indexBuffers;
      ghost var all := AllReleases();
      ghost var m0, l0 := driver.memory, driver.log;
      TeardownStart(vbs, ibs, images, driver.memory, driver.log, driver.mapped);
      ghost var done := DestroyVertexBuffers(driver, vbs, IndexReleases(ibs) + ImageReleases(images), all, [], m0, l0);
      done := DestroyIndexBuffers(driver, ibs, ImageReleases(images), all, done, m0, l0);
      done := DestroyImages(driver, images, all, done, m0, l0);
      assert done == all;
      driver.Record(Event.DestroyAllocator(allocator));
    }
  }

  /**
   * `Resources::new`: create the memory allocator (a failure is returned with
   * `?`) and start with no buffers and no images.
   */
  method New(driver: Driver, fault: Option<Fault>) returns (r: Outcome<Resources>)
    requires driver.Valid()
    modifies driver`log, driver`next
    ensures driver.Valid()
    ensures !r.Panic?
    ensures r.Err? <==> fault == Some(AllocatorFails)
    ensures r.Err? ==> driver.log == old(driver.log) && driver.next == old(driver.next)
    ensures r.Ok? ==>
              && fresh(r.value) && fresh(r.value.buffers)
              && r.value.allocator == old(driver.next)
              && r.value.buffers.vertexBuffers == [] && r.value.buffers.indexBuffers == [] && r.value.images == []
              && r.value.Valid(driver)
              && driver.log == old(driver.log) + [Event.CreateAllocator(r.value.allocator)]
  {
    if fault == Some(AllocatorFails) {
      return Err;
    }
    var allocator := driver.Fresh();
    driver.Record(Event.CreateAllocator(allocator));
    var resources := new Resources(allocator);
    assert Allocations(Releases([], [], [])) == [];
    r := Ok(resources);
  }

  /** The destroy call of one release: the buffer or the image together with its allocation. */
  method DestroyFirst(driver: Driver, r: Release, ghost all: seq<Release>, ghost done: seq<Release>, ghost rest: seq<Release>,
                      ghost m0: map<Handle, seq<byte>>, ghost l0: seq<Event>)
    requires driver.Valid() && Teardown(driver.memory, driver.log, driver.mapped, all, done, rest, m0, l0)
    requires rest != [] && rest[0] == r
    modifies driver`log, driver`memory
    ensures driver.Valid() && Teardown(driver.memory, driver.log, driver.mapped, all, done + [r], rest[1..], m0, l0)
  {
    TeardownStep(driver.memory, driver.log, driver.mapped, all, done, rest, m0, l0);
    match r
    case ReleaseBuffer(b, a) => driver.DestroyBuffer(b, a);
    case ReleaseImage(i, a) => driver.DestroyImage(i, a);
  }

  /** The vertex loop of the teardown: each set's (buffer, allocation) pairs, set by set. */
  method DestroyVertexBuffers(driver: Driver, vbs: seq<VertexBuffers>, ghost later: seq<Release>, ghost all: seq<Release>,
                              ghost done0: seq<Release>, ghost m0: map<Handle, seq<byte>>, ghost l0: seq<Event>)
    returns (ghost done: seq<Release>)
    requires driver.Valid() && Teardown(driver.memory, driver.log, driver.mapped, all, done0, VertexReleases(vbs) + later, m0, l0)
    modifies driver`log, driver`memory
    ensures driver.Valid() && Teardown(driver.memory, driver.log, driver.mapped, all, done, later, m0, l0)
  {
    done := done0;
    var i := 0;
    assert vbs[0..] == vbs;
    while i < |vbs|
      invariant 0 <= i <= |vbs|
      invariant driver.Valid() && Teardown(driver.memory, driver.log, driver.mapped, all, done, VertexReleases(vbs[i..]) + later, m0, l0)
    {
      VertexStep(vbs, i, later);
      done := DestroyPairs(driver, vbs[i].buffers, vbs[i].allocations, VertexReleases(vbs[i + 1..]) + later, all, done, m0, l0);
      i := i + 1;
    }
    assert vbs[i..] == [] && VertexReleases(vbs[i..]) + later == later;
  }

  /** The inner loop over the `zip` of one set's buffers and allocations. */
  method DestroyPairs(driver: Driver, bs: seq<Handle>, allocs: seq<Handle>, ghost tail: seq<Release>, ghost all: seq<Release>,
                      ghost done0: seq<Release>, ghost m0: map<Handle, seq<byte>>, ghost l0: seq<Event>)
    returns (ghost done: seq<Release>)
    requires driver.Valid() && Teardown(driver.memory, driver.log, driver.mapped, all, done0, PairReleases(bs[0..], allocs[0..]) + tail, m0, l0)
    modifies driver`log, driver`memory
    ensures driver.Valid() && Teardown(driver.memory, driver.log, driver.mapped, all, done, tail, m0, l0)
  {
    done := done0;
    var j := 0;
    while j < Min(|bs|, |allocs|)
      invariant 0 <= j <= Min(|bs|, |allocs|)
      invariant driver.Valid() && Teardown(driver.memory, driver.log, driver.mapped, all, done, PairReleases(bs[j..], allocs[j..]) + tail, m0, l0)
    {
      PairStep(bs, allocs, j, tail);
      DestroyFirst(driver, ReleaseBuffer(bs[j], allocs[j]), all, done, PairReleases(bs[j..], allocs[j..]) + tail, m0, l0);
      done := done + [ReleaseBuffer(bs[j], allocs[j])];
      j := j + 1;
    }
    PairsDone(bs, allocs, j);
    assert PairReleases(bs[j..], allocs[j..]) + tail == tail;
  }

  /** The index loop of the teardown. */
  method DestroyIndexBuffers(driver: Driver, ibs: seq<IndexBuffer>, ghost later: seq<Release>, ghost all: seq<Release>,
                             ghost done0: seq<Release>, ghost m0: map<Handle, seq<byte>>, ghost l0: seq<Event>)
    returns (ghost done: seq<Release>)
    requires driver.Valid() && Teardown(driver.memory, driver.log, driver.mapped, all, done0, IndexReleases(ibs) + later, m0, l0)
    modifies driver`log, driver`memory
    ensures driver.Valid() && Teardown(driver.memory, driver.log, driver.mapped, all, done, later, m0, l0)
  {
    done := done0;
    var k := 0;
    assert ibs[0..] == ibs;
    while k < |ibs|
      invariant 0 <= k <= |ibs|
      invariant driver.Valid() && Teardown(driver.memory, driver.log, driver.mapped, all, done, IndexReleases(ibs[k..]) + later, m0, l0)
    {
      IndexStep(ibs, k, later);
      DestroyFirst(driver, ReleaseBuffer(ibs[k].buffer, ibs[k].allocation), all, done, IndexReleases(ibs[k..]) + later, m0, l0);
      done := done + [ReleaseBuffer(ibs[k].buffer, ibs[k].allocation)];
      k := k + 1;
    }
    assert ibs[k..] == [] && IndexReleases(ibs[k..]) + later == later;
  }

  /** The image loop of the teardown, the last releases of all. */
  method DestroyImages(driver: Driver, images: seq<Image>, ghost all: seq<Release>,
                       ghost done0: seq<Release>, ghost m0: map<Handle, seq<byte>>, ghost l0: seq<Event>)
    returns (ghost done: seq<Release>)
    requires driver.Valid() && Teardown(driver.memory, driver.log, driver.mapped, all, done0, ImageReleases(images), m0, l0)
    modifies driver`log, driver`memory
    ensures driver.Valid() && Teardown(driver.memory, driver.log, driver.mapped, all, done, [], m0, l0)
  {
    done := done0;
    var n := 0;
    assert images[0..] == images;
    while n < |images|
      invariant 0 <= n <= |images|
      invariant driver.Valid() && Teardown(driver.memory, driver.log, driver.mapped, all, done, ImageReleases(images[n..]), m0, l0)
    {
      ImageStep(images, n);
      DestroyFirst(driver, ReleaseImage(images[n].image, images[n].allocation), all, done, ImageReleases(images[n..]), m0, l0);
      done := done + [ReleaseImage(images[n].image, images[n].allocation)];
      n := n + 1;
    }
    assert images[n..] == [] && ImageReleases(images[n..]) == [];
  }

  // Unfolding the release lists one entry at a time, for the teardown loops.

  lemma VertexStep(vbs: seq<VertexBuffers>, i: nat, later: seq<Release>)
    requires i < |vbs|
    ensures VertexReleases(vbs[i..]) + later ==
            PairReleases(vbs[i].buffers[0..], vbs[i].allocations[0..]) + (VertexReleases(vbs[i + 1..]) + later)
  {
    assert vbs[i..][1..] == vbs[i + 1..];
    assert vbs[i].buffers[0..] == vbs[i].buffers && vbs[i].allocations[0..] == vbs[i].allocations;
  }

  lemma PairStep(bs: seq<Handle>, allocs: seq<Handle>, j: nat, tail: seq<Release>)
    requires j < Min(|bs|, |allocs|)
    ensures (PairReleases(bs[j..], allocs[j..]) + tail)[0] == ReleaseBuffer(bs[j], allocs[j])
    ensures (PairReleases(bs[j..], allocs[j..]) + tail)[1..] == PairReleases(bs[j + 1..], allocs[j + 1..]) + tail
  {
    assert bs[j..][1..] == bs[j + 1..] && allocs[j..][1..] == allocs[j + 1..];
  }

  lemma PairsDone(bs: seq<Handle>, allocs: seq<Handle>, j: nat)
    requires j == Min(|bs|, |allocs|)
    ensures PairReleases(bs[j..], allocs[j..]) == []
  {
  }

  lemma IndexStep(ibs: seq<IndexBuffer>, k: nat, tail: seq<Release>)
    requires k < |ibs|
    ensures (IndexReleases(ibs[k..]) + tail)[0] == ReleaseBuffer(ibs[k].buffer, ibs[k].allocation)
    ensures (IndexReleases(ibs[k..]) + tail)[1..] == IndexReleases(ibs[k + 1..]) + tail
  {
    assert ibs[k..][1..] == ibs[k + 1..];
  }

  lemma ImageStep(images: seq<Image>, n: nat)
    requires n < |images|
    ensures ImageReleases(images[n..])[0] == ReleaseImage(images[n].image, images[n].allocation)
    ensures ImageReleases(images[n..])[1..] == ImageReleases(images[n + 1..])
  {
    assert images[n..][1..] == images[n + 1..];
  }

  /**
   * Progress of the teardown: `done` is released — gone from memory and in
   * the log, in order — and `rest` is still owned once each, live and unmapped.
   */
  ghost predicate Teardown(memory: map<Handle, seq<byte>>, log: seq<Event>, mapped: set<Handle>,
                           all: seq<Release>, done: seq<Release>, rest: seq<Release>,
                           m0: map<Handle, seq<byte>>, l0: seq<Event>)
  {
    && all == done + rest
    && memory == m0 - AllocationSet(done)
    && log == l0 + ReleaseEvents(done)
    && Owns(Allocations(rest), memory, mapped)
  }

  /** The teardown starts with nothing released and every owned allocation still to go. */
  lemma TeardownStart(vbs: seq<VertexBuffers>, ibs: seq<IndexBuffer>, images: seq<Image>,
                      memory: map<Handle, seq<byte>>, log: seq<Event>, mapped: set<Handle>)
    requires OwnsLists(vbs, ibs, images, memory, mapped)
    ensures Teardown(memory, log, mapped, Releases(vbs, ibs, images), [],
                     VertexReleases(vbs) + (IndexReleases(ibs) + ImageReleases(images)), memory, log)
  {
    assert AllocationSet([]) == {};
    assert memory - {} == memory;
    assert [] + Releases(vbs, ibs, images) == Releases(vbs, ibs, images);
  }

  /**
   * The next release is of a live, unmapped allocation, and destroying it
   * moves it from `rest` to `done`.
   */
  lemma TeardownStep(memory: map<Handle, seq<byte>>, log: seq<Event>, mapped: set<Handle>,
                     all: seq<Release>, done: seq<Release>, rest: seq<Release>,
                     m0: map<Handle, seq<byte>>, l0: seq<Event>)
    requires Teardown(memory, log, mapped, all, done, rest, m0, l0) && rest != []
    ensures rest[0].allocation in memory && rest[0].allocation !in mapped
    ensures Teardown(memory - {rest[0].allocation}, log + [ReleaseEvent(rest[0])], mapped,
                     all, done + [rest[0]], rest[1..], m0, l0)
  {
    var r := rest[0];
    assert Allocations(rest) == [r.allocation] + Allocations(rest[1..]);
    OwnsTail(Allocations(rest), memory, mapped);
    assert Allocations(rest)[1..] == Allocations(rest[1..]);
    TeardownMemory(memory, done, r, m0);
    TeardownOrder(all, done, rest, log, l0);
  }

  /** Releasing the first owned allocation leaves the others owned. */
  lemma OwnsTail(hs: seq<Handle>, memory: map<Handle, seq<byte>>, mapped: set<Handle>)
    requires Owns(hs, memory, mapped) && hs != []
    ensures hs[0] in memory && hs[0] !in mapped
    ensures Owns(hs[1..], memory - {hs[0]}, mapped)
  {
    var t := hs[1..];
    assert forall i :: 0 <= i < |t| ==> t[i] == hs[i + 1];
    forall i | 0 <= i < |t|
      ensures t[i] in memory - {hs[0]}
    {
      assert hs[0] != hs[i + 1];
    }
  }

  lemma TeardownOrder(all: seq<Release>, done: seq<Release>, rest: seq<Release>, log: seq<Event>, l0: seq<Event>)
    requires all == done + rest && rest != [] && log == l0 + ReleaseEvents(done)
    ensures all == (done + [rest[0]]) + rest[1..]
    ensures log + [ReleaseEvent(rest[0])] == l0 + ReleaseEvents(done + [rest[0]])
  {
    assert rest == [rest[0]] + rest[1..];
    ReleasesAppend(done, [rest[0]]);
  }

  lemma TeardownMemory(memory: map<Handle, seq<byte>>, done: seq<Release>, r: Release, m0: map<Handle, seq<byte>>)
    requires memory == m0 - AllocationSet(done)
    ensures memory - {r.allocation} == m0 - AllocationSet(done + [r])
  {
    AllocationSetSnoc(done, r);
    assert (m0 - AllocationSet(done)) - {r.allocation} == m0 - AllocationSet(done + [r]);
  }

  lemma AllocationSetSnoc(rs: seq<Release>, r: Release)
    ensures AllocationSet(rs + [r]) == AllocationSet(rs) + {r.allocation}
  {
    ReleasesAppend(rs, [r]);
    assert Allocations([r]) == [r.allocation];
  }
}
