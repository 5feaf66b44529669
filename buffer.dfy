/**
 * Per-mesh GPU buffers (src/engine/renderer/resources/buffer.rs): every
 * uploaded mesh owns one vertex-buffer set and one index buffer, each filled
 * by create → map → copy → unmap through the memory allocator.
 */
module Buffer {
  import opened Vk
  import opened Gpu
  import Bytes
  import Mesh

  /** Parallel lists: buffer i is bound at offset i and lives in allocation i. */
  datatype VertexBuffers = VertexBuffers(buffers: seq<Handle>, offsets: seq<nat>, allocations: seq<Handle>)

  datatype IndexBuffer = IndexBuffer(buffer: Handle, indexType: IndexType, offset: nat, allocation: Handle)

  /** The allocation info of both uploads: AUTO usage, sequential host writes. */
  const HOST_WRITE_ALLOCATION: AllocationCreateInfo := AllocationCreateInfo(AutoUsage, {HostAccessSequentialWrite}, {})

  /** The copy of `size_of_val(indices)` bytes of `Vec<u32>`. */
  function IndicesBytes(indices: seq<u32>): (b: seq<byte>)
    ensures |b| == INDEX_SIZE * |indices|
  {
    Bytes.WordsBytes(indices)
  }

  /** The driver calls of one upload. */
  function UploadEvents(buffer: Handle, allocation: Handle, size: nat, usage: BufferUsage): seq<Event> {
    [Event.CreateBuffer(buffer, allocation, size, usage, HOST_WRITE_ALLOCATION),
     Event.MapMemory(allocation),
     Event.CopyMemory(allocation, size),
     Event.UnmapMemory(allocation)]
  }

  /**
   * `allocate_buffer`: create a buffer with an allocation of `|data|` bytes,
   * map it, copy exactly `|data|` bytes in, unmap.  A failed map returns the
   * error and the buffer just created is neither returned nor destroyed.
   */
  method AllocateBuffer(driver: Driver, data: seq<byte>, usage: BufferUsage, fault: Option<Fault>)
    returns (r: Outcome<(Handle, Handle)>)
    requires driver.Valid()
    modifies driver`log, driver`memory, driver`mapped, driver`next
    ensures driver.Valid()
    ensures !r.Panic?
    ensures r.Err? <==> fault == Some(BufferCreateFails(usage)) || fault == Some(BufferMapFails(usage))
    ensures driver.mapped == old(driver.mapped)
    ensures fault == Some(BufferCreateFails(usage)) ==>
              driver.memory == old(driver.memory) && driver.log == old(driver.log) && driver.next == old(driver.next)
    ensures fault == Some(BufferMapFails(usage)) ==>
              && driver.next == old(driver.next) + 2
              && driver.memory == old(driver.memory)[old(driver.next) + 1 := Zeros(|data|)]
              && driver.log == old(driver.log) + [Event.CreateBuffer(old(driver.next), old(driver.next) + 1, |data|, usage, HOST_WRITE_ALLOCATION)]
    ensures r.Ok? ==>
              var (buffer, allocation) := r.value;
              && buffer == old(driver.next) && allocation == old(driver.next) + 1 && driver.next == old(driver.next) + 2
              && driver.memory == old(driver.memory)[allocation := data]
              && driver.log == old(driver.log) + UploadEvents(buffer, allocation, |data|, usage)
  {
    if fault == Some(BufferCreateFails(usage)) {
      return Err;
    }
    var buffer, allocation := driver.CreateBuffer(|data|, usage, HOST_WRITE_ALLOCATION);
    if fault == Some(BufferMapFails(usage)) {
      return Err;
    }
    assert allocation !in old(driver.mapped);
    driver.MapMemory(allocation);
    driver.CopyMemory(allocation, data);
    assert data + Zeros(|data|)[|data|..] == data;
    driver.UnmapMemory(allocation);
    r := Ok((buffer, allocation));
  }

  /** The two lists of `AllocatedBuffers`, indexed by mesh. */
  class AllocatedBuffers {
    var vertexBuffers: seq<VertexBuffers>
    var indexBuffers: seq<IndexBuffer>

    /** `Default::default()`: no buffers. */
    constructor ()
      ensures vertexBuffers == [] && indexBuffers == []
    {
      vertexBuffers, indexBuffers := [], [];
    }

    /**
     * `upload_mesh`: the vertices go into a new vertex buffer, the indices
     * into a new index buffer, and one entry is pushed onto each list.  The
     * vertex entry is pushed before the index upload starts, so a failing
     * index upload leaves the vertex list one entry longer.
     */
    method UploadMesh(driver: Driver, mesh: Mesh.Mesh, fault: Option<Fault>) returns (r: Outcome<()>)
      requires driver.Valid()
      modifies this, driver`log, driver`memory, driver`mapped, driver`next
      ensures driver.Valid()
      ensures !r.Panic?
      ensures driver.mapped == old(driver.mapped)
      ensures old(driver.memory).Keys <= driver.memory.Keys
      ensures r.Err? <==> fault in {Some(BufferCreateFails(VertexBufferUsage)), Some(BufferMapFails(VertexBufferUsage)),
                                    Some(BufferCreateFails(IndexBufferUsage)), Some(BufferMapFails(IndexBufferUsage))}
      ensures fault in {Some(BufferCreateFails(VertexBufferUsage)), Some(BufferMapFails(VertexBufferUsage))} ==>
                vertexBuffers == old(vertexBuffers) && indexBuffers == old(indexBuffers)
      ensures fault in {Some(BufferCreateFails(IndexBufferUsage)), Some(BufferMapFails(IndexBufferUsage))} ==>
                && vertexBuffers == old(vertexBuffers) + [VertexBuffers([old(driver.next)], [0], [old(driver.next) + 1])]
                && indexBuffers == old(indexBuffers)
                && old(driver.next) + 1 in driver.memory
      ensures r.Ok? ==>
                var vb, va, ib, ia := old(driver.next), old(driver.next) + 1, old(driver.next) + 2, old(driver.next) + 3;
                && vertexBuffers == old(vertexBuffers) + [VertexBuffers([vb], [0], [va])]
                && indexBuffers == old(indexBuffers) + [IndexBuffer(ib, Uint32, 0, ia)]
                && driver.next == old(driver.next) + 4
                && driver.memory == old(driver.memory)[va := Mesh.VerticesBytes(mesh.vertices)][ia := IndicesBytes(mesh.indices)]
                && driver.log == old(driver.log) +
                                 UploadEvents(vb, va, Mesh.VERTEX_SIZE * |mesh.vertices|, VertexBufferUsage) +
                                 UploadEvents(ib, ia, INDEX_SIZE * |mesh.indices|, IndexBufferUsage)
    {
      var vertexBytes := Mesh.VerticesBytes(mesh.vertices);
      var vertex := AllocateBuffer(driver, vertexBytes, VertexBufferUsage, fault);
      if vertex.Err? {
        return Err;
      }
      var (buffer, allocation) := vertex.value;
      vertexBuffers := vertexBuffers + [VertexBuffers([buffer], [0], [allocation])];

      var indexBytes := IndicesBytes(mesh.indices);
      var index := AllocateBuffer(driver, indexBytes, IndexBufferUsage, fault);
      if index.Err? {
        return Err;
      }
      var (ibuffer, iallocation) := index.value;
      indexBuffers := indexBuffers + [IndexBuffer(ibuffer, Uint32, 0, iallocation)];
      r := Ok(());
    }
  }

  /**
   * What an upload leaves in the allocator reads back as the mesh: the vertex
   * allocation decodes to the vertices and the index allocation to the indices.
   */
  lemma UploadRoundTrip(mesh: Mesh.Mesh)
    ensures Mesh.VerticesFromBytes(Mesh.VerticesBytes(mesh.vertices)) == mesh.vertices
    ensures Bytes.WordsFromBytes(IndicesBytes(mesh.indices)) == mesh.indices
  {
    Mesh.VerticesRoundTrip(mesh.vertices);
    Bytes.WordsRoundTrip(mesh.indices);
  }
}
