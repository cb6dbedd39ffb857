/** How the shared segment is sized and cut up before anything is played. */
module Layout {
  import opened Basics

  const BUFFER_SECS := 5
  const SRCH_BLKS := 2
  const OLAP_BLKS := 4
  const STR_LEN := 20
  const MAX_CHUNK_BLKS := 225

  /** The record cd_size_t. */
  datatype Sizes = Sizes(
    chunkBlocks: nat, chunkBytes: nat,
    bufferChunks: nat, bufferBlocks: nat, bufferBytes: nat,
    olapBlocks: nat, olapBytes: nat,
    searchBlocks: nat, searchBytes: nat, strLength: nat,
    size: nat)

  /** Sizes of the three structures at the head of the segment. */
  datatype Headers = Headers(sizes: nat, info: nat, buffer: nat) {
    function Total(): nat { sizes + info + buffer }
  }

  /** The sizes every later computation relies on. */
  predicate Consistent(z: Sizes, jitter: bool) {
    && 1 <= z.chunkBlocks <= 225
    && z.chunkBytes == Bytes(z.chunkBlocks)
    && z.bufferChunks >= 1
    && z.bufferBlocks == z.bufferChunks * z.chunkBlocks
    && z.bufferBytes == z.bufferChunks * z.chunkBytes
    && z.searchBytes == (if jitter then 2 * 2352 else 0)
    && z.olapBlocks == (if jitter then 4 else 0)
    && z.olapBytes == 2 * z.searchBytes == Bytes(z.olapBlocks)
    && z.strLength == 20
  }

  /** A region of the segment: where it starts and how long it is. */
  datatype Region = Region(at: nat, len: nat)

  /** The regions follow each other without gap or overlap and fill 0..end. */
  predicate Tile(rs: seq<Region>, end: nat) {
    && rs != [] && rs[0].at == 0
    && (forall i :: 1 <= i < |rs| ==> rs[i].at == rs[i - 1].at + rs[i - 1].len)
    && rs[|rs| - 1].at + rs[|rs| - 1].len == end
  }

  /** The pointers of cd_state_t and cd_buffer_t, as offsets into the segment. */
  class SharedSegment {
    const headers: Headers
    var sizes: Sizes
    var info: nat
    var buffer: nat
    var olap: nat
    var data: nat
    var b: nat

    constructor (headers: Headers) {
      this.headers := headers;
    }

    /** The six regions of the segment, in the order of their addresses. */
    function Regions(): seq<Region>
      reads this
    {
      [Region(0, headers.sizes), Region(info, headers.info), Region(buffer, headers.buffer),
       Region(olap, 2 * sizes.searchBytes), Region(data, sizes.chunkBytes + 2 * sizes.olapBytes),
       Region(b, sizes.bufferBytes)]
    }

    /** cdda_pthr_getshm: work out the sizes, then point into the segment.  The
        six regions tile the segment, and the ring holds at least five seconds
        but not a whole chunk more. */
    method GetShm(readChunkBlocks: nat, jitterCorr: bool)
      requires 1 <= readChunkBlocks <= MAX_CHUNK_BLKS
      modifies this
      ensures Consistent(sizes, jitterCorr) && sizes.chunkBlocks == readChunkBlocks
      ensures 5 * 75 <= sizes.bufferBlocks < 5 * 75 + sizes.chunkBlocks
      ensures Tile(Regions(), sizes.size)
    {
      var chunkBytes := Bytes(readChunkBlocks);
      var olapBlocks, searchBlocks := 0, 0;
      if jitterCorr {
        olapBlocks, searchBlocks := OLAP_BLKS, SRCH_BLKS;
      }
      var bufferChunks := (FRAME_PER_SEC * BUFFER_SECS) / readChunkBlocks;
      if (FRAME_PER_SEC * BUFFER_SECS) % readChunkBlocks != 0 {
        bufferChunks := bufferChunks + 1;
      }
      RoundUp(FRAME_PER_SEC * BUFFER_SECS, readChunkBlocks, bufferChunks);
      var bufferBytes := bufferChunks * chunkBytes;
      var olapBytes := Bytes(olapBlocks);
      var searchBytes := Bytes(searchBlocks);
      var size := headers.sizes + headers.info + headers.buffer;
      size := size + 2 * searchBytes;
      size := size + chunkBytes + 2 * olapBytes;
      size := size + bufferBytes;
      sizes := Sizes(readChunkBlocks, chunkBytes, bufferChunks, bufferChunks * readChunkBlocks, bufferBytes,
                     olapBlocks, olapBytes, searchBlocks, searchBytes, STR_LEN, size);
      info := headers.sizes;
      buffer := info + headers.info;
      olap := buffer + headers.buffer;
      data := olap + 2 * searchBytes;
      b := data + chunkBytes + 2 * olapBytes;
    }

    /** cdda_pthr_initipc: a thread that attaches computes the addresses again. */
    method InitIpc()
      modifies this`info, this`buffer, this`olap, this`data, this`b
      ensures Tile(old(Regions()), sizes.size) ==> Regions() == old(Regions())
    {
      ghost var before := Regions();
      info := headers.sizes;
      buffer := info + headers.info;
      olap := buffer + headers.buffer;
      data := olap + 2 * sizes.searchBytes;
      b := data + sizes.chunkBytes + 2 * sizes.olapBytes;
      if Tile(before, sizes.size) {
        assert before[1].at == headers.sizes && before[2].at == before[1].at + headers.info;
        assert before[3].at == before[2].at + headers.buffer && before[4].at == before[3].at + before[3].len;
        assert before[5].at == before[4].at + before[4].len;
      }
    }
  }

  /** Where slot i of the ring lies in the segment. */
  function Slot(b: nat, z: Sizes, i: nat): Region {
    Region(b + z.chunkBytes * i, z.chunkBytes)
  }

  /** The slots tile the ring: each lies in it, and starts where the one before ends. */
  lemma {:induction false} SlotsTile(z: Sizes, jitter: bool, b: nat, i: nat)
    requires Consistent(z, jitter) && i < z.bufferChunks
    ensures b <= Slot(b, z, i).at && Slot(b, z, i).at + Slot(b, z, i).len <= b + z.bufferBytes
    ensures i > 0 ==> Slot(b, z, i).at == Slot(b, z, i - 1).at + Slot(b, z, i - 1).len
    ensures i == z.bufferChunks - 1 ==> Slot(b, z, i).at + Slot(b, z, i).len == b + z.bufferBytes
  {
    if i > 0 { NextMultiple(z.chunkBytes, i - 1); }
    MultiplesFit(z.chunkBytes, i, z.bufferChunks);
  }

  lemma NextMultiple(unit: nat, i: nat)
    ensures unit * (i + 1) == unit * i + unit
  {
  }

  lemma {:induction false} MultiplesFit(unit: nat, i: nat, n: nat)
    requires i < n
    ensures unit * i + unit <= n * unit
    ensures i == n - 1 ==> unit * i + unit == n * unit
    decreases n
  {
    NextMultiple(unit, n - 1);
    if i < n - 1 {
      MultiplesFit(unit, i, n - 1);
    }
  }

  lemma RoundUp(total: nat, unit: nat, chunks: nat)
    requires unit >= 1 && total >= 1
    requires chunks == total / unit + (if total % unit != 0 then 1 else 0)
    ensures chunks >= 1 && total <= chunks * unit < total + unit
  {
    assert total == (total / unit) * unit + total % unit;
    assert (total / unit + 1) * unit == (total / unit) * unit + unit;
  }
}
