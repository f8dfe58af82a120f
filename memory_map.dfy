/** The memory-map snapshot (`MemoryMapHolder`) and the iterator over it
    (`MemoryMapIterator`). The holder owns a fixed 0x8000-byte buffer that the
    firmware fills; the iterator walks it from offset 0 in steps of the
    firmware-reported descriptor size and stops once the offset reaches the
    used size. */
module MemoryMap {
  import opened Wrappers
  import opened Bytes
  import opened FirmwareAbi
  import AbiLayout

  const MEMORY_MAP_BUFFER_SIZE: nat := 0x8000

  /** The size of the descriptor record this layer reads (see DecodeReadsLayoutFields).
      The firmware's stride may be larger. */
  const DESCRIPTOR_BYTES: nat := 40

  /** One memory descriptor as the bridge reads it. The memory type is kept as
      the raw 64-bit tag found in memory; `MemoryType` decodes it. */
  datatype EfiMemoryDescriptor = EfiMemoryDescriptor(
    memoryTypeTag: i64,
    physicalStart: u64,
    virtualStart: u64,
    numberOfPages: u64,
    attribute: u64)
  {
    /** The memory type, or None when the tag is not one UEFI defines. */
    function MemoryType(): (t: Option<EfiMemoryType>)
      ensures t.Some? <==> 0 <= memoryTypeTag < MEMORY_TYPE_COUNT
      ensures t.Some? ==> Tag(t.value) == memoryTypeTag
    {
      FromTag(memoryTypeTag)
    }

    function NumberOfPages(): (n: u64) {
      numberOfPages
    }
  }

  function U64At(b: seq<u8>, at: nat): u64
    requires at + 8 <= |b|
  {
    LeU64(b[at..at + 8])
  }

  /** Reads the 40-byte record: the tag at 0, then the four `u64` fields at 8, 16, 24 and 32. */
  function DecodeDescriptor(b: seq<u8>): EfiMemoryDescriptor
    requires |b| == DESCRIPTOR_BYTES
  {
    EfiMemoryDescriptor(AsI64(U64At(b, 0)), U64At(b, 8), U64At(b, 16), U64At(b, 24), U64At(b, 32))
  }

  /** The 40 bytes the firmware writes for a descriptor. */
  function EncodeDescriptor(d: EfiMemoryDescriptor): (b: seq<u8>)
    ensures |b| == DESCRIPTOR_BYTES
  {
    U64Bytes(AsU64(d.memoryTypeTag)) + U64Bytes(d.physicalStart) + U64Bytes(d.virtualStart)
      + U64Bytes(d.numberOfPages) + U64Bytes(d.attribute)
  }

  /** Decoding what the firmware wrote gives back the descriptor. */
  lemma DecodeEncode(d: EfiMemoryDescriptor)
    ensures DecodeDescriptor(EncodeDescriptor(d)) == d
  {
    var b := EncodeDescriptor(d);
    assert b[0..8] == U64Bytes(AsU64(d.memoryTypeTag));
    assert b[8..16] == U64Bytes(d.physicalStart);
    assert b[16..24] == U64Bytes(d.virtualStart);
    assert b[24..32] == U64Bytes(d.numberOfPages);
    assert b[32..40] == U64Bytes(d.attribute);
  }

  /** Every 40-byte record is the encoding of the descriptor decoded from it: decoding loses nothing. */
  lemma EncodeDecode(b: seq<u8>)
    requires |b| == DESCRIPTOR_BYTES
    ensures EncodeDescriptor(DecodeDescriptor(b)) == b
  {
    U64BytesOfLeU64(b[0..8]);
    AsU64OfAsI64(U64At(b, 0));
    U64BytesOfLeU64(b[8..16]);
    U64BytesOfLeU64(b[16..24]);
    U64BytesOfLeU64(b[24..32]);
    U64BytesOfLeU64(b[32..40]);
    assert b == b[0..8] + b[8..16] + b[16..24] + b[24..32] + b[32..40];
  }

  /** The record this layer reads is the C layout of the descriptor: it is as long as that
      layout, and each field is read at the offset the layout gives it. */
  lemma DecodeReadsLayoutFields(b: seq<u8>)
    requires |b| == DESCRIPTOR_BYTES
    ensures DESCRIPTOR_BYTES == AbiLayout.SizeOf(AbiLayout.MemoryDescriptorLayout)
    ensures var o := AbiLayout.Offsets(AbiLayout.MemoryDescriptorLayout, 0);
      && |o| == 5
      && (forall i :: 0 <= i < 5 ==> o[i] + 8 <= |b|)
      && DecodeDescriptor(b) == EfiMemoryDescriptor(
           AsI64(U64At(b, o[0])), U64At(b, o[1]), U64At(b, o[2]), U64At(b, o[3]), U64At(b, o[4]))
  {
    AbiLayout.MemoryDescriptorLayoutIs();
  }

  /** The two getters of a descriptor read from a record: the memory type decodes the signed
      tag in the layout's first field, and the page count is the layout's fourth field. */
  lemma DescriptorGetters(b: seq<u8>)
    requires |b| == DESCRIPTOR_BYTES
    ensures var o := AbiLayout.Offsets(AbiLayout.MemoryDescriptorLayout, 0);
      && |o| == 5 && o[0] + 8 <= |b| && o[3] + 8 <= |b|
      && DecodeDescriptor(b).MemoryType() == FromTag(AsI64(LeU64(b[o[0]..o[0] + 8])))
      && DecodeDescriptor(b).NumberOfPages() == LeU64(b[o[3]..o[3] + 8])
  {
    AbiLayout.MemoryDescriptorLayoutIs();
  }

  function DescriptorAt(buf: seq<u8>, ofs: nat): EfiMemoryDescriptor
    requires ofs + DESCRIPTOR_BYTES <= |buf|
  {
    DecodeDescriptor(buf[ofs..ofs + DESCRIPTOR_BYTES])
  }

  /** The offsets an iterator at `ofs` visits: ofs, ofs + stride, … while below `used`. */
  function VisitedOffsets(ofs: nat, used: nat, stride: nat): seq<nat>
    requires stride > 0
    decreases used - ofs
  {
    if ofs >= used then [] else [ofs] + VisitedOffsets(ofs + stride, used, stride)
  }

  /** Every record the iterator reads from `ofs` on lies inside a buffer of `len` bytes. */
  predicate Readable(ofs: nat, used: nat, stride: nat, len: nat)
    requires stride > 0
    decreases used - ofs
  {
    ofs >= used || (ofs + DESCRIPTOR_BYTES <= len && Readable(ofs + stride, used, stride, len))
  }

  /** The descriptors an iterator at `ofs` still yields. */
  function Remaining(buf: seq<u8>, ofs: nat, used: nat, stride: nat): seq<EfiMemoryDescriptor>
    requires stride > 0 && Readable(ofs, used, stride, |buf|)
    decreases used - ofs
  {
    if ofs >= used then [] else [DescriptorAt(buf, ofs)] + Remaining(buf, ofs + stride, used, stride)
  }

  lemma MulMono(a: nat, b: nat, s: nat)
    requires a <= b
    ensures a * s <= b * s
  {
  }

  lemma MulSucc(a: nat, s: nat)
    ensures (a + 1) * s == a * s + s
  {
  }

  lemma MulCancelLess(a: nat, b: nat, s: nat)
    requires a * s < b * s
    ensures a < b
  {
    if a >= b {
      MulMono(b, a, s);
      assert false;
    }
  }

  lemma MulCancelLessEqual(a: nat, b: nat, s: nat)
    requires s > 0 && a * s <= b * s
    ensures a <= b
  {
    assert (b + 1) * s == b * s + s;
    if a > b {
      MulMono(b + 1, a, s);
      assert false;
    }
  }

  /** The visited offsets are ofs + i·stride, all below `used`, and the next one would not be. */
  lemma {:induction false} OffsetsArithmetic(ofs: nat, used: nat, stride: nat)
    requires stride > 0
    ensures var o := VisitedOffsets(ofs, used, stride);
      && (forall i :: 0 <= i < |o| ==> o[i] == ofs + i * stride && o[i] < used)
      && ofs + |o| * stride >= used
    decreases used - ofs
  {
    if ofs < used {
      OffsetsArithmetic(ofs + stride, used, stride);
      var o := VisitedOffsets(ofs, used, stride);
      var t := VisitedOffsets(ofs + stride, used, stride);
      assert o == [ofs] + t;
      forall i | 0 <= i < |o|
        ensures o[i] == ofs + i * stride && o[i] < used
      {
        if i > 0 {
          assert o[i] == t[i - 1] == ofs + stride + (i - 1) * stride;
        }
      }
      assert ofs + |o| * stride == ofs + stride + |t| * stride;
    }
  }

  /** The iterator yields, in order, the record decoded at each visited offset. */
  lemma {:induction false} RemainingDecodesOffsets(buf: seq<u8>, ofs: nat, used: nat, stride: nat)
    requires stride > 0 && Readable(ofs, used, stride, |buf|)
    ensures var o := VisitedOffsets(ofs, used, stride);
      var r := Remaining(buf, ofs, used, stride);
      && |r| == |o|
      && forall i :: 0 <= i < |o| ==> o[i] + DESCRIPTOR_BYTES <= |buf| && r[i] == DescriptorAt(buf, o[i])
    decreases used - ofs
  {
    if ofs < used {
      RemainingDecodesOffsets(buf, ofs + stride, used, stride);
      var o := VisitedOffsets(ofs, used, stride);
      var r := Remaining(buf, ofs, used, stride);
      var o' := VisitedOffsets(ofs + stride, used, stride);
      var r' := Remaining(buf, ofs + stride, used, stride);
      assert o == [ofs] + o' && r == [DescriptorAt(buf, ofs)] + r';
      forall i | 0 <= i < |o|
        ensures o[i] + DESCRIPTOR_BYTES <= |buf| && r[i] == DescriptorAt(buf, o[i])
      {
        if i > 0 {
          assert o[i] == o'[i - 1] && r[i] == r'[i - 1];
        }
      }
    }
  }

  /** With used size U and stride S > 0, iteration from offset 0 decodes exactly
      at 0, S, 2S, … below U, in buffer order, and yields n items with
      (n - 1)·S < U <= n·S, i.e. n = ⌈U / S⌉. */
  lemma IterationVisitsStrideMultiples(buf: seq<u8>, used: nat, stride: nat)
    requires stride > 0 && Readable(0, used, stride, |buf|)
    ensures var r := Remaining(buf, 0, used, stride);
      && |r| * stride >= used
      && (|r| > 0 ==> (|r| - 1) * stride < used)
      && forall i :: 0 <= i < |r| ==> i * stride < used && i * stride + DESCRIPTOR_BYTES <= |buf|
                                      && r[i] == DescriptorAt(buf, i * stride)
  {
    OffsetsArithmetic(0, used, stride);
    RemainingDecodesOffsets(buf, 0, used, stride);
    var o := VisitedOffsets(0, used, stride);
    var r := Remaining(buf, 0, used, stride);
    forall i | 0 <= i < |r|
      ensures i * stride < used && i * stride + DESCRIPTOR_BYTES <= |buf| && r[i] == DescriptorAt(buf, i * stride)
    {
      assert o[i] == i * stride;
    }
    if |o| > 0 {
      assert o[|o| - 1] == (|o| - 1) * stride;
    }
  }

  /** Every multiple of the stride below the used size is visited. */
  lemma EveryStrideBelowUsedIsVisited(buf: seq<u8>, used: nat, stride: nat, k: nat)
    requires stride > 0 && Readable(0, used, stride, |buf|)
    requires k * stride < used
    ensures k < |Remaining(buf, 0, used, stride)|
    ensures k * stride + DESCRIPTOR_BYTES <= |buf|
    ensures Remaining(buf, 0, used, stride)[k] == DescriptorAt(buf, k * stride)
  {
    IterationVisitsStrideMultiples(buf, used, stride);
    var n := |Remaining(buf, 0, used, stride)|;
    MulCancelLess(k, n, stride);
  }

  /** When the used size is exactly n strides, iteration yields exactly n = U / S items. */
  lemma ItemCountWhenAligned(buf: seq<u8>, n: nat, stride: nat)
    requires stride > 0 && Readable(0, n * stride, stride, |buf|)
    ensures |Remaining(buf, 0, n * stride, stride)| == n
    ensures |Remaining(buf, 0, n * stride, stride)| == (n * stride) / stride
  {
    IterationVisitsStrideMultiples(buf, n * stride, stride);
    var m := |Remaining(buf, 0, n * stride, stride)|;
    MulCancelLessEqual(n, m, stride);
    if m > 0 {
      MulCancelLess(m - 1, n, stride);
    }
  }

  /** With stride at least the record size, a map of n whole strides that fits
      in the buffer is readable from every stride boundary. */
  lemma {:induction false} ReadableWhenStrideCoversRecord(k: nat, n: nat, stride: nat, len: nat)
    requires stride >= DESCRIPTOR_BYTES && k <= n && n * stride <= len
    ensures Readable(k * stride, n * stride, stride, len)
    decreases n - k
  {
    if k < n {
      MulMono(k + 1, n, stride);
      assert k * stride + stride == (k + 1) * stride;
      ReadableWhenStrideCoversRecord(k + 1, n, stride, len);
    }
  }

  /** `buf` holds, from `ofs` on, the encodings of `ds`, one stride apart, each stride inside the buffer. */
  ghost predicate HoldsEncoded(buf: seq<u8>, ds: seq<EfiMemoryDescriptor>, ofs: nat, stride: nat)
    requires stride >= DESCRIPTOR_BYTES
    decreases |ds|
  {
    ds == [] ||
    (&& ofs + stride <= |buf|
     && buf[ofs..ofs + DESCRIPTOR_BYTES] == EncodeDescriptor(ds[0])
     && HoldsEncoded(buf, ds[1..], ofs + stride, stride))
  }

  /** A record written as the encoding of `d` decodes to `d`. */
  lemma DescriptorAtEncoded(buf: seq<u8>, ofs: nat, d: EfiMemoryDescriptor)
    requires ofs + DESCRIPTOR_BYTES <= |buf| && buf[ofs..ofs + DESCRIPTOR_BYTES] == EncodeDescriptor(d)
    ensures DescriptorAt(buf, ofs) == d
  {
    DecodeEncode(d);
  }

  /** One step of the iterator below the used size: the record at `ofs`, then the rest from `ofs + stride`. */
  lemma RemainingStep(buf: seq<u8>, ofs: nat, used: nat, stride: nat)
    requires stride > 0 && ofs < used && ofs + DESCRIPTOR_BYTES <= |buf|
    requires Readable(ofs + stride, used, stride, |buf|)
    ensures Readable(ofs, used, stride, |buf|)
    ensures Remaining(buf, ofs, used, stride) == [DescriptorAt(buf, ofs)] + Remaining(buf, ofs + stride, used, stride)
  {
  }

  /** Records encoded one stride apart from `ofs` are read back, in order, by an iterator at `ofs`
      whose used size `used` ends right after the last stride. */
  lemma {:induction false} EncodedFrom(buf: seq<u8>, ds: seq<EfiMemoryDescriptor>, ofs: nat, stride: nat, used: nat)
    requires stride >= DESCRIPTOR_BYTES && HoldsEncoded(buf, ds, ofs, stride)
    requires used == ofs + |ds| * stride
    ensures Readable(ofs, used, stride, |buf|)
    ensures Remaining(buf, ofs, used, stride) == ds
    decreases |ds|
  {
    if ds == [] {
    } else {
      var rest := ds[1..];
      MulSucc(|rest|, stride);
      EncodedFrom(buf, rest, ofs + stride, stride, used);
      DescriptorAtEncoded(buf, ofs, ds[0]);
      RemainingStep(buf, ofs, used, stride);
      assert ds == [ds[0]] + rest;
    }
  }

  /** A map the firmware wrote as descriptors `ds`, one per stride, is iterated
      back into exactly `ds`, in the order the firmware wrote them. */
  lemma EncodedMapDecodes(buf: seq<u8>, ds: seq<EfiMemoryDescriptor>, stride: nat)
    requires stride >= DESCRIPTOR_BYTES && HoldsEncoded(buf, ds, 0, stride)
    ensures Readable(0, |ds| * stride, stride, |buf|)
    ensures Remaining(buf, 0, |ds| * stride, stride) == ds
  {
    EncodedFrom(buf, ds, 0, stride, |ds| * stride);
  }

  /** Three 40-byte descriptors in a map of used size 120 and stride 40 give exactly those three, in order. */
  lemma ThreeDescriptorMap(buf: seq<u8>, d0: EfiMemoryDescriptor, d1: EfiMemoryDescriptor, d2: EfiMemoryDescriptor)
    requires |buf| >= 120
    requires buf[0..40] == EncodeDescriptor(d0) && buf[40..80] == EncodeDescriptor(d1)
    requires buf[80..120] == EncodeDescriptor(d2)
    ensures Readable(0, 120, 40, |buf|)
    ensures Remaining(buf, 0, 120, 40) == [d0, d1, d2]
  {
    var ds := [d0, d1, d2];
    assert HoldsEncoded(buf, ds[3..], 120, 40);
    assert HoldsEncoded(buf, ds[2..], 80, 40);
    assert HoldsEncoded(buf, ds[1..], 40, 40);
    assert HoldsEncoded(buf, ds, 0, 40);
    EncodedMapDecodes(buf, ds, 40);
  }

  /** The firmware's memory map as the bridge owns it. */
  class MemoryMapHolder {
    const memoryMapBuffer: array<u8>
    var memoryMapSize: nat
    var mapKey: nat
    var descriptorSize: nat
    var descriptorVersion: nat

    ghost predicate Valid()
      reads this
    {
      memoryMapBuffer.Length == MEMORY_MAP_BUFFER_SIZE
    }

    /** The used part of the buffer is exactly `bytes`. */
    ghost predicate Holds(bytes: seq<u8>)
      reads this, memoryMapBuffer
    {
      memoryMapSize == |bytes| <= memoryMapBuffer.Length && memoryMapBuffer[..memoryMapSize] == bytes
    }

    /** `MemoryMapHolder::new`: an all-zero buffer, the whole capacity offered as used size, and zero key, stride and version. */
    constructor ()
      ensures Valid() && fresh(memoryMapBuffer)
      ensures forall i :: 0 <= i < memoryMapBuffer.Length ==> memoryMapBuffer[i] == 0
      ensures memoryMapSize == MEMORY_MAP_BUFFER_SIZE
      ensures mapKey == 0 && descriptorSize == 0 && descriptorVersion == 0
    {
      memoryMapBuffer := new u8[MEMORY_MAP_BUFFER_SIZE](_ => 0);
      memoryMapSize := MEMORY_MAP_BUFFER_SIZE;
      mapKey := 0;
      descriptorSize := 0;
      descriptorVersion := 0;
    }

    /** Offers the whole buffer as room for the next capture; nothing else changes. */
    method OfferWholeBuffer()
      modifies this
      ensures memoryMapSize == memoryMapBuffer.Length
      ensures mapKey == old(mapKey) && descriptorSize == old(descriptorSize)
      ensures descriptorVersion == old(descriptorVersion)
    {
      memoryMapSize := memoryMapBuffer.Length;
    }

    /** `iter`: a fresh iterator over this holder, at offset 0. */
    method Iter() returns (it: MemoryMapIterator)
      ensures fresh(it) && it.holder == this && it.ofs == 0
    {
      it := new MemoryMapIterator(this);
    }
  }

  class MemoryMapIterator {
    const holder: MemoryMapHolder
    var ofs: nat

    constructor (holder: MemoryMapHolder)
      ensures this.holder == holder && ofs == 0
    {
      this.holder := holder;
      ofs := 0;
    }

    /** `next`: None once the offset has reached the used size; otherwise the
        record at the offset, after which the offset grows by the descriptor
        size. The holder is only read. */
    method Next() returns (r: Option<EfiMemoryDescriptor>)
      requires ofs < holder.memoryMapSize ==> ofs + DESCRIPTOR_BYTES <= holder.memoryMapBuffer.Length
      modifies this
      ensures r.None? <==> old(ofs) >= holder.memoryMapSize
      ensures r.None? ==> ofs == old(ofs)
      ensures r.Some? ==> r.value == DescriptorAt(holder.memoryMapBuffer[..], old(ofs))
                          && ofs == old(ofs) + holder.descriptorSize
      ensures holder.descriptorSize > 0 && Readable(old(ofs), holder.memoryMapSize, holder.descriptorSize, holder.memoryMapBuffer.Length) ==>
                Readable(ofs, holder.memoryMapSize, holder.descriptorSize, holder.memoryMapBuffer.Length)
      ensures holder.descriptorSize > 0 && Readable(old(ofs), holder.memoryMapSize, holder.descriptorSize, holder.memoryMapBuffer.Length) ==>
                Remaining(holder.memoryMapBuffer[..], old(ofs), holder.memoryMapSize, holder.descriptorSize)
                == if r.None? then [] else [r.value] + Remaining(holder.memoryMapBuffer[..], ofs, holder.memoryMapSize, holder.descriptorSize)
    {
      if ofs >= holder.memoryMapSize {
        r := None;
      } else {
        r := Some(DecodeDescriptor(holder.memoryMapBuffer[ofs..ofs + DESCRIPTOR_BYTES]));
        ofs := ofs + holder.descriptorSize;
      }
    }
  }

  /** Moving one item from the front of what remains to the end of what was collected keeps the whole. */
  lemma CollectedSoFar<T>(all: seq<T>, items: seq<T>, x: T, rest: seq<T>, rest': seq<T>)
    requires all == items + rest && rest == [x] + rest'
    ensures all == (items + [x]) + rest'
  {
  }

  /** Runs an iterator until it yields None, as a `for` loop over it does;
      the items are exactly the remaining descriptors. */
  method Collect(it: MemoryMapIterator) returns (items: seq<EfiMemoryDescriptor>)
    requires it.holder.descriptorSize > 0
    requires Readable(it.ofs, it.holder.memoryMapSize, it.holder.descriptorSize, it.holder.memoryMapBuffer.Length)
    modifies it
    ensures items == Remaining(it.holder.memoryMapBuffer[..], old(it.ofs), it.holder.memoryMapSize, it.holder.descriptorSize)
    ensures it.ofs >= it.holder.memoryMapSize
  {
    var holder := it.holder;
    ghost var buf := holder.memoryMapBuffer[..];
    ghost var used := holder.memoryMapSize;
    ghost var stride := holder.descriptorSize;
    ghost var start := it.ofs;
    items := [];
    while true
      invariant holder.memoryMapBuffer[..] == buf
      invariant holder.memoryMapSize == used && holder.descriptorSize == stride
      invariant Readable(it.ofs, used, stride, |buf|)
      invariant Remaining(buf, start, used, stride) == items + Remaining(buf, it.ofs, used, stride)
      decreases if it.ofs < used then used - it.ofs else 0
    {
      ghost var rest := Remaining(buf, it.ofs, used, stride);
      var r := it.Next();
      if r.None? {
        return;
      }
      CollectedSoFar(Remaining(buf, start, used, stride), items, r.value, rest, Remaining(buf, it.ofs, used, stride));
      items := items + [r.value];
    }
  }

  /** Calling `iter` twice on the same holder yields the same sequence both times:
      the descriptors at 0, S, 2S, … below the used size. */
  method IterateTwice(holder: MemoryMapHolder) returns (first: seq<EfiMemoryDescriptor>, second: seq<EfiMemoryDescriptor>)
    requires holder.descriptorSize > 0
    requires Readable(0, holder.memoryMapSize, holder.descriptorSize, holder.memoryMapBuffer.Length)
    ensures first == second
    ensures first == Remaining(holder.memoryMapBuffer[..], 0, holder.memoryMapSize, holder.descriptorSize)
  {
    var it := holder.Iter();
    first := Collect(it);
    var again := holder.Iter();
    second := Collect(again);
  }

  /** A map of used size 120 and stride 40 holding three encoded descriptors:
      three calls of `next` yield them in order and a fourth yields None. */
  method IterateThreeDescriptors(holder: MemoryMapHolder, d0: EfiMemoryDescriptor, d1: EfiMemoryDescriptor, d2: EfiMemoryDescriptor)
    returns (items: seq<EfiMemoryDescriptor>, fourth: Option<EfiMemoryDescriptor>)
    requires holder.memoryMapSize == 120 && holder.descriptorSize == 40 && holder.memoryMapBuffer.Length >= 120
    requires holder.memoryMapBuffer[0..40] == EncodeDescriptor(d0)
    requires holder.memoryMapBuffer[40..80] == EncodeDescriptor(d1)
    requires holder.memoryMapBuffer[80..120] == EncodeDescriptor(d2)
    ensures items == [d0, d1, d2]
    ensures fourth == None
  {
    var it := holder.Iter();
    var a := it.Next();
    var b := it.Next();
    var c := it.Next();
    fourth := it.Next();
    DecodeEncode(d0);
    DecodeEncode(d1);
    DecodeEncode(d2);
    assert holder.memoryMapBuffer[..][40..80] == holder.memoryMapBuffer[40..80];
    assert holder.memoryMapBuffer[..][80..120] == holder.memoryMapBuffer[80..120];
    assert holder.memoryMapBuffer[..][0..40] == holder.memoryMapBuffer[0..40];
    items := [a.value, b.value, c.value];
  }
}
