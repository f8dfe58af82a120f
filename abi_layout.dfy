/** The `#[repr(C)]` layout rule applied to the structs the bridge shares with
    the firmware. Each struct is a list of fields with their size and
    alignment; a field starts at the first multiple of its alignment at or
    after the end of the previous field, and the struct's size is rounded up
    to its largest alignment. The compile-time layout assertions of the
    bridge become lemmas about these lists. */
module AbiLayout {
  import opened Wrappers

  datatype Field = Field(name: string, size: nat, align: nat)

  predicate Aligned(fields: seq<Field>) {
    forall i :: 0 <= i < |fields| ==> fields[i].align > 0
  }

  function AlignUp(n: nat, a: nat): nat
    requires a > 0
  {
    if n % a == 0 then n else n + (a - n % a)
  }

  /** The start offset of every field when the struct is laid out from `start`. */
  function Offsets(fields: seq<Field>, start: nat): (offs: seq<nat>)
    requires Aligned(fields)
    ensures |offs| == |fields|
  {
    if fields == [] then []
    else
      var at := AlignUp(start, fields[0].align);
      [at] + Offsets(fields[1..], at + fields[0].size)
  }

  /** The offset just past the last field. */
  function End(fields: seq<Field>, start: nat): nat
    requires Aligned(fields)
  {
    if fields == [] then start
    else End(fields[1..], AlignUp(start, fields[0].align) + fields[0].size)
  }

  function MaxAlign(fields: seq<Field>): nat {
    if fields == [] then 1
    else var rest := MaxAlign(fields[1..]); if fields[0].align > rest then fields[0].align else rest
  }

  function SizeOf(fields: seq<Field>): nat
    requires Aligned(fields)
  {
    AlignUp(End(fields, 0), if MaxAlign(fields) > 0 then MaxAlign(fields) else 1)
  }

  /** `offset_of!`: the offset of the first field called `name`. */
  function OffsetOf(fields: seq<Field>, name: string): Option<nat>
    requires Aligned(fields)
  {
    var offs := Offsets(fields, 0);
    FindOffset(fields, offs, name)
  }

  function FindOffset(fields: seq<Field>, offs: seq<nat>, name: string): Option<nat>
    requires |offs| == |fields|
  {
    if fields == [] then None
    else if fields[0].name == name then Some(offs[0])
    else FindOffset(fields[1..], offs[1..], name)
  }

  function TotalSize(fields: seq<Field>): nat {
    if fields == [] then 0 else fields[0].size + TotalSize(fields[1..])
  }

  /** Running sums of the sizes, starting at `start`. */
  function PackedOffsets(fields: seq<Field>, start: nat): seq<nat> {
    if fields == [] then [] else [start] + PackedOffsets(fields[1..], start + fields[0].size)
  }

  /** Sums of multiples of 4 (or of 8) stay multiples of 4 (of 8). */
  lemma SumOfMultiples(x: nat, y: nat, a: nat)
    requires a == 4 || a == 8
    requires x % a == 0 && y % a == 0
    ensures (x + y) % a == 0
  {
    if a == 4 {
      assert (x + y) % 4 == 0;
    } else {
      assert (x + y) % 8 == 0;
    }
  }

  /** When every field has the same alignment `a` and a size that is a
      multiple of it, no padding is inserted: each field starts where the
      previous one ends, and the fields take exactly the sum of their sizes. */
  lemma {:induction false} NoPaddingWhenUniform(fields: seq<Field>, start: nat, a: nat)
    requires a == 4 || a == 8
    requires start % a == 0
    requires forall i :: 0 <= i < |fields| ==> fields[i].align == a && fields[i].size % a == 0
    ensures Aligned(fields)
    ensures Offsets(fields, start) == PackedOffsets(fields, start)
    ensures End(fields, start) == start + TotalSize(fields)
  {
    if fields != [] {
      var f := fields[0];
      var rest := fields[1..];
      assert f.align == a && f.size % a == 0;
      SumOfMultiples(start, f.size, a);
      forall i | 0 <= i < |rest| ensures rest[i].align == a && rest[i].size % a == 0 {
        assert rest[i] == fields[i + 1];
      }
      NoPaddingWhenUniform(rest, start + f.size, a);
      assert AlignUp(start, f.align) == start;
    }
  }

  /** A struct whose fields all have alignment `a` is itself aligned to `a`. */
  lemma {:induction false} MaxAlignUniform(fields: seq<Field>, a: nat)
    requires fields != [] && a > 0
    requires forall i :: 0 <= i < |fields| ==> fields[i].align == a
    ensures MaxAlign(fields) == a
  {
    if |fields| > 1 {
      MaxAlignUniform(fields[1..], a);
    }
  }

  /** Sizes that are all multiples of `a` add up to a multiple of `a`. */
  lemma {:induction false} TotalSizeMultiple(fields: seq<Field>, a: nat)
    requires a == 4 || a == 8
    requires forall i :: 0 <= i < |fields| ==> fields[i].size % a == 0
    ensures TotalSize(fields) % a == 0
  {
    if fields != [] {
      var rest := fields[1..];
      forall i | 0 <= i < |rest| ensures rest[i].size % a == 0 {
        assert rest[i] == fields[i + 1];
      }
      TotalSizeMultiple(rest, a);
      SumOfMultiples(fields[0].size, TotalSize(rest), a);
    }
  }

  /** A struct whose fields all have alignment `a` and sizes that are multiples
      of it has no tail padding: its size is the sum of its field sizes, which
      is where its last field ends. */
  lemma NoTailPaddingWhenUniform(fields: seq<Field>, a: nat)
    requires fields != [] && (a == 4 || a == 8)
    requires forall i :: 0 <= i < |fields| ==> fields[i].align == a && fields[i].size % a == 0
    ensures Aligned(fields)
    ensures SizeOf(fields) == End(fields, 0) == TotalSize(fields)
  {
    NoPaddingWhenUniform(fields, 0, a);
    MaxAlignUniform(fields, a);
    TotalSizeMultiple(fields, a);
  }

  /** `EfiBootServicesTable` up to `locate_protocol`: reserved 8-byte slots and 8-byte function pointers. */
  const BootServicesTableLayout: seq<Field> := [
    Field("_reserved0", 7 * 8, 8),
    Field("get_memory_map", 8, 8),
    Field("_reserved1", 21 * 8, 8),
    Field("exit_boot_services", 8, 8),
    Field("_reserved4", 10 * 8, 8),
    Field("locate_protocol", 8, 8)]

  /** `EfiSytemTable` up to the boot-services pointer. */
  const SystemTableLayout: seq<Field> := [
    Field("_reserved0", 12 * 8, 8),
    Field("boot_services", 8, 8)]

  /** `EfiGraphicsOutputProtocolPixelInfo`: nine `u32` words. */
  const PixelInfoLayout: seq<Field> := [
    Field("version", 4, 4),
    Field("horizontal_rsolution", 4, 4),
    Field("vertical_resolution", 4, 4),
    Field("_padding0", 5 * 4, 4),
    Field("pixels_per_scan_line", 4, 4)]

  /** `EfiMemoryDescriptor`: a `#[repr(i64)]` memory type and four `u64` fields. */
  const MemoryDescriptorLayout: seq<Field> := [
    Field("memory_type", 8, 8),
    Field("physical_start", 8, 8),
    Field("virtual_start", 8, 8),
    Field("number_of_pages", 8, 8),
    Field("attribute", 8, 8)]

  /** The three boot-services offsets the bridge asserts at compile time. */
  lemma BootServicesTableOffsets()
    ensures Aligned(BootServicesTableLayout)
    ensures OffsetOf(BootServicesTableLayout, "get_memory_map") == Some(7 * 8)
    ensures OffsetOf(BootServicesTableLayout, "exit_boot_services") == Some(7 * 8 + 8 + 21 * 8)
    ensures OffsetOf(BootServicesTableLayout, "locate_protocol") == Some(7 * 8 + 8 + 21 * 8 + 8 + 10 * 8)
    ensures OffsetOf(BootServicesTableLayout, "get_memory_map") == Some(56)
    ensures OffsetOf(BootServicesTableLayout, "exit_boot_services") == Some(232)
    ensures OffsetOf(BootServicesTableLayout, "locate_protocol") == Some(320)
  {
    NoPaddingWhenUniform(BootServicesTableLayout, 0, 8);
    assert Offsets(BootServicesTableLayout, 0) == [0, 56, 64, 232, 240, 320];
  }

  lemma SystemTableOffsets()
    ensures Aligned(SystemTableLayout)
    ensures OffsetOf(SystemTableLayout, "boot_services") == Some(12 * 8)
    ensures OffsetOf(SystemTableLayout, "boot_services") == Some(96)
  {
    NoPaddingWhenUniform(SystemTableLayout, 0, 8);
    assert Offsets(SystemTableLayout, 0) == [0, 96];
  }

  lemma PixelInfoSize()
    ensures Aligned(PixelInfoLayout)
    ensures SizeOf(PixelInfoLayout) == 9 * 4
    ensures SizeOf(PixelInfoLayout) == 36
  {
    NoPaddingWhenUniform(PixelInfoLayout, 0, 4);
    MaxAlignUniform(PixelInfoLayout, 4);
    assert End(PixelInfoLayout, 0) == 36;
  }

  /** The descriptor fields sit at 0, 8, 16, 24 and 32, and a descriptor takes 40 bytes. */
  lemma MemoryDescriptorLayoutIs()
    ensures Aligned(MemoryDescriptorLayout)
    ensures Offsets(MemoryDescriptorLayout, 0) == [0, 8, 16, 24, 32]
    ensures SizeOf(MemoryDescriptorLayout) == 40
  {
    NoPaddingWhenUniform(MemoryDescriptorLayout, 0, 8);
    MaxAlignUniform(MemoryDescriptorLayout, 8);
  }
}
