/** The firmware-facing vocabulary of the bridge: status codes, handles, the
    graphics-output GUID and the closed list of memory types (section 7.2 of
    the UEFI Specification, EFI_MEMORY_TYPE). */
module FirmwareAbi {
  import opened Wrappers
  import opened Bytes

  /** EFI_STATUS, a 64-bit code; the bridge only tells 0 (Success) from every other value. */
  datatype EfiStatus = EfiStatus(code: u64)

  const SUCCESS: EfiStatus := EfiStatus(0)
  /** Error codes of Appendix D of the UEFI Specification that the modelled firmware returns. */
  const INVALID_PARAMETER: EfiStatus := EfiStatus(0x8000_0000_0000_0002)
  const BUFFER_TOO_SMALL: EfiStatus := EfiStatus(0x8000_0000_0000_0005)
  const NOT_FOUND: EfiStatus := EfiStatus(0x8000_0000_0000_000e)

  type EfiHandle = u64

  datatype EfiGuid = EfiGuid(data0: u32, data1: u16, data2: u16, data3: seq<u8>)

  const EFI_GRAPHICS_OUTPUT_PROTOCOL_GUID: EfiGuid :=
    EfiGuid(0x9042a9de, 0x23dc, 0x4a38, [0x96, 0xfb, 0x7a, 0xde, 0xd0, 0x80, 0x51, 0x6a])

  /** The memory types, in declaration order. */
  datatype EfiMemoryType =
    | Reserved
    | LoaderCode
    | LoaderData
    | BootServicesCode
    | BootServicesData
    | RuntimeServicesCode
    | RuntimeServicesData
    | ConventionalMemory
    | UnusableMemory
    | AcpiReclaimMemory
    | AcpiMemoryNvs
    | MemoryMappedIo
    | MemoryMappedIoPortSpace
    | PalCode
    | PersistentMemory

  const MEMORY_TYPE_COUNT: nat := 15

  /** The declaration order of `EfiMemoryType`. */
  const MemoryTypesInDeclarationOrder: seq<EfiMemoryType> := [
    Reserved, LoaderCode, LoaderData, BootServicesCode, BootServicesData,
    RuntimeServicesCode, RuntimeServicesData, ConventionalMemory, UnusableMemory,
    AcpiReclaimMemory, AcpiMemoryNvs, MemoryMappedIo, MemoryMappedIoPortSpace,
    PalCode, PersistentMemory]

  /** The discriminant of each memory type: the value UEFI assigns to it. */
  function Tag(t: EfiMemoryType): (n: i64)
    ensures 0 <= n < MEMORY_TYPE_COUNT
  {
    match t
    case Reserved => 0
    case LoaderCode => 1
    case LoaderData => 2
    case BootServicesCode => 3
    case BootServicesData => 4
    case RuntimeServicesCode => 5
    case RuntimeServicesData => 6
    case ConventionalMemory => 7
    case UnusableMemory => 8
    case AcpiReclaimMemory => 9
    case AcpiMemoryNvs => 10
    case MemoryMappedIo => 11
    case MemoryMappedIoPortSpace => 12
    case PalCode => 13
    case PersistentMemory => 14
  }

  /** Decodes a tag read from firmware memory; a tag outside the list is rejected, never coerced. */
  function FromTag(n: int): (r: Option<EfiMemoryType>)
    ensures r.Some? <==> 0 <= n < MEMORY_TYPE_COUNT
    ensures r.Some? ==> Tag(r.value) == n
  {
    if n == 0 then Some(Reserved)
    else if n == 1 then Some(LoaderCode)
    else if n == 2 then Some(LoaderData)
    else if n == 3 then Some(BootServicesCode)
    else if n == 4 then Some(BootServicesData)
    else if n == 5 then Some(RuntimeServicesCode)
    else if n == 6 then Some(RuntimeServicesData)
    else if n == 7 then Some(ConventionalMemory)
    else if n == 8 then Some(UnusableMemory)
    else if n == 9 then Some(AcpiReclaimMemory)
    else if n == 10 then Some(AcpiMemoryNvs)
    else if n == 11 then Some(MemoryMappedIo)
    else if n == 12 then Some(MemoryMappedIoPortSpace)
    else if n == 13 then Some(PalCode)
    else if n == 14 then Some(PersistentMemory)
    else None
  }

  /** Decoding the tag of a memory type gives that memory type back. */
  lemma FromTagOfTag(t: EfiMemoryType)
    ensures FromTag(Tag(t)) == Some(t)
  {
  }

  /** The tags run 0, 1, …, 14 in declaration order, and every variant is listed once. */
  lemma TagsFollowDeclarationOrder()
    ensures |MemoryTypesInDeclarationOrder| == MEMORY_TYPE_COUNT
    ensures forall i :: 0 <= i < MEMORY_TYPE_COUNT ==> Tag(MemoryTypesInDeclarationOrder[i]) == i
    ensures forall t: EfiMemoryType :: t in MemoryTypesInDeclarationOrder
  {
    forall t: EfiMemoryType ensures t in MemoryTypesInDeclarationOrder {
      assert MemoryTypesInDeclarationOrder[Tag(t)] == t;
    }
  }

  /** Distinct memory types carry distinct tags. */
  lemma TagInjective(s: EfiMemoryType, t: EfiMemoryType)
    requires Tag(s) == Tag(t)
    ensures s == t
  {
    FromTagOfTag(s);
    FromTagOfTag(t);
  }
}
