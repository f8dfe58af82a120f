# UEFI bridge: memory map, boot exit, framebuffer and text cursor

This project models the sequential logic in `src/uefi.rs`, the layer
between a hobby x86-64 kernel and UEFI firmware:

- **Memory-map holder and iterator.** `MemoryMapHolder` owns a fixed
  0x8000-byte buffer that the firmware fills, plus the used size, map key,
  descriptor size and descriptor version. `MemoryMapIterator` walks that
  buffer from offset 0 in steps of the firmware-reported descriptor size
  (not the 40-byte record size). It decodes a 40-byte `EfiMemoryDescriptor`
  at each step and stops once the offset reaches the used size.
- **`EfiMemoryType`.** The 15 memory types with their UEFI tags 0 to 14,
  and a decoder that rejects unknown tags.
- **ABI layout.** The C layout rule (each field starts at the next multiple
  of its alignment). Applied to the boot-services table, the system table,
  the pixel-information record and the memory descriptor, it derives the
  compile-time asserted constants 56, 232, 320, 96 and 36.
- **Boot-services exit loop.** `get_memory_map` writes the map into the
  holder in place, then `exit_from_efi_boot_services` asks for exit with
  the key just captured. It repeats until exit succeeds, and aborts when a
  capture fails. The firmware is a mock:
  - it keeps a current map and key;
  - it keeps a script of the maps its own allocations produce, one applied
    before each exit request;
  - it keeps a ghost log of every call made to it.
- **Framebuffer description.** `locate_graphic_protocol` and `init_vram`.
  The firmware's `locate_protocol` is a function parameter from a GUID to a
  reply.
- **Text cursor.** `VramTextWriter::new` and `write_str`. Each glyph drawn
  is recorded, with its position, colour and character, in a ghost log.

Modules:

| file | module |
|---|---|
| `wrappers.dfy` | `Wrappers` |
| `bytes.dfy` | `Bytes`: little-endian codec, two's-complement `i64` |
| `firmware_abi.dfy` | `FirmwareAbi` |
| `abi_layout.dfy` | `AbiLayout` |
| `memory_map.dfy` | `MemoryMap` |
| `boot_services.dfy` | `BootServices` |
| `graphics.dfy` | `Graphics` |
| `text_writer.dfy` | `TextWriter` |

Two points where the model follows what the code does:

- **Iteration count.** With used size U and stride S > 0, the iterator reads
  at 0, S, 2S, … for every offset below U. That is ⌈U/S⌉ records, which
  equals ⌊U/S⌋ only when S divides U; `ItemCountWhenAligned` states that
  case. When S does not divide U, the last record read starts below U but
  its stride reaches past U.
- **Memory-type tag.** The descriptor keeps the raw 64-bit tag read from
  memory, and `MemoryType()` decodes it to `Option<EfiMemoryType>`. The Rust
  code reinterprets the bytes as the enum directly; that is undefined for a
  tag outside 0..14.

Status codes are the one place where the model follows the evident intent
rather than the compiled code; the first line under "## Left out" says what
the Rust `EfiStatus` does instead.

## Model

| member | source | states |
|---|---|---|
| FirmwareAbi.Tag | src/uefi.rs:36-56 | every memory type's tag lies in 0..14 |
| FirmwareAbi.FromTag | src/uefi.rs:36-56 | decoding a tag succeeds exactly for 0..14, and the decoded type carries that tag; every other tag is rejected |
| FirmwareAbi.FromTagOfTag | src/uefi.rs:36-56 | decoding the tag of any memory type gives that type back |
| FirmwareAbi.TagsFollowDeclarationOrder | src/uefi.rs:40-56 | the 15 variants, in declaration order RESERVED … PERSISTENT_MEMORY, carry tags 0, 1, …, 14, and every variant appears in that list |
| FirmwareAbi.TagInjective | src/uefi.rs:40-56 | distinct memory types have distinct tags |
| AbiLayout.NoPaddingWhenUniform | src/uefi.rs:126-151 | when every field has one alignment (4 or 8) and a size that is a multiple of it, the C layout puts each field right after the previous one, and the fields end at start + the sum of their sizes |
| AbiLayout.MaxAlignUniform | src/uefi.rs:185-194 | a struct whose fields all have alignment a is itself aligned to a |
| AbiLayout.NoTailPaddingWhenUniform | src/uefi.rs:185-194 | when every field has alignment a (4 or 8) and a size that is a multiple of a, the struct's size is the sum of its field sizes, which is where its last field ends: there is no tail padding |
| AbiLayout.BootServicesTableOffsets | src/uefi.rs:126-151 | `get_memory_map` lies at 7·8 = 56, `exit_boot_services` at 56 + 8 + 21·8 = 232, `locate_protocol` at 232 + 8 + 10·8 = 320 (the asserts at src/uefi.rs:169-171) |
| AbiLayout.SystemTableOffsets | src/uefi.rs:173-178 | `boot_services` lies at 12·8 = 96 |
| AbiLayout.PixelInfoSize | src/uefi.rs:185-194 | the pixel-information record takes 9·4 = 36 bytes |
| AbiLayout.MemoryDescriptorLayoutIs | src/uefi.rs:58-66 | the descriptor fields lie at 0, 8, 16, 24 and 32, and a descriptor takes 40 bytes |
| MemoryMap.EncodeDescriptor | src/uefi.rs:58-66 | a descriptor occupies exactly 40 bytes |
| MemoryMap.DecodeEncode | src/uefi.rs:58-66 | decoding the 40 bytes the firmware writes for a descriptor gives that descriptor back |
| MemoryMap.EncodeDecode | src/uefi.rs:117-119 | the record cast at an offset loses nothing: every 40-byte record is the encoding of the descriptor read from it |
| MemoryMap.DecodeReadsLayoutFields | src/uefi.rs:117-119 | the record the cast reads is as long as the C layout of the descriptor (40 bytes), and each of the five fields is read at the offset that layout gives it |
| MemoryMap.EfiMemoryDescriptor.MemoryType | src/uefi.rs:69-71 | the memory type is defined exactly when the raw tag is 0..14, and then it is the type carrying that tag; any other tag gives None (the source returns the enum and has no such case) |
| MemoryMap.DescriptorGetters | src/uefi.rs:69-74 | for a descriptor read from a record, `memory_type()` decodes the signed tag in the layout's first field and `number_of_pages()` is the `u64` in its fourth field, at offset 24 |
| MemoryMap.MemoryMapHolder.constructor | src/uefi.rs:77-95 | `new()` gives an all-zero 0x8000-byte buffer, used size 0x8000, and key, descriptor size and version 0 |
| MemoryMap.MemoryMapHolder.Iter | src/uefi.rs:96-98 | a new iterator over this holder, at offset 0 |
| MemoryMap.MemoryMapIterator.Next | src/uefi.rs:113-122 | returns None exactly when the offset has reached the used size, and then nothing changes. Otherwise it returns the descriptor decoded at the offset and advances the offset by the descriptor size; the holder is only read. When every read from the old offset was inside the buffer, every read from the new offset still is, and the items still to come are the one returned followed by those from the new offset |
| MemoryMap.Collect | src/uefi.rs:110-123 | running an iterator to exhaustion yields exactly the descriptors at the remaining stride offsets, and leaves the offset at or past the used size |
| MemoryMap.IterateTwice | src/uefi.rs:96-122 | iterating the same holder twice yields the identical sequence: `iter()` restarts at 0 |
| MemoryMap.IterateThreeDescriptors | src/uefi.rs:96-122 | with used size 120 and stride 40, the iterator yields exactly the three encoded descriptors, and a fourth `next()` returns None |
| MemoryMap.OffsetsArithmetic | src/uefi.rs:113-122 | the offsets visited from ofs are ofs + i·S, in increasing order and all below U, and the next one, ofs + count·S, is not below U |
| MemoryMap.RemainingDecodesOffsets | src/uefi.rs:113-122 | the i-th item yielded is the record decoded at the i-th visited offset |
| MemoryMap.IterationVisitsStrideMultiples | src/uefi.rs:113-122 | the iteration yields ⌈U/S⌉ items, the i-th decoded at i·S < U, in buffer order; no offset at or above U is read |
| MemoryMap.EveryStrideBelowUsedIsVisited | src/uefi.rs:113-122 | every multiple k·S below U is visited, as the k-th item |
| MemoryMap.ItemCountWhenAligned | src/uefi.rs:113-122 | when U = n·S the iteration yields exactly n = U/S items |
| MemoryMap.ReadableWhenStrideCoversRecord | src/uefi.rs:113-122 | with stride ≥ 40 and U = n·S inside the buffer, every record read lies inside the buffer |
| MemoryMap.EncodedFrom | src/uefi.rs:113-122 | a buffer holding the encodings of ds at successive strides from ofs yields exactly ds from ofs |
| MemoryMap.EncodedMapDecodes | src/uefi.rs:113-122 | a map written as the records of ds, one per stride S ≥ 40 iterates back to exactly ds |
| MemoryMap.ThreeDescriptorMap | src/uefi.rs:113-122 | three records written at 0, 40 and 80, with used size 120 and stride 40, iterate to exactly those three descriptors |
| BootServices.EfiBootServicesTable.GetMemoryMap | src/uefi.rs:152-163 | the capture writes through the holder's fields. A map larger than the offered size gets EFI_BUFFER_TOO_SMALL and only the required size is written back. Otherwise the map bytes go at the start of the buffer (the rest unchanged), and the size, the current key, the stride and the version are written. Each call is counted and logged |
| BootServices.EfiBootServicesTable.ExitBootServices | src/uefi.rs:139-142 | the firmware first applies its next scripted map change, which issues a new key. The request succeeds exactly when the key passed is the current key, and only then are boot services exited |
| BootServices.RoundsAsWritten | src/uefi.rs:305-319 | as written, the loop exits exactly when no map is larger than the size offered to its capture (the previous map's size), and then it captures once per map |
| BootServices.RoundsWithReset | src/uefi.rs:305-319 | when the size is reset to the capacity before every capture, the loop exits exactly when every map fits in the 0x8000-byte buffer, and then it captures once per map |
| BootServices.CaptureAndRequestExit | src/uefi.rs:312-318 | one round of the loop. If the map does not fit the offered size, the capture fails with EFI_BUFFER_TOO_SMALL and no exit is requested. The holder then has the required size, its buffer, key, stride and version unchanged, and the firmware's map, key and script are unchanged. Otherwise the holder holds the map with the firmware's stride and version, the buffer past the map unchanged, and the exit request carries the key the capture returned, which is the firmware's current key at capture time. The holder keeps that key, and the firmware's key then advances by one exactly when it applied a pending map change. The request succeeds exactly when the firmware's map did not change in between, and then the firmware's map, key and empty script are those of the capture. The calls returned are the ones the firmware logged |
| BootServices.ExitFromEfiBootServices | src/uefi.rs:305-319 | the loop returns normally exactly when boot services were exited; otherwise it aborts on a capture that returned EFI_BUFFER_TOO_SMALL. The calls returned are exactly those appended to the firmware's call record, and they form failed rounds (a successful capture, then an exit request with that capture's key, refused), followed by a round whose exit succeeded or by one failed capture. The capture count and the outcome agree with `Rounds` run from the firmware's maps, without a size reset. On exit the firmware has applied every scripted map change: its script is empty, its key is the initial key plus the number of changes, and its map is the last scripted map (the initial map when there was none). The holder holds that map, its key, its stride and its version |
| BootServices.ExitFromEfiBootServicesResettingSize | src/uefi.rs:305-319 | the same guarantees for the loop that resets the holder's size to the capacity before each capture; the capture count and the outcome agree with `Rounds` with reset. On exit the firmware's script is empty, its key is the initial key plus the number of scripted changes, and its map is the last scripted map (the initial map when there was none). The holder holds that map, its key, its stride and its version |
| BootServices.StaleKeyOnce | src/uefi.rs:305-319 | with firmware whose first exit request fails on a stale key and whose second succeeds, the loop exits after exactly two captures |
| BootServices.GrowingMapAsWritten | src/uefi.rs:305-319 | when the map grows between the first capture and the retry, the loop as written aborts on EFI_BUFFER_TOO_SMALL after two captures |
| BootServices.GrowingMapResettingSize | src/uefi.rs:305-319 | the same firmware with the size reset before each capture: two captures, then exit |
| Graphics.LocateGraphicProtocol | src/uefi.rs:213-233 | the firmware is asked for the graphics-output GUID. The result is Ok with the returned interface exactly when the status is success; otherwise it is "Failed to locate graphics output protocol" |
| Graphics.InitVram | src/uefi.rs:244-271 | Err with the locate message exactly when locating fails, and then no framebuffer is described. Otherwise `buf`, `width`, `height` and `pixels_per_line` are the frame-buffer base, horizontal and vertical resolution and scan-line length, widened to i64, and `bytes_per_pixel` is 4 |
| Graphics.InitVramAsksOnlyForGop | src/uefi.rs:213-233 | the result depends only on the firmware's reply for the graphics-output GUID |
| Graphics.NoGraphicsOutput | src/uefi.rs:213-233 | firmware that answers EFI_NOT_FOUND makes `init_vram` fail with the locate message, whatever it left behind the out-pointer |
| Graphics.VramBufferInfo.BytesPerPixel | src/uefi.rs:245-247 | every pixel of the described framebuffer takes 4 bytes, whatever its geometry |
| TextWriter.VramTextWriter.constructor | src/uefi.rs:279-288 | `new` starts the cursor at (0, 0) on the given framebuffer, having drawn nothing |
| TextWriter.VramTextWriter.WriteStr | src/uefi.rs:289-303 | `write_str` always returns Ok. Its new cursor and the draws it logs are `CursorAfter` and `DrawsFor` of the string from the old cursor |
| TextWriter.WriteConcat | src/uefi.rs:289-303 | writing s and then t moves the cursor and draws exactly as writing s + t |
| TextWriter.DrawsArePrintable | src/uefi.rs:291-299 | one draw per non-newline character, the characters in order, all in colour 0xffffff |
| TextWriter.DrawnAtCursor | src/uefi.rs:291-299 | each non-newline character is drawn at the cursor position reached by the characters before it |
| TextWriter.CursorLine | src/uefi.rs:293-295 | final y = start y + 16 · (number of newlines) |
| TextWriter.CursorColumnWithinLine | src/uefi.rs:298-299 | in a string without newlines, x grows by 8 per character and y stays |
| TextWriter.CursorColumnAfterNewline | src/uefi.rs:293-299 | after the last newline, x is 8 · (number of characters after it): a newline returns x to 0 |

## Left out

- BootServices.CaptureAndRequestExit, BootServices.ExitFromEfiBootServices, BootServices.ExitFromEfiBootServicesResettingSize and Graphics.LocateGraphicProtocol: the model's `EfiStatus` is the firmware's 64-bit status code, tested as 0 for success and anything else for failure. The failure branches of these members follow that test: the retry after a refused exit request, the `Aborted` outcome on a failed capture, and the `Err` of the locate. The Rust `EfiStatus` (src/uefi.rs:32-34) declares only `Success = 0`. A non-zero status from the firmware is therefore an invalid value of the enum, which is undefined behaviour. The derived equality of a one-variant enum also ignores the value, so the compiled code cannot observe a failure: `assert_eq!` at src/uefi.rs:313 never fires, the test at src/uefi.rs:316 always breaks after the first round, and src/uefi.rs:227 never returns the error. The model does not capture that behaviour.
- Raw-pointer casts and unsafe dereferences (src/uefi.rs:117-119, 232): a descriptor is decoded from the 40 bytes at the offset, and the graphics-output records are values.
- The `extern "win64"` calling convention and real firmware calls: `get_memory_map`, `exit_boot_services` and `locate_protocol` are a mock object and a function parameter. Each returns a 64-bit status, where 0 is success.
- Drawing and glyphs: `draw_font_fg` and the `Bitmap` trait come from `crate::graphics`, which is not part of this model. Each draw call is only recorded; no pixels are modelled.
- `EfiSytemTable::boot_services` is a field read; the mock table is passed to the exit loop directly.
- MemoryMap.MemoryMapIterator.Next: the iterator needs `descriptor_size > 0` to terminate and `ofs + 40 <= buffer length` for every read. Both are preconditions of the iteration members rather than modelled behaviour. A freshly created holder has descriptor size 0, so iterating it never ends.
- `usize` and `i64` overflow: `ofs += descriptor_size` and the cursor updates `+= 8` and `+= 16` are modelled on unbounded integers, so wrap-around and overflow panics are not modelled.
- BootServices.EfiBootServicesTable.GetMemoryMap: requires the holder's size to be at most its buffer's length, which the source's public `get_memory_map` does not guarantee. After an EFI_BUFFER_TOO_SMALL the holder's size holds the required size, which may exceed 0x8000; a second call on the same holder would then offer the firmware more room than the buffer has, and the firmware could write past it. The exit loop never makes that call, because `assert_eq!` aborts on the failed capture, so the model leaves that overrun out rather than modelling writes outside the buffer. The same precondition is on CaptureAndRequestExit and ExitFromEfiBootServices.
- BootServices.EfiBootServicesTable.GetMemoryMap: the descriptor version is a `u32` in the source and a `nat` here. The firmware's own checks on a null buffer or null size pointer are not modelled, because the bridge always passes valid pointers.
- The exit loop has no retry cap. Its termination relies on the mock firmware's finite script of map changes; once the script is exhausted the key stops changing, so the next exit request succeeds.
- `fmt::Write`, lifetimes, `Default for MemoryMapHolder` (the same as `new`), and the `Debug`/`Clone` derivations are language plumbing.
- The GUID bytes are a fixed constant, not decoded.

## Findings

| source | as written | input that shows it | evidently intended | confidence | as-written member | corrected member |
|---|---|---|---|---|---|---|
| src/uefi.rs:305-319 | each retry calls `get_memory_map` with `memory_map_size` still holding the previous map's size. UEFI reads that argument as the room available, so the buffer counts as only as large as the last map | first map 48 bytes; before the first exit request, the firmware's allocations grow it to 96 bytes. The retry capture gets EFI_BUFFER_TOO_SMALL and `assert_eq!` aborts, although the 0x8000-byte buffer has room. This reads statuses as 0 for success and anything else for failure; see the first line under "## Left out" | reset `memory_map_size` to the buffer capacity before each capture, so the retry succeeds whenever the map fits in the buffer | medium, not executed | BootServices.GrowingMapAsWritten | BootServices.ExitFromEfiBootServicesResettingSize |
