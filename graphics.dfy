/** Locating the graphics output protocol and describing its framebuffer
    (`locate_graphic_protocol`, `init_vram`, `VramBufferInfo`).

    The firmware's `locate_protocol` is a parameter: a function from the
    GUID asked for to the status and interface the firmware would return.
    The protocol, mode and pixel-information records are values. */
module Graphics {
  import opened Wrappers
  import opened Bytes
  import opened FirmwareAbi

  /** `EfiGraphicsOutputProtocolPixelInfo`, without its reserved words. */
  datatype PixelInfo = PixelInfo(
    version: u32,
    horizontalResolution: u32,
    verticalResolution: u32,
    pixelsPerScanLine: u32)

  /** `EfiGraphicsOutputProtocolMode`. */
  datatype GraphicsOutputProtocolMode = GraphicsOutputProtocolMode(
    maxMode: u32,
    mode: u32,
    info: PixelInfo,
    sizeOfInfo: u64,
    frameBufferBase: usize,
    frameBufferSize: usize)

  /** `EfiGraphicsOutputProtocol`, without its reserved words. */
  datatype GraphicsOutputProtocol = GraphicsOutputProtocol(mode: GraphicsOutputProtocolMode)

  /** What `locate_protocol` returns for one GUID: a status, and the
      interface written through the out-pointer (meaningful on success only). */
  datatype LocateReply = LocateReply(status: EfiStatus, interface: GraphicsOutputProtocol)

  const LOCATE_GOP_ERROR: string := "Failed to locate graphics output protocol"

  /** `locate_graphic_protocol`: ask the firmware for the graphics output
      protocol by its GUID; any status but success is the error message. */
  function LocateGraphicProtocol(locateProtocol: EfiGuid -> LocateReply): (r: Result<GraphicsOutputProtocol, string>)
    ensures var reply := locateProtocol(EFI_GRAPHICS_OUTPUT_PROTOCOL_GUID);
      && (r.Ok? <==> reply.status == SUCCESS)
      && (r.Ok? ==> r.value == reply.interface)
      && (r.Err? ==> r.error == LOCATE_GOP_ERROR)
  {
    var reply := locateProtocol(EFI_GRAPHICS_OUTPUT_PROTOCOL_GUID);
    if reply.status != SUCCESS then Err(LOCATE_GOP_ERROR) else Ok(reply.interface)
  }

  /** `VramBufferInfo`: where the framebuffer starts and its geometry in pixels. */
  datatype VramBufferInfo = VramBufferInfo(buf: usize, width: i64, height: i64, pixelsPerLine: i64)
  {
    /** The bridge assumes 4 bytes per pixel, whatever the pixel format. */
    function BytesPerPixel(): (n: i64)
      ensures n == 4
    {
      4
    }
  }

  /** `init_vram`: propagate the locate error, or copy the framebuffer base
      and the resolution fields, each `u32` widened to `i64`. */
  function InitVram(locateProtocol: EfiGuid -> LocateReply): (r: Result<VramBufferInfo, string>)
    ensures var reply := locateProtocol(EFI_GRAPHICS_OUTPUT_PROTOCOL_GUID);
      && (r.Err? <==> reply.status != SUCCESS)
      && (r.Err? ==> r.error == LOCATE_GOP_ERROR)
      && (r.Ok? ==>
            var mode := reply.interface.mode;
            && r.value.buf == mode.frameBufferBase
            && r.value.width == mode.info.horizontalResolution as int
            && r.value.height == mode.info.verticalResolution as int
            && r.value.pixelsPerLine == mode.info.pixelsPerScanLine as int
            && r.value.BytesPerPixel() == 4)
  {
    match LocateGraphicProtocol(locateProtocol)
    case Err(e) => Err(e)
    case Ok(gp) =>
      Ok(VramBufferInfo(
        gp.mode.frameBufferBase,
        gp.mode.info.horizontalResolution as int,
        gp.mode.info.verticalResolution as int,
        gp.mode.info.pixelsPerScanLine as int))
  }

  /** The result depends on the firmware's answer for the graphics output
      GUID only: what it would answer for any other protocol is never asked. */
  lemma InitVramAsksOnlyForGop(l1: EfiGuid -> LocateReply, l2: EfiGuid -> LocateReply)
    requires l1(EFI_GRAPHICS_OUTPUT_PROTOCOL_GUID) == l2(EFI_GRAPHICS_OUTPUT_PROTOCOL_GUID)
    ensures InitVram(l1) == InitVram(l2)
    ensures LocateGraphicProtocol(l1) == LocateGraphicProtocol(l2)
  {
  }

  /** Firmware without a graphics output protocol answers EFI_NOT_FOUND, whatever it leaves
      behind the out-pointer; `init_vram` then fails with the locate message. */
  lemma NoGraphicsOutput(leftOver: GraphicsOutputProtocol)
    ensures InitVram(_ => LocateReply(NOT_FOUND, leftOver)) == Err(LOCATE_GOP_ERROR)
  {
  }
}
