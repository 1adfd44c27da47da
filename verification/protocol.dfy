/**
 * The PLUG417 serial protocol as the driver's header lays it out: frame
 * delimiters, functional classes and pages, option codes, value domains,
 * and the packed payload structures.
 *
 * The header overlays the structures on one raw byte area; here every
 * structure is read from and written to a byte sequence at explicit
 * offsets, big-endian for the multi-byte fields.
 */
module Protocol {
  import opened Bytes

  // Frame delimiters.
  const FrameHeader0: Byte := 0x55
  const FrameHeader1: Byte := 0xAA
  const FrameEnd: Byte := 0xF0

  // Functional classes (the first byte of every command or query).
  const StatusClass: Byte := 0
  const SetupClass: Byte := 1
  const VideoClass: Byte := 2
  const ApplicationClass: Byte := 3
  const TemperatureMeasurementClass: Byte := 4
  const ExpertClass: Byte := 5

  // Pages of the video class.
  const AnalogVideoPageNo: Byte := 0
  const DigitalVideoPageNo: Byte := 1
  const AlgorithmSettingPageNo: Byte := 2

  // Options of the setup page.
  const OptionAutomaticCompensationTime: Byte := 1
  const OptionImageFreezing: Byte := 2
  const OptionTestScreenSwitching: Byte := 3
  const OptionSaveSettings: Byte := 4
  const OptionRestoreToFactoryDefault: Byte := 5
  const OptionRisingOfTemperatureCalibration: Byte := 7
  const OptionShutterControl: Byte := 8

  const CommandNotFreezing := 0
  const CommandFreezing := 1

  // Test screens.
  const TestRealTimeImage := 0
  const TestCheckerBoardPattern := 1
  const TestRowGradientsPattern := 2
  const TestLineGradientsPattern := 3
  const TestScreenMax := TestLineGradientsPattern

  // Options of the analog video page. The header's macros for options 7 and
  // 8 contain a space in their names, so only the option numbers are usable.
  const OptionAnalogVideoSwitch: Byte := 1
  const OptionVideoSystemSwitching: Byte := 2
  const OptionFrameRateSetting: Byte := 3
  const OptionPseudoColor: Byte := 4
  const OptionMirrorImage: Byte := 5
  const OptionEZoom: Byte := 6
  const OptionCoordinateXZoomedArea: Byte := 7
  const OptionCoordinateYZoomedArea: Byte := 8
  const OptionHotspotTrackSwitch: Byte := 9

  // Pseudo-colour palettes.
  const ColorWhiteHot := 0
  const ColorFulgurite := 1
  const ColorIronRed := 2
  const ColorHotIron := 3
  const ColorMedical := 4
  const ColorArctic := 5
  const ColorRainbow1 := 6
  const ColorRainbow2 := 7
  const ColorTint := 8
  const ColorBlackHot := 9
  const ColorMax := ColorBlackHot

  // Mirror modes.
  const MirrorNone := 0
  const MirrorX := 1
  const MirrorY := 2
  const MirrorXY := 3
  const MirrorMax := MirrorXY

  // Options of the digital video page.
  const OptionExternalSynchronizationSwitch: Byte := 1
  const OptionDigitalPortParallelType: Byte := 2
  const OptionCmosContentSelection: Byte := 3
  const OptionCmosInterfaceType: Byte := 4
  const OptionDigitalFrameRateSetting: Byte := 5
  const OptionMipiSwitch: Byte := 6
  const OptionSceneCompensation: Byte := 7
  const OptionShutterCompensation: Byte := 8

  const CmosContentYuv422 := 0
  const CmosContentYuv422ParamLine := 1
  const CmosContentYuv16 := 2
  const CmosContentYuv16ParamLine := 3
  const CmosContentY16Yuv422 := 4
  const CmosContentYuv16ParamLineYuv422 := 5
  const CmosContentMax := CmosContentYuv16ParamLineYuv422

  const CmosInterfaceCmos16 := 0
  const CmosInterfaceCmos8Msb := 1
  const CmosInterfaceCmos8Lsb := 2
  const CmosInterfaceMax := CmosInterfaceCmos8Lsb

  // Options of the algorithm-setting page.
  const OptionBrightness: Byte := 0x0A
  const OptionContrast: Byte := 0x0B
  const BrightnessMax := 100
  const ContrastMax := 100

  // Codes reported in the analog video page.
  const AnalogPSystem384x288 := 0
  const AnalogNSystem320x240 := 1
  const AnalogPSystem360x288 := 2
  const AnalogNSystem360x240 := 3
  const AnalogFrameRate50_60 := 0
  const AnalogFrameRate25_30 := 1
  const AnalogFrameRate9 := 2

  // Codes reported in the digital video page.
  const DigitalPortOff := 0
  const DigitalPortBt656 := 1
  const DigitalPortCmos := 2
  const DigitalFormatYuv422 := 0
  const DigitalFormatYuv422ParamLine := 1
  const DigitalFormatYuv16 := 2
  const DigitalFormatYuv16ParamLine := 3
  const DigitalFormatY16Yuv422 := 4
  const DigitalFormatY16ParamLineYuv422 := 5
  const DigitalInterfaceCmos16 := 0
  const DigitalInterfaceCmos8Msb := 1
  const DigitalInterfaceCmos8Lsb := 2
  const DigitalFrameRate50_60 := 0
  const DigitalFrameRate25_30 := 1
  const DigitalFrameRate9 := 2

  // Codes reported in the status page.
  const ObservationType := 0
  const ThermographyType := 1
  const Video400x300 := 0
  const Video384x288 := 1
  const Video360x288 := 2
  const Video320x240 := 3
  const Video360x240 := 4
  const Video160x120 := 5


  /** One member of a packed structure: its name and its width in bytes. */
  datatype Field = Field(name: string, width: nat)

  /** Where member k of a packed structure starts: the widths of the members before it, with no padding. */
  function OffsetOf(fields: seq<Field>, k: nat): nat
    requires k <= |fields|
  {
    if k == 0 then 0 else OffsetOf(fields, k - 1) + fields[k - 1].width
  }

  /** The size of a packed structure: where a member after the last would start. */
  function SizeOf(fields: seq<Field>): nat
  {
    OffsetOf(fields, |fields|)
  }

  const CommandFields := [Field("functional", 1), Field("page", 1), Field("option", 1), Field("command", 4)]
  const QueryFields := [Field("functional", 1), Field("page", 1), Field("option", 1)]
  const StatusFields := [
    Field("functional", 1), Field("page", 1), Field("module_id", 1), Field("communication_id", 1),
    Field("year", 1), Field("month", 1), Field("day", 1), Field("focal_spot_temperature", 2),
    Field("video_system", 1), Field("video_resolution", 1), Field("machine_id", 4), Field("reserved", 4)]
  const AnalogVideoPageFields := [
    Field("on", 1), Field("video_system", 1), Field("frame_rate", 1), Field("pseudo_color", 1),
    Field("mirror", 1), Field("zoom_x", 2), Field("zoom_y", 2), Field("hotspot_track", 2), Field("reserved", 6)]
  const DigitalVideoPageFields := [
    Field("external_sync", 1), Field("port", 1), Field("format", 1), Field("interface", 1),
    Field("frame_rate", 1), Field("mipi", 1), Field("reserved", 11)]
  const FrameFields := [Field("header", 2), Field("length", 1), Field("raw", 258), Field("cs", 1), Field("end", 1)]

  // Sizes and offsets used by the decoders below.
  const CommandSize := 7
  const QueryOptionsAt := 2
  const StatusSize := 19
  const FocalSpotTemperatureAt := 7
  const MachineIdAt := 11
  const StatusReservedAt := 15
  const PageSize := 17
  const ZoomXAt := 5
  const ZoomYAt := 7
  const HotspotTrackAt := 9
  const AnalogReservedAt := 11
  const DigitalReservedAt := 6
  const RawSize := 258
  const LengthAt := 2
  const RawAt := 3
  const FrameSize := 263
  /** The longest frame on the wire: a 255-byte payload and five framing bytes. */
  const MaxWireSize := 260

  // The decoders' offsets below are those of the header's packed structures.

  lemma CommandLayout()
    ensures SizeOf(CommandFields) == CommandSize && OffsetOf(CommandFields, 3) == 3
    ensures OffsetOf(QueryFields, 2) == QueryOptionsAt
  {
    assert SizeOf(CommandFields) == OffsetOf(CommandFields, 4);
  }

  lemma StatusLayout()
    ensures SizeOf(StatusFields) == StatusSize
    ensures OffsetOf(StatusFields, 7) == FocalSpotTemperatureAt
    ensures OffsetOf(StatusFields, 8) == 9 && OffsetOf(StatusFields, 9) == 10
    ensures OffsetOf(StatusFields, 10) == MachineIdAt && OffsetOf(StatusFields, 11) == StatusReservedAt
  {
    assert OffsetOf(StatusFields, 3) == 3;
    assert OffsetOf(StatusFields, 6) == 6;
    assert OffsetOf(StatusFields, 9) == 10;
    assert SizeOf(StatusFields) == OffsetOf(StatusFields, 12);
  }

  lemma AnalogVideoPageLayout()
    ensures SizeOf(AnalogVideoPageFields) == PageSize
    ensures OffsetOf(AnalogVideoPageFields, 5) == ZoomXAt && OffsetOf(AnalogVideoPageFields, 6) == ZoomYAt
    ensures OffsetOf(AnalogVideoPageFields, 7) == HotspotTrackAt
    ensures OffsetOf(AnalogVideoPageFields, 8) == AnalogReservedAt
  {
    assert OffsetOf(AnalogVideoPageFields, 3) == 3;
    assert SizeOf(AnalogVideoPageFields) == OffsetOf(AnalogVideoPageFields, 9);
  }

  lemma DigitalVideoPageLayout()
    ensures SizeOf(DigitalVideoPageFields) == PageSize
    ensures OffsetOf(DigitalVideoPageFields, 6) == DigitalReservedAt
  {
    assert OffsetOf(DigitalVideoPageFields, 3) == 3;
    assert SizeOf(DigitalVideoPageFields) == OffsetOf(DigitalVideoPageFields, 7);
  }

  lemma FrameLayout()
    ensures SizeOf(FrameFields) == FrameSize
    ensures OffsetOf(FrameFields, 1) == LengthAt && OffsetOf(FrameFields, 2) == RawAt
    ensures OffsetOf(FrameFields, 3) == FrameSize - 2 && OffsetOf(FrameFields, 4) == FrameSize - 1
  {
    assert SizeOf(FrameFields) == OffsetOf(FrameFields, 5);
  }

  /** A command: set (or query) option `option` of `page` in class `functional`. */
  datatype Command = Command(functional: Byte, page: Byte, option: Byte, command: U32)

  /** A query and the reply that echoes it: the page's option bytes follow functional and page. */
  datatype Query = Query(functional: Byte, page: Byte, options: seq<Byte>)

  datatype Status = Status(
    functional: Byte, page: Byte, moduleId: Byte, communicationId: Byte,
    year: Byte, month: Byte, day: Byte,
    focalSpotTemperature: U16,  // hundredths of a degree
    videoSystem: Byte, videoResolution: Byte,
    machineId: U32, reserved: seq<Byte>)
  {
    ghost predicate WellFormed() { |reserved| == 4 }
  }

  datatype AnalogVideoPage = AnalogVideoPage(
    on: Byte, videoSystem: Byte, frameRate: Byte, pseudoColor: Byte, mirror: Byte,
    zoomX: U16, zoomY: U16, hotspotTrack: U16, reserved: seq<Byte>)
  {
    ghost predicate WellFormed() { |reserved| == 6 }
  }

  datatype DigitalVideoPage = DigitalVideoPage(
    externalSync: Byte, port: Byte, format: Byte, interface: Byte, frameRate: Byte, mipi: Byte,
    reserved: seq<Byte>)
  {
    ghost predicate WellFormed() { |reserved| == 11 }
  }

  /** The driver's frame buffer: two header bytes, the length, the 258-byte payload area, checksum, end. */
  datatype Frame = Frame(header: seq<Byte>, length: Byte, raw: seq<Byte>, cs: Byte, end: Byte)
  {
    ghost predicate WellFormed() { |header| == 2 && |raw| == RawSize }
    ghost predicate Delimited() { header == [FrameHeader0, FrameHeader1] && end == FrameEnd }
  }

  function EncodeCommand(c: Command): (r: seq<Byte>)
    ensures |r| == CommandSize
  {
    [c.functional, c.page, c.option] + ToBE32(c.command)
  }

  function DecodeCommand(p: seq<Byte>): (r: Option<Command>)
    ensures r.Some? <==> |p| >= CommandSize
    ensures r.Some? ==> r.value.functional == p[0] && r.value.page == p[1] && r.value.option == p[2]
  {
    if |p| < CommandSize then None else Some(Command(p[0], p[1], p[2], BE32(p, 3)))
  }

  lemma CommandRoundTrip(c: Command)
    ensures DecodeCommand(EncodeCommand(c)) == Some(c)
  {
    var p := EncodeCommand(c);
    assert p[3..7] == ToBE32(c.command);
  }

  lemma CommandBytesRoundTrip(p: seq<Byte>)
    requires |p| >= CommandSize
    ensures EncodeCommand(DecodeCommand(p).value) == p[..CommandSize]
  {
    BE32Bytes(p, 3);
    assert p[..CommandSize] == [p[0], p[1], p[2]] + p[3..7];
  }

  /** A query view of a payload: functional, page, then the option bytes. */
  function DecodeQuery(p: seq<Byte>): (r: Option<Query>)
    ensures r.Some? <==> |p| >= QueryOptionsAt + 1
    ensures r.Some? ==> [r.value.functional, r.value.page] + r.value.options == p
  {
    if |p| < QueryOptionsAt + 1 then None else Some(Query(p[0], p[1], p[QueryOptionsAt..]))
  }

  /** The bytes of a query: functional, page, then the option bytes. */
  function EncodeQuery(q: Query): (r: seq<Byte>)
    ensures |r| == QueryOptionsAt + |q.options|
    ensures r[0] == q.functional && r[1] == q.page && r[QueryOptionsAt..] == q.options
  {
    [q.functional, q.page] + q.options
  }

  /** A query with its one declared option byte (or more) decodes back from its bytes. */
  lemma QueryRoundTrip(q: Query)
    requires |q.options| >= 1
    ensures DecodeQuery(EncodeQuery(q)) == Some(q)
  {
    var p := EncodeQuery(q);
    assert p[QueryOptionsAt..] == q.options;
  }

  function EncodeStatus(st: Status): (r: seq<Byte>)
    requires st.WellFormed()
    ensures |r| == StatusSize
  {
    [st.functional, st.page, st.moduleId, st.communicationId, st.year, st.month, st.day]
      + ToBE16(st.focalSpotTemperature)
      + [st.videoSystem, st.videoResolution]
      + ToBE32(st.machineId)
      + st.reserved
  }

  function DecodeStatus(p: seq<Byte>): (r: Option<Status>)
    ensures r.Some? <==> |p| >= StatusSize
    ensures r.Some? ==> r.value.WellFormed()
  {
    if |p| < StatusSize then None
    else Some(Status(p[0], p[1], p[2], p[3], p[4], p[5], p[6],
                     BE16(p, FocalSpotTemperatureAt), p[9], p[10],
                     BE32(p, MachineIdAt), p[StatusReservedAt..StatusSize]))
  }

  lemma StatusRoundTrip(st: Status)
    requires st.WellFormed()
    ensures DecodeStatus(EncodeStatus(st)) == Some(st)
  {
    var p := EncodeStatus(st);
    assert p[7..9] == ToBE16(st.focalSpotTemperature);
    assert p[11..15] == ToBE32(st.machineId);
    assert |st.reserved| == 4;
    forall j | 0 <= j < 4
      ensures p[StatusReservedAt + j] == st.reserved[j]
    {
    }
    assert p[15..19] == st.reserved;
  }

  lemma StatusBytesRoundTrip(p: seq<Byte>)
    requires |p| >= StatusSize
    ensures EncodeStatus(DecodeStatus(p).value) == p[..StatusSize]
  {
    BE16Bytes(p, FocalSpotTemperatureAt);
    BE32Bytes(p, MachineIdAt);
    assert p[..StatusSize] == p[..7] + p[7..9] + p[9..11] + p[11..15] + p[15..19];
  }

  function EncodeAnalogVideoPage(a: AnalogVideoPage): (r: seq<Byte>)
    requires a.WellFormed()
    ensures |r| == PageSize
  {
    [a.on, a.videoSystem, a.frameRate, a.pseudoColor, a.mirror]
      + ToBE16(a.zoomX) + ToBE16(a.zoomY) + ToBE16(a.hotspotTrack) + a.reserved
  }

  function DecodeAnalogVideoPage(p: seq<Byte>): (r: Option<AnalogVideoPage>)
    ensures r.Some? <==> |p| >= PageSize
    ensures r.Some? ==> r.value.WellFormed()
  {
    if |p| < PageSize then None
    else Some(AnalogVideoPage(p[0], p[1], p[2], p[3], p[4],
                              BE16(p, ZoomXAt), BE16(p, ZoomYAt), BE16(p, HotspotTrackAt),
                              p[AnalogReservedAt..PageSize]))
  }

  lemma AnalogVideoPageRoundTrip(a: AnalogVideoPage)
    requires a.WellFormed()
    ensures DecodeAnalogVideoPage(EncodeAnalogVideoPage(a)) == Some(a)
  {
    var p := EncodeAnalogVideoPage(a);
    assert p[5..7] == ToBE16(a.zoomX);
    assert p[7..9] == ToBE16(a.zoomY);
    assert p[9..11] == ToBE16(a.hotspotTrack);
    assert |a.reserved| == 6;
    forall j | 0 <= j < 6
      ensures p[AnalogReservedAt + j] == a.reserved[j]
    {
    }
    assert p[11..17] == a.reserved;
  }

  lemma AnalogVideoPageBytesRoundTrip(p: seq<Byte>)
    requires |p| >= PageSize
    ensures EncodeAnalogVideoPage(DecodeAnalogVideoPage(p).value) == p[..PageSize]
  {
    BE16Bytes(p, ZoomXAt);
    BE16Bytes(p, ZoomYAt);
    BE16Bytes(p, HotspotTrackAt);
    assert p[..PageSize] == p[..5] + p[5..7] + p[7..9] + p[9..11] + p[11..17];
  }

  function EncodeDigitalVideoPage(d: DigitalVideoPage): (r: seq<Byte>)
    requires d.WellFormed()
    ensures |r| == PageSize
  {
    [d.externalSync, d.port, d.format, d.interface, d.frameRate, d.mipi] + d.reserved
  }

  function DecodeDigitalVideoPage(p: seq<Byte>): (r: Option<DigitalVideoPage>)
    ensures r.Some? <==> |p| >= PageSize
    ensures r.Some? ==> r.value.WellFormed()
  {
    if |p| < PageSize then None
    else Some(DigitalVideoPage(p[0], p[1], p[2], p[3], p[4], p[5], p[DigitalReservedAt..PageSize]))
  }

  lemma DigitalVideoPageRoundTrip(d: DigitalVideoPage)
    requires d.WellFormed()
    ensures DecodeDigitalVideoPage(EncodeDigitalVideoPage(d)) == Some(d)
  {
    var p := EncodeDigitalVideoPage(d);
    assert |d.reserved| == 11;
    forall j | 0 <= j < 11
      ensures p[DigitalReservedAt + j] == d.reserved[j]
    {
    }
    assert p[6..17] == d.reserved;
  }

  lemma DigitalVideoPageBytesRoundTrip(p: seq<Byte>)
    requires |p| >= PageSize
    ensures EncodeDigitalVideoPage(DecodeDigitalVideoPage(p).value) == p[..PageSize]
  {
    assert p[..PageSize] == p[..6] + p[6..17];
  }

  /** The frame buffer's memory image, 263 bytes. */
  function FrameImage(f: Frame): (r: seq<Byte>)
    requires f.WellFormed()
    ensures |r| == FrameSize
  {
    f.header + [f.length] + f.raw + [f.cs, f.end]
  }

  function FrameOfImage(img: seq<Byte>): (f: Frame)
    requires |img| == FrameSize
    ensures f.WellFormed()
  {
    Frame(img[..2], img[LengthAt], img[RawAt..RawAt + RawSize], img[FrameSize - 2], img[FrameSize - 1])
  }

  lemma FrameImageRoundTrip(f: Frame)
    requires f.WellFormed()
    ensures FrameOfImage(FrameImage(f)) == f
  {
    var img := FrameImage(f);
    assert img[..2] == f.header;
    assert img[RawAt..RawAt + RawSize] == f.raw;
  }

  lemma ImageFrameRoundTrip(img: seq<Byte>)
    requires |img| == FrameSize
    ensures FrameImage(FrameOfImage(img)) == img
  {
    assert img == img[..2] + [img[2]] + img[3..261] + [img[261], img[262]];
  }

  /** The payload a frame carries: its first `length` raw bytes; every u8 length fits the area. */
  function Payload(f: Frame): (p: seq<Byte>)
    requires f.WellFormed()
    ensures |p| == f.length && p == f.raw[..|p|]
  {
    f.raw[..f.length]
  }

  /** The bytes of a frame on the wire: header, length, payload, checksum, end. */
  function WireBytes(f: Frame): (r: seq<Byte>)
    requires f.WellFormed()
    ensures |r| == f.length + 5 <= MaxWireSize
    ensures r[..2] == f.header && r[2] == f.length && r[3..3 + f.length] == Payload(f)
    ensures r[|r| - 2] == f.cs && r[|r| - 1] == f.end
    ensures f.Delimited() ==> r[0] == FrameHeader0 && r[1] == FrameHeader1 && r[|r| - 1] == FrameEnd
  {
    f.header + [f.length] + Payload(f) + [f.cs, f.end]
  }

  /** The query view of the frame's payload area, where a reply's page is read. */
  function ReplyQuery(f: Frame): (q: Query)
    requires f.WellFormed()
    ensures q.functional == f.raw[0] && q.page == f.raw[1]
    ensures |q.options| == RawSize - QueryOptionsAt && q.options == f.raw[QueryOptionsAt..]
  {
    DecodeQuery(f.raw).value
  }
}
