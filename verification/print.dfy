/**
 * Interpretation of replies and the debugging aids of the driver.
 *
 * The pretty-printer's `printf` calls are replaced by returned values: a
 * report record holds the labels and numbers a print routine would show,
 * and a buffer dump is a sequence of rows, each with its address and its
 * bytes. Text formatting (hex widths, the `%f` of the temperature) is not
 * modelled; the temperature stays in hundredths of a degree.
 */
module Print {
  import opened Bytes
  import opened Protocol

  // ---------------------------------------------------------------- labels

  /** All names of a lookup table are different. */
  predicate Distinct(names: seq<string>)
  {
    forall a, b :: 0 <= a < b < |names| ==> names[a] != names[b]
  }

  /** The name a `switch` prints for code: its entry in names, or unknown for any other code. */
  function Label(names: seq<string>, code: Byte, unknown: string): (r: string)
    ensures r in names || r == unknown
    ensures code < |names| ==> r == names[code]
  {
    if code < |names| then names[code] else unknown
  }

  /**
   * With distinct names and an unknown label that is none of them, the
   * printed label tells known codes apart, and it is the unknown label
   * exactly for the codes past the table.
   */
  lemma LabelDecides(names: seq<string>, unknown: string, a: Byte, b: Byte)
    requires Distinct(names) && unknown !in names
    ensures Label(names, a, unknown) == unknown <==> a >= |names|
    ensures Label(names, a, unknown) == Label(names, b, unknown) <==> a == b || (a >= |names| && b >= |names|)
  {
    if a < |names| {
      assert names[a] in names;
    }
    if b < |names| {
      assert names[b] in names;
    }
  }

  const ModuleTypeNames := ["Observation type", "Thermography type"]
  const UnknownType := "Unknown type"
  const ResolutionNames := ["400x300", "384x288", "360x288", "320x240", "360x240", "160x120"]
  const UnknownResolution := "Unknown"
  const AnalogSystemNames := ["384x288", "320x240", "360x288", "360x240"]
  const AnalogRateNames := ["50/60 HZ", "25/30 HZ", "9 HZ"]
  const DigitalPortNames := ["OFF", "BT.656", "CMOS"]
  const DigitalFormatNames := [
    "YUV422", "YUV422 parameter line", "YUV16", "YUV16 parameter line",
    "Y16 YUV422", "Y16 parameter line YUV422"]
  const DigitalInterfaceNames := ["CMOS16", "CMOS8 MSB", "CMOS8 LSB"]
  const DigitalRateNames := ["50/60 Hz", "25/30 Hz", "9 Hz"]
  /** The label every page switch prints for a code it does not know. */
  const Unknown := "UNKNOWN"

  /**
   * Every lookup table is indexed by the header's codes, has distinct
   * names, and does not contain its unknown label.
   */
  lemma LabelTables()
    ensures |ModuleTypeNames| == ThermographyType + 1 && |ResolutionNames| == Video160x120 + 1
    ensures |AnalogSystemNames| == AnalogNSystem360x240 + 1 && |AnalogRateNames| == AnalogFrameRate9 + 1
    ensures |DigitalPortNames| == DigitalPortCmos + 1 && |DigitalFormatNames| == DigitalFormatY16ParamLineYuv422 + 1
    ensures |DigitalInterfaceNames| == DigitalInterfaceCmos8Lsb + 1 && |DigitalRateNames| == DigitalFrameRate9 + 1
    ensures Distinct(ModuleTypeNames) && UnknownType !in ModuleTypeNames
    ensures Distinct(ResolutionNames) && UnknownResolution !in ResolutionNames
    ensures Distinct(AnalogSystemNames) && Unknown !in AnalogSystemNames
    ensures Distinct(AnalogRateNames) && Unknown !in AnalogRateNames
    ensures Distinct(DigitalPortNames) && Unknown !in DigitalPortNames
    ensures Distinct(DigitalFormatNames) && Unknown !in DigitalFormatNames
    ensures Distinct(DigitalInterfaceNames) && Unknown !in DigitalInterfaceNames
    ensures Distinct(DigitalRateNames) && Unknown !in DigitalRateNames
  {
  }

  /** A switch flag as printed: any non-zero byte is "ON". */
  function OnOff(b: Byte): (r: string)
    ensures r == "ON" <==> b != 0
    ensures r == "OFF" <==> b == 0
  {
    if b != 0 then "ON" else "OFF"
  }

  // ---------------------------------------------------------------- status

  /** What the status printer shows. */
  datatype StatusReport = StatusReport(
    moduleId: Byte, moduleType: string,
    year: Byte, month: Byte, day: Byte,
    temperature: U16,  // hundredths of a degree
    videoSystem: Byte, resolutionId: Byte, resolution: string,
    machineId: U32)

  /** The status report of a status payload, read from the payload area of the frame. */
  function PrintStatus(p: seq<Byte>): (r: StatusReport)
    requires |p| >= StatusSize
    ensures r.moduleId == p[2] && r.year == p[4] && r.month == p[5] && r.day == p[6]
    ensures r.videoSystem == p[9] && r.resolutionId == p[10]
    ensures r.temperature == (p[7] as int) * 0x100 + p[8] as int
    ensures r.machineId == (((p[11] as int) * 0x100 + p[12] as int) * 0x100 + p[13] as int) * 0x100 + p[14] as int
    ensures r.moduleType == UnknownType <==> p[2] > ThermographyType
    ensures r.resolution == UnknownResolution <==> p[10] > Video160x120
    ensures r.moduleType == Label(ModuleTypeNames, p[2], UnknownType)
    ensures r.resolution == Label(ResolutionNames, p[10], UnknownResolution)
  {
    LabelTables();
    LabelDecides(ModuleTypeNames, UnknownType, p[2], p[2]);
    LabelDecides(ResolutionNames, UnknownResolution, p[10], p[10]);
    var st := DecodeStatus(p).value;
    StatusReport(
      st.moduleId, Label(ModuleTypeNames, st.moduleId, UnknownType),
      st.year, st.month, st.day,
      st.focalSpotTemperature,
      st.videoSystem, st.videoResolution, Label(ResolutionNames, st.videoResolution, UnknownResolution),
      st.machineId)
  }

  /** The report of an encoded status shows that status's own fields. */
  lemma StatusReportOfStatus(st: Status, rest: seq<Byte>)
    requires st.WellFormed()
    ensures var r := PrintStatus(EncodeStatus(st) + rest);
      && r.moduleId == st.moduleId && r.year == st.year && r.month == st.month && r.day == st.day
      && r.temperature == st.focalSpotTemperature && r.machineId == st.machineId
      && r.videoSystem == st.videoSystem && r.resolutionId == st.videoResolution
      && r.moduleType == Label(ModuleTypeNames, st.moduleId, UnknownType)
      && r.resolution == Label(ResolutionNames, st.videoResolution, UnknownResolution)
  {
    var p := EncodeStatus(st) + rest;
    StatusRoundTrip(st);
    assert p[..StatusSize] == EncodeStatus(st);
    assert DecodeStatus(p) == DecodeStatus(p[..StatusSize]);
  }

  /** A thermography module at 384x288 reporting 0x0960, that is 24.00 degrees. */
  lemma StatusExample()
    ensures var r := PrintStatus([2, 0, 1, 0, 23, 5, 17, 0x09, 0x60, 0, 1, 0, 0, 0x01, 0x02, 0, 0, 0, 0]);
      && r.moduleType == "Thermography type" && r.resolution == "384x288"
      && r.temperature == 2400 && r.machineId == 0x0102
  {
  }

  // ---------------------------------------------------------------- video pages

  datatype AnalogReport = AnalogReport(video: string, system: string, frameRate: string)

  datatype DigitalReport = DigitalReport(
    externalSync: string, port: string, contents: string, interface: string, frameRate: string, mipi: string)

  /** What a query reply prints. */
  datatype Shown =
    | NothingShown
    | UnknownQuery(functional: Byte)
    | AnalogShown(analog: AnalogReport)
    | DigitalShown(digital: DigitalReport)

  /** The analog video page report; the page is read from the query's option bytes. */
  function PrintAnalogVideoPage(q: Query): (r: AnalogReport)
    requires |q.options| >= PageSize
    ensures r.video == "ON" <==> q.options[0] != 0
    ensures r.system == Unknown <==> q.options[1] > AnalogNSystem360x240
    ensures r.frameRate == Unknown <==> q.options[2] > AnalogFrameRate9
  {
    LabelTables();
    LabelDecides(AnalogSystemNames, Unknown, q.options[1], q.options[1]);
    LabelDecides(AnalogRateNames, Unknown, q.options[2], q.options[2]);
    var a := DecodeAnalogVideoPage(q.options).value;
    AnalogReport(OnOff(a.on), Label(AnalogSystemNames, a.videoSystem, Unknown), Label(AnalogRateNames, a.frameRate, Unknown))
  }

  /** The digital video page report; the page is read from the query's option bytes. */
  function PrintDigitalVideoPage(q: Query): (r: DigitalReport)
    requires |q.options| >= PageSize
    ensures r.externalSync == "ON" <==> q.options[0] != 0
    ensures r.port == Unknown <==> q.options[1] > DigitalPortCmos
    ensures r.contents == Unknown <==> q.options[2] > DigitalFormatY16ParamLineYuv422
    ensures r.interface == Unknown <==> q.options[3] > DigitalInterfaceCmos8Lsb
    ensures r.frameRate == Unknown <==> q.options[4] > DigitalFrameRate9
    ensures r.mipi == "ON" <==> q.options[5] != 0
  {
    LabelTables();
    LabelDecides(DigitalPortNames, Unknown, q.options[1], q.options[1]);
    LabelDecides(DigitalFormatNames, Unknown, q.options[2], q.options[2]);
    LabelDecides(DigitalInterfaceNames, Unknown, q.options[3], q.options[3]);
    LabelDecides(DigitalRateNames, Unknown, q.options[4], q.options[4]);
    var d := DecodeDigitalVideoPage(q.options).value;
    DigitalReport(
      OnOff(d.externalSync), Label(DigitalPortNames, d.port, Unknown), Label(DigitalFormatNames, d.format, Unknown),
      Label(DigitalInterfaceNames, d.interface, Unknown), Label(DigitalRateNames, d.frameRate, Unknown), OnOff(d.mipi))
  }

  /** A reply carrying an encoded analog page prints that page's settings. */
  lemma AnalogReportOfPage(functional: Byte, page: Byte, a: AnalogVideoPage, rest: seq<Byte>)
    requires a.WellFormed()
    ensures PrintAnalogVideoPage(Query(functional, page, EncodeAnalogVideoPage(a) + rest))
      == AnalogReport(OnOff(a.on), Label(AnalogSystemNames, a.videoSystem, Unknown), Label(AnalogRateNames, a.frameRate, Unknown))
  {
    var p := EncodeAnalogVideoPage(a) + rest;
    AnalogVideoPageRoundTrip(a);
    assert p[..PageSize] == EncodeAnalogVideoPage(a);
    assert DecodeAnalogVideoPage(p) == DecodeAnalogVideoPage(p[..PageSize]);
  }

  /** A reply carrying an encoded digital page prints that page's settings. */
  lemma DigitalReportOfPage(functional: Byte, page: Byte, d: DigitalVideoPage, rest: seq<Byte>)
    requires d.WellFormed()
    ensures PrintDigitalVideoPage(Query(functional, page, EncodeDigitalVideoPage(d) + rest))
      == DigitalReport(
           OnOff(d.externalSync), Label(DigitalPortNames, d.port, Unknown), Label(DigitalFormatNames, d.format, Unknown),
           Label(DigitalInterfaceNames, d.interface, Unknown), Label(DigitalRateNames, d.frameRate, Unknown), OnOff(d.mipi))
  {
    var p := EncodeDigitalVideoPage(d) + rest;
    DigitalVideoPageRoundTrip(d);
    assert p[..PageSize] == EncodeDigitalVideoPage(d);
    assert DecodeDigitalVideoPage(p) == DecodeDigitalVideoPage(p[..PageSize]);
  }

  /** The video page printer: analog and digital pages are shown, any other page shows nothing. */
  function PrintVideoPage(q: Query): (r: Shown)
    requires |q.options| >= PageSize
    ensures r.AnalogShown? <==> q.page == AnalogVideoPageNo
    ensures r.DigitalShown? <==> q.page == DigitalVideoPageNo
    ensures r.NothingShown? <==> q.page != AnalogVideoPageNo && q.page != DigitalVideoPageNo
    ensures r.AnalogShown? ==> r.analog == PrintAnalogVideoPage(q)
    ensures r.DigitalShown? ==> r.digital == PrintDigitalVideoPage(q)
  {
    if q.page == AnalogVideoPageNo then AnalogShown(PrintAnalogVideoPage(q))
    else if q.page == DigitalVideoPageNo then DigitalShown(PrintDigitalVideoPage(q))
    else NothingShown
  }

  /**
   * Prints the reply held in the frame buffer: -1 when no frame was
   * received or the reply is not of the video class, 0 otherwise.
   */
  function QueryReplyPrint(frameSize: I32, f: Frame): (r: (I32, Shown))
    requires f.WellFormed()
    ensures r.0 == 0 <==> frameSize != 0 && f.raw[0] == VideoClass
    ensures r.0 == 0 || r.0 == -1
    ensures frameSize == 0 ==> r.1 == NothingShown
    ensures frameSize != 0 && f.raw[0] != VideoClass ==> r.1 == UnknownQuery(f.raw[0])
    ensures r.0 == 0 ==> r.1 == PrintVideoPage(ReplyQuery(f))
  {
    if frameSize == 0 then (-1, NothingShown)
    else
      var q := ReplyQuery(f);
      if q.functional == VideoClass then (0, PrintVideoPage(q))
      else (-1, UnknownQuery(q.functional))
  }

  // ---------------------------------------------------------------- debugging aids

  /** One row of a buffer dump: its address and up to sixteen bytes. */
  datatype Row = Row(addr: nat, bytes: seq<Byte>)

  datatype Dump = Suppressed | Shown(rows: seq<Row>)

  /** The rows that show b from address addr on: sixteen bytes per row, no row after the final byte. */
  function Rows(b: seq<Byte>, addr: nat): (r: seq<Row>)
    ensures |r| >= 1
    decreases |b|
  {
    if |b| <= 16 then [Row(addr, b)] else [Row(addr, b[..16])] + Rows(b[16..], addr + 16)
  }

  /** The bytes of a dump, row after row. */
  function Concat(rows: seq<Row>): seq<Byte>
  {
    if rows == [] then [] else rows[0].bytes + Concat(rows[1..])
  }

  /** The rows of a dump, read back in order, are exactly the dumped bytes. */
  lemma {:induction false} RowsConcat(b: seq<Byte>, addr: nat)
    ensures Concat(Rows(b, addr)) == b
    decreases |b|
  {
    if |b| > 16 {
      RowsConcat(b[16..], addr + 16);
      assert Rows(b, addr)[1..] == Rows(b[16..], addr + 16);
      assert b == b[..16] + b[16..];
    } else {
      assert Rows(b, addr)[1..] == [];
    }
  }

  /**
   * The rows' shape: the k-th row starts at address addr + 16k, every row
   * but the last is full, the last holds the rest (one to sixteen bytes when
   * b is not empty), and there are as many rows as sixteen-byte blocks.
   */
  lemma {:induction false} RowsShape(b: seq<Byte>, addr: nat)
    ensures var r := Rows(b, addr);
      && |r| == (if b == [] then 1 else (|b| + 15) / 16)
      && (forall k :: 0 <= k < |r| ==> r[k].addr == addr + 16 * k)
      && (forall k :: 0 <= k < |r| - 1 ==> |r[k].bytes| == 16)
      && (b != [] ==> 1 <= |r[|r| - 1].bytes| <= 16)
    decreases |b|
  {
    if |b| > 16 {
      RowsShape(b[16..], addr + 16);
      var r := Rows(b, addr);
      assert forall k :: 1 <= k < |r| ==> r[k] == Rows(b[16..], addr + 16)[k - 1];
    }
  }

  /** A full row followed by more bytes is a row of its own. */
  lemma RowsFull(row: seq<Byte>, rest: seq<Byte>, addr: nat)
    requires |row| == 16 && rest != []
    ensures Rows(row + rest, addr) == [Row(addr, row)] + Rows(rest, addr + 16)
  {
    assert (row + rest)[..16] == row && (row + rest)[16..] == rest;
  }

  // Steps of DumpBuf's loop, each about the rows still to be printed.

  lemma DumpStart(b: seq<Byte>, n: nat)
    requires n <= |b|
    ensures [] + Rows([] + b[0..n], 0) == Rows(b[..n], 0)
  {
    assert [] + b[0..n] == b[..n];
  }

  lemma TakeByte(cur: seq<Byte>, b: seq<Byte>, p: nat, n: nat)
    requires p < n <= |b|
    ensures cur + b[p..n] == (cur + [b[p]]) + b[p + 1..n]
  {
  }

  lemma CloseRow(rows: seq<Row>, cur: seq<Byte>, rest: seq<Byte>, addr: nat)
    requires |cur| == 16 && rest != []
    ensures rows + Rows(cur + rest, addr) == (rows + [Row(addr, cur)]) + Rows([] + rest, addr + 16)
  {
    RowsFull(cur, rest, addr);
    assert [] + rest == rest;
  }

  lemma LastRow(rows: seq<Row>, cur: seq<Byte>, rest: seq<Byte>, addr: nat)
    requires rest == [] && |cur| <= 16
    ensures rows + Rows(cur + rest, addr) == rows + [Row(addr, cur)]
  {
    assert cur + rest == cur;
  }

  /** The debugging state: the global debug level. */
  class DebugState {
    var level: I32

    constructor()
      ensures level == 0
    {
      level := 0;
    }

    /**
     * Stores and returns the level as given: the clamp to 0..99 only
     * rewrites the parameter after it has been stored.
     */
    method SetLevel(newLevel: I32) returns (r: I32)
      modifies this
      ensures level == newLevel && r == newLevel
    {
      level := newLevel;
      var clamped := newLevel;
      if clamped < 0 {
        clamped := 0;
      } else if clamped > 99 {
        clamped := 99;
      }
      r := level;
    }

    /**
     * The hex dump of the first size bytes of buf: nothing above the debug
     * level, otherwise one row per sixteen bytes, and one empty row when
     * size is not positive.
     */
    method DumpBuf(dumpLevel: I32, buf: seq<Byte>, size: I32) returns (d: Dump)
      requires size <= |buf|
      ensures dumpLevel > level ==> d == Suppressed
      ensures dumpLevel <= level ==> d == Shown(Rows(buf[..if size > 0 then size else 0], 0))
    {
      if dumpLevel > level {
        return Suppressed;
      }
      ghost var n: nat := if size > 0 then size else 0;
      var rows: seq<Row> := [];
      var cur: seq<Byte> := [];
      var i, addr, left, p := 0, 0, size, 0;
      DumpStart(buf, n);
      while left > 0
        invariant left > 0 ==> p + left == n
        invariant left <= 0 ==> p == n
        invariant 0 <= p <= n && i == |cur| <= 16 && (i == 16 ==> p == n)
        invariant rows + Rows(cur + buf[p..n], addr) == Rows(buf[..n], 0)
      {
        left := left - 1;
        TakeByte(cur, buf, p, n);
        cur := cur + [buf[p]];
        p := p + 1;
        i := i + 1;
        if i == 16 && left != 0 {
          CloseRow(rows, cur, buf[p..n], addr);
          rows := rows + [Row(addr, cur)];
          addr := addr + 16;
          i := 0;
          cur := [];
        }
      }
      LastRow(rows, cur, buf[p..n], addr);
      d := Shown(rows + [Row(addr, cur)]);
    }
  }
}
