/**
 * The textual command mini-language: `group:key=value:key=value...`.
 *
 * `ParseElm` cuts one `key[=value]` element out of a C string into two
 * caller buffers; `CmdHandler` records, for every entry of a group's
 * sub-command table, the value of the last key naming it and then calls
 * the recorded setters in table order; `SetCommand` selects the group.
 *
 * The setters themselves belong to the serial layer and are not part of
 * this model: a call is recorded in a trace, and the value the setter
 * returns is chosen by the `outcome` parameter. `conv` stands for the C
 * library's `strtol(val, NULL, 0)` narrowed to `int`.
 */
module Commands {
  import opened Bytes

  const NUL: char := '\0'
  /** The size of the key and value buffers, `char parm[64], val[64]`. */
  const BufferSize := 64
  /** The budget the driver passes to ParseElm: `sizeof(parm)`. */
  const ParmSize := BufferSize
  /**
   * The cells a buffer needs under the budget ParmSize: the copied
   * characters and the NUL. The driver's buffers have one cell less (see
   * KeyOverrunsBuffer); the model's callers allocate this many, so that
   * they parse every string exactly as the driver does.
   */
  const ModelBufferSize := ParmSize + 1
  /** The number of values a command group can record, `int set[16]`. */
  const SetSize := 16

  predicate IsStop(c: char) { c == ':' || c == '=' || c == NUL }

  predicate NoStop(t: seq<char>) { forall j :: 0 <= j < |t| ==> !IsStop(t[j]) }

  /**
   * s holds a NUL-terminated string from index pos on: pos is inside s and
   * s ends with a NUL. Characters after the first NUL are never read.
   */
  predicate Terminated(s: seq<char>, pos: nat)
  {
    pos < |s| && s[|s| - 1] == NUL
  }

  /** How many characters from pos on are copied: up to the first stop character, at most size. */
  function Span(s: seq<char>, pos: nat, size: nat): (n: nat)
    requires pos <= |s|
    ensures pos + n <= |s| && n <= size
    ensures n < size && pos + n < |s| ==> IsStop(s[pos + n])
    ensures Terminated(s, pos) ==> Terminated(s, pos + n)
    decreases size
  {
    if size == 0 || pos == |s| || IsStop(s[pos]) then 0 else 1 + Span(s, pos + 1, size - 1)
  }

  /** The copied characters contain no stop character. */
  lemma {:induction false} SpanNoStop(s: seq<char>, pos: nat, size: nat)
    requires pos <= |s|
    ensures forall j :: pos <= j < pos + Span(s, pos, size) ==> !IsStop(s[j])
    decreases size
  {
    if !(size == 0 || pos == |s| || IsStop(s[pos])) {
      SpanNoStop(s, pos + 1, size - 1);
    }
  }

  /** Copying never passes a NUL. */
  lemma {:induction false} SpanBeforeNul(s: seq<char>, pos: nat, size: nat)
    requires pos <= |s|
    ensures forall k :: pos <= k < |s| && s[k] == NUL ==> pos + Span(s, pos, size) <= k
    decreases size
  {
    if !(size == 0 || pos == |s| || IsStop(s[pos])) {
      SpanBeforeNul(s, pos + 1, size - 1);
    }
  }

  /** One parsed element: the key, the value, and where parsing resumes. */
  datatype Element = Element(key: string, val: string, next: nat)

  /** Where the value starts when the key ended at p: past an '=', else at p. */
  function ValueStart(s: seq<char>, p: nat): nat
    requires p < |s|
  {
    if s[p] == '=' then p + 1 else p
  }

  /** Where parsing resumes when the value ended at r: past one ':' or '=', else at r. */
  function Resume(s: seq<char>, r: nat): nat
    requires r < |s|
  {
    if s[r] == ':' || s[r] == '=' then r + 1 else r
  }

  /** What ParseElm leaves in its buffers and returns, for the string s from pos on. */
  function ParseElement(s: seq<char>, pos: nat, size: nat): (e: Element)
    requires Terminated(s, pos)
    ensures pos + |e.key| < |s| && e.key == s[pos..pos + |e.key|]
    ensures pos <= e.next && Terminated(s, e.next)
  {
    var k := Span(s, pos, size);
    var p := pos + k;
    if s[p] == ':' then
      Element(s[pos..p], [], p + 1)
    else
      var q := ValueStart(s, p);
      var v := Span(s, q, size - k);
      Element(s[pos..p], s[q..q + v], Resume(s, q + v))
  }

  /** ParseElement, once the key has ended at p with a ':'. */
  lemma ParseElementColon(s: seq<char>, pos: nat, size: nat, p: nat)
    requires Terminated(s, pos) && p == pos + Span(s, pos, size) && p < |s| && s[p] == ':'
    ensures ParseElement(s, pos, size) == Element(s[pos..p], [], p + 1)
  {
  }

  /** ParseElement, once the key has ended at p without a ':' and the value at q + v. */
  lemma ParseElementUnfold(s: seq<char>, pos: nat, size: nat, p: nat, q: nat, v: nat)
    requires Terminated(s, pos) && p == pos + Span(s, pos, size) && p < |s| && s[p] != ':'
    requires q == ValueStart(s, p) && q < |s| && v == Span(s, q, size - (p - pos))
    ensures ParseElement(s, pos, size) == Element(s[pos..p], s[q..q + v], Resume(s, q + v))
  {
  }

  /**
   * Parsing never passes the terminating NUL, so the rest of the string
   * is still terminated; with room for one character and a non-empty
   * string it advances.
   */
  lemma ParseElementProgress(s: seq<char>, pos: nat, size: nat)
    requires Terminated(s, pos)
    ensures var e := ParseElement(s, pos, size);
      && (forall k :: pos <= k < |s| && s[k] == NUL ==> e.next <= k)
      && (s[pos] != NUL && size >= 1 ==> pos < e.next)
  {
    var k := Span(s, pos, size);
    var p := pos + k;
    SpanBeforeNul(s, pos, size);
    if s[p] == ':' {
      ParseElementColon(s, pos, size, p);
    } else {
      var q := ValueStart(s, p);
      var v := Span(s, q, size - k);
      SpanBeforeNul(s, q, size - k);
      ParseElementUnfold(s, pos, size, p, q, v);
    }
  }

  /** A stretch of s without stop characters is a stop-free string. */
  lemma SliceNoStop(s: seq<char>, a: nat, b: nat)
    requires a <= b <= |s| && forall j :: a <= j < b ==> !IsStop(s[j])
    ensures NoStop(s[a..b])
  {
    forall j | 0 <= j < b - a
      ensures !IsStop(s[a..b][j])
    {
      assert s[a..b][j] == s[a + j];
    }
  }

  /** The key is the longest stop-free prefix, cut off at size characters. */
  lemma ParseElementKey(s: seq<char>, pos: nat, size: nat)
    requires Terminated(s, pos)
    ensures var e := ParseElement(s, pos, size);
      && NoStop(e.key) && |e.key| <= size
      && (|e.key| < size ==> IsStop(s[pos + |e.key|]))
      // A key ended by ':' has no value; parsing resumes just past the ':'.
      && (s[pos + |e.key|] == ':' ==> e.val == [] && e.next == pos + |e.key| + 1)
  {
    var k := Span(s, pos, size);
    var p := pos + k;
    SpanNoStop(s, pos, size);
    SliceNoStop(s, pos, p);
    if s[p] == ':' {
      ParseElementColon(s, pos, size, p);
    } else {
      ParseElementUnfold(s, pos, size, p, ValueStart(s, p), Span(s, ValueStart(s, p), size - k));
    }
  }

  /** Key and value draw on one budget of size characters, and the value is stop-free. */
  lemma ParseElementBudget(s: seq<char>, pos: nat, size: nat)
    requires Terminated(s, pos)
    ensures var e := ParseElement(s, pos, size);
      NoStop(e.val) && |e.key| + |e.val| <= size
  {
    var k := Span(s, pos, size);
    var p := pos + k;
    if s[p] == ':' {
      ParseElementColon(s, pos, size, p);
    } else {
      var q := ValueStart(s, p);
      var v := Span(s, q, size - k);
      SpanNoStop(s, q, size - k);
      SliceNoStop(s, q, q + v);
      ParseElementUnfold(s, pos, size, p, q, v);
    }
  }

  /**
   * Unless the key ended at ':', the value follows an optional '=', it is
   * the longest stop-free run the remaining budget allows, and one ':' or
   * '=' after it is skipped.
   */
  lemma ParseElementValue(s: seq<char>, pos: nat, size: nat)
    requires Terminated(s, pos)
    ensures var e := ParseElement(s, pos, size);
      s[pos + |e.key|] != ':' ==>
        var q := ValueStart(s, pos + |e.key|);
        && q + |e.val| < |s| && e.val == s[q..q + |e.val|]
        && (|e.key| + |e.val| < size ==> IsStop(s[q + |e.val|]))
        && e.next == Resume(s, q + |e.val|)
  {
    var k := Span(s, pos, size);
    var p := pos + k;
    if s[p] != ':' {
      var q := ValueStart(s, p);
      var v := Span(s, q, size - k);
      ParseElementUnfold(s, pos, size, p, q, v);
      var e := ParseElement(s, pos, size);
      assert |e.key| == k && |e.val| == v;
      assert v < size - k && q + v < |s| ==> IsStop(s[q + v]);
    }
  }

  /**
   * With the budget `sizeof(parm)`, a key of 64 characters is copied whole
   * and its terminating NUL is written at index 64, one past the end of
   * `char parm[64]`; a value of 64 characters after an empty key does the
   * same to `char val[64]`.
   */
  lemma KeyOverrunsBuffer()
    ensures var s := seq(BufferSize, _ => 'a') + [NUL];
      Terminated(s, 0) && |ParseElement(s, 0, ParmSize).key| == BufferSize
    ensures var s := ['='] + seq(BufferSize, _ => 'a') + [NUL];
      Terminated(s, 0) && |ParseElement(s, 0, ParmSize).val| == BufferSize
  {
    var s := seq(BufferSize, _ => 'a') + [NUL];
    assert s[BufferSize] == NUL;
    assert forall j :: 0 <= j < BufferSize ==> s[j] == 'a';
    var t := ['='] + seq(BufferSize, _ => 'a') + [NUL];
    assert t[0] == '=' && t[BufferSize + 1] == NUL;
    assert forall j :: 1 <= j <= BufferSize ==> t[j] == 'a';
    assert Span(t, 0, ParmSize) == 0;
    ParseElementValue(t, 0, ParmSize);
    ParseElementBudget(t, 0, ParmSize);
  }

  /**
   * Under the budget ParmSize neither the key nor the value is longer than
   * 64 characters, so with ModelBufferSize cells both NULs land inside the
   * buffers; the driver's 64-cell buffers are overrun exactly when the key
   * or the value alone has 64 characters.
   */
  lemma NulInsideModelBuffers(s: seq<char>, pos: nat)
    requires Terminated(s, pos)
    ensures var e := ParseElement(s, pos, ParmSize);
      && |e.key| < ModelBufferSize && |e.val| < ModelBufferSize
      && (|e.key| == BufferSize ==> e.val == [])
  {
    ParseElementKey(s, pos, ParmSize);
    ParseElementBudget(s, pos, ParmSize);
  }

  /**
   * Copies the next element of s (from pos on) into elm and val, each
   * NUL-terminated, and returns where the next element starts. Both
   * buffers must hold size characters and the NUL.
   */
  method ParseElm(s: seq<char>, pos: nat, elm: array<char>, val: array<char>, size: nat) returns (next: nat)
    requires Terminated(s, pos)
    requires elm.Length > size && val.Length > size && elm != val
    modifies elm, val
    ensures var e := ParseElement(s, pos, size);
      && next == e.next
      && elm[..|e.key|] == e.key && elm[|e.key|] == NUL
      && val[..|e.val|] == e.val && val[|e.val|] == NUL
    ensures var e := ParseElement(s, pos, size);
      && (forall j :: |e.key| < j < elm.Length ==> elm[j] == old(elm[j]))
      && (forall j :: |e.val| < j < val.Length ==> val[j] == old(val[j]))
  {
    val[0] := NUL;
    var k := CopyRun(s, pos, elm, size);
    var p := pos + k;
    if s[p] == ':' {
      ParseElementColon(s, pos, size, p);
      return p + 1;
    }
    if s[p] == '=' {
      p := p + 1;
    }
    var v := CopyRun(s, p, val, size - k);
    ParseElementUnfold(s, pos, size, pos + k, p, v);
    p := p + v;
    if s[p] == ':' || s[p] == '=' {
      p := p + 1;
    }
    next := p;
  }

  /**
   * One copying loop of ParseElm: copies the characters of s from p on up
   * to the first stop character, at most n of them, into buf and ends them
   * with a NUL.
   */
  method CopyRun(s: seq<char>, p: nat, buf: array<char>, n: nat) returns (m: nat)
    requires Terminated(s, p) && buf.Length > n
    modifies buf
    ensures m == Span(s, p, n) && buf[..m] == s[p..p + m] && buf[m] == NUL
    ensures Terminated(s, p + m)
    ensures forall j :: m < j < buf.Length ==> buf[j] == old(buf[j])
  {
    ghost var z := |s| - 1;
    var i: nat, left: nat := p, n;
    m := 0;
    while s[i] != ':' && s[i] != '=' && s[i] != NUL && left != 0
      invariant i == p + m && m + left == n && i <= z
      invariant Span(s, p, n) == m + Span(s, i, left)
      invariant buf[..m] == s[p..i]
      invariant forall j :: m <= j < buf.Length ==> buf[j] == old(buf[j])
      decreases left
    {
      buf[m] := s[i];
      m, i, left := m + 1, i + 1, left - 1;
    }
    buf[m] := NUL;
    assert buf[..m] == s[p..i];
  }

  /** The characters of s before its first NUL (all of s if it has none). */
  function UpToNul(s: seq<char>): (r: seq<char>)
    ensures NUL !in r && r <= s
  {
    if s == [] || s[0] == NUL then [] else [s[0]] + UpToNul(s[1..])
  }

  /** The C string held in a buffer. */
  function CStr(a: array<char>): seq<char>
    reads a
  {
    UpToNul(a[..])
  }

  lemma {:induction false} UpToNulAt(s: seq<char>, n: nat)
    requires n < |s| && s[n] == NUL && NUL !in s[..n]
    ensures UpToNul(s) == s[..n]
  {
    if n > 0 {
      assert s[1..][..n - 1] == s[1..n];
      assert s[0] in s[..n];
      UpToNulAt(s[1..], n - 1);
    }
  }

  /** A buffer that holds t followed by a NUL holds the C string t. */
  lemma CStrHolds(a: array<char>, t: seq<char>)
    requires |t| < a.Length && a[..|t|] == t && a[|t|] == NUL && NoStop(t)
    ensures CStr(a) == t
  {
    assert a[..][..|t|] == t;
    UpToNulAt(a[..], |t|);
  }

  /** How a sub-command is carried out: a one-value setter, a two-value setter, or none. */
  datatype Handler = NoHandler | Plain(setter: string) | Ext(setter: string)

  /**
   * A sub-command: its name, an optional alias, its setter, and the value it
   * sets (a fixed value when non-negative, else the value written after it).
   */
  datatype SubCommand = SubCommand(cmd: string, alias: Option<string>, handler: Handler, fixed: I32)

  /** A command group: its description, its name on the command line, and its sub-commands. */
  datatype CommandGroup = CommandGroup(name: string, cmd: string, sub: seq<SubCommand>)

  /** A setter call: which setter, with which unsigned arguments. */
  datatype Call = Call(setter: string, args: seq<U32>)

  const DigitalVideoCommands := [
    SubCommand("extsync", Some("s"), Plain("plug417_set_external_synchronization"), -1),
    SubCommand("port", Some("p"), Plain("plug417_set_digital_port_parallel_type"), -1),
    SubCommand("cmos", Some("c"), Plain("plug417_set_cmos_content"), -1),
    SubCommand("interface", Some("i"), Plain("plug417_set_cmos_interface"), -1),
    SubCommand("rate", Some("r"), Plain("plug417_set_digital_frame_rate"), -1),
    SubCommand("mipi", Some("m"), Plain("plug417_set_mipi_on"), -1),
    SubCommand("scene", Some("x"), Plain("plug417_set_scene_compentation"), -1),
    SubCommand("shutter", Some("z"), Plain("plug417_set_shutter_compentation"), -1)]

  const SmallIconCommands := [
    SubCommand("num", Some("n"), NoHandler, -1),
    SubCommand("on", None, Ext("plug417_set_small_icon_on"), 1),
    SubCommand("off", None, Ext("plug417_set_small_icon_on"), 0),
    SubCommand("x", None, Ext("plug417_set_small_icon_x"), -1),
    SubCommand("y", None, Ext("plug417_set_small_icon_y"), -1),
    SubCommand("width", Some("w"), Ext("plug417_set_small_icon_width"), -1),
    SubCommand("transparency", Some("t"), Plain("plug417_set_small_icon_transparency"), -1)]

  const MenuBarCommands := [
    SubCommand("on", None, Plain("plug417_set_menu_bar_on"), 1),
    SubCommand("off", None, Plain("plug417_set_menu_bar_on"), 0),
    SubCommand("location", Some("y"), Plain("plug417_set_menu_bar_location"), -1),
    SubCommand("transparency", Some("t"), Plain("plug417_set_menu_bar_transparency"), -1)]

  const LayerCommands := [
    SubCommand("on", None, Plain("plug417_set_layer_on"), 1),
    SubCommand("off", None, Plain("plug417_set_layer_on"), 0),
    SubCommand("transparency", Some("t"), Plain("plug417_set_layer_transparency"), -1)]

  const HalfPixelCursorCommands := [
    SubCommand("on", None, Plain("plug417_set_half_pixel_cursor_on"), 1),
    SubCommand("off", None, Plain("plug417_set_half_pixel_cursor_on"), 0),
    SubCommand("x", None, Plain("plug417_set_half_pixel_x"), -1),
    SubCommand("y", None, Plain("plug417_set_half_pixel_y"), -1),
    SubCommand("color", Some("c"), Plain("plug417_set_half_pixel_color"), -1)]

  const HotspotTrackingCommands := [
    SubCommand("on", None, Plain("plug417_set_hotspot_tracking_cursor_on"), 1),
    SubCommand("off", None, Plain("plug417_set_hotspot_tracking_cursor_on"), 0),
    SubCommand("upper", Some("u"), Plain("plug417_set_hotspot_tracking_upper_limit"), -1),
    SubCommand("lower", Some("l"), Plain("plug417_set_hotspot_tracking_lower_limit"), -1),
    SubCommand("r", None, Plain("plug417_set_hotspot_tracking_color_r"), -1),
    SubCommand("g", None, Plain("plug417_set_hotspot_tracking_color_g"), -1),
    SubCommand("b", None, Plain("plug417_set_hotspot_tracking_color_b"), -1)]

  const TemperatureMeasurementCommands := [
    SubCommand("distance", Some("d"), Plain("plug417_set_temperature_measurement_distance"), -1),
    SubCommand("emissivity", Some("e"), Plain("plug417_set_temperature_measurement_emissivity"), -1),
    SubCommand("show", Some("s"), Plain("plug417_set_temperature_measurement_show"), -1),
    SubCommand("calibration", Some("c"), Plain("plug417_set_temperature_measurement_calibration"), -1),
    SubCommand("reset", Some("f"), Plain("plug417_set_temperature_measurement_factory_reset"), 1),
    SubCommand("reflected", Some("r"), Plain("plug417_set_temperature_measurement_reflected_setting"), -1),
    SubCommand("save", Some("v"), Plain("plug417_set_temperature_measurement_save_settings"), -1),
    SubCommand("humidity", Some("h"), Plain("plug417_set_temperature_measurement_humidity_save_settings"), -1),
    SubCommand("range", Some("g"), Plain("plug417_set_temperature_measurement_range"), -1)]

  const AreaAnalysisCommands := [
    SubCommand("mode", Some("m"), Plain("plug417_set_area_analisys_mode"), -1),
    SubCommand("x", None, Plain("plug417_set_area_x"), -1),
    SubCommand("y", None, Plain("plug417_set_area_y"), -1),
    SubCommand("width", Some("w"), Plain("plug417_set_area_width"), -1),
    SubCommand("height", Some("h"), Plain("plug417_set_area_height"), -1),
    SubCommand("r", None, Plain("plug417_set_area_color_r"), -1),
    SubCommand("g", None, Plain("plug417_set_area_color_g"), -1),
    SubCommand("b", None, Plain("plug417_set_area_color_b"), -1),
    SubCommand("alarm", Some("a"), Plain("plug417_set_area_high_temperature_alarm"), -1),
    SubCommand("threshold", Some("t"), Plain("plug417_set_area_high_temperature_alarm_threshold"), -1)]

  const CommandTable := [
    CommandGroup("Digital video", "digit", DigitalVideoCommands),
    CommandGroup("Small icon", "icon", SmallIconCommands),
    CommandGroup("Menu bar", "menu", MenuBarCommands),
    CommandGroup("Layer", "layer", LayerCommands),
    CommandGroup("Half pixel", "hpcursor", HalfPixelCursorCommands),
    CommandGroup("Area Analysis", "area", AreaAnalysisCommands),
    CommandGroup("Hotspot tracking", "hptrack", HotspotTrackingCommands),
    CommandGroup("Temperature measurement", "temp", TemperatureMeasurementCommands)]

  /** Every group has at most ten sub-commands, so the sixteen recorded values suffice, and group names are distinct. */
  lemma CommandTableShape()
    ensures forall g :: 0 <= g < |CommandTable| ==> |CommandTable[g].sub| <= 10 < SetSize
    ensures WellShaped(CommandTable)
  {
  }

  /** Whether a key names a sub-command, by its name or its alias. */
  predicate Matches(e: SubCommand, key: string)
  {
    key == e.cmd || (e.alias.Some? && key == e.alias.value)
  }

  /** The value a matching key records: the entry's fixed value, or the converted value text. */
  function Setting(e: SubCommand, val: string, conv: string -> I32): I32
  {
    if e.fixed < 0 then conv(val) else e.fixed
  }

  /** The recorded values after one element: every entry it names takes its setting. */
  function Record(table: seq<SubCommand>, vals: seq<I32>, key: string, val: string, conv: string -> I32): (r: seq<I32>)
    requires |table| <= |vals|
    ensures |r| == |vals|
    ensures forall i :: 0 <= i < |vals| && (i >= |table| || !Matches(table[i], key)) ==> r[i] == vals[i]
    ensures forall i :: 0 <= i < |table| && Matches(table[i], key) ==> r[i] == Setting(table[i], val, conv)
  {
    seq(|vals|, i requires 0 <= i < |vals| =>
      if i < |table| && Matches(table[i], key) then Setting(table[i], val, conv) else vals[i])
  }

  /** The elements of s from pos on, as the handler's parse loop meets them. */
  function Elements(s: seq<char>, pos: nat, size: nat): (r: seq<Element>)
    requires Terminated(s, pos) && size >= 1
    ensures r == [] <==> s[pos] == NUL
    ensures |r| <= |s| - 1 - pos
    decreases |s| - pos
  {
    if s[pos] == NUL then []
    else
      var e := ParseElement(s, pos, size);
      ParseElementProgress(s, pos, size);
      [e] + Elements(s, e.next, size)
  }

  /** The recorded values after a sequence of elements, taken in order. */
  function Settings(table: seq<SubCommand>, vals: seq<I32>, els: seq<Element>, conv: string -> I32): (r: seq<I32>)
    requires |table| <= |vals|
    ensures |r| == |vals|
    decreases |els|
  {
    if els == [] then vals else Settings(table, Record(table, vals, els[0].key, els[0].val, conv), els[1..], conv)
  }

  /** Nothing recorded yet: `vals[i] = -1` for all sixteen. */
  const Unset: seq<I32> := [-1, -1, -1, -1, -1, -1, -1, -1, -1, -1, -1, -1, -1, -1, -1, -1]

  /** The values CmdHandler records for the string s from pos on. */
  function ParsedSettings(table: seq<SubCommand>, s: seq<char>, pos: nat, conv: string -> I32): (r: seq<I32>)
    requires |table| <= SetSize && Terminated(s, pos)
    ensures |r| == SetSize
  {
    Settings(table, Unset, Elements(s, pos, ParmSize), conv)
  }

  /** An entry no element names, or one past the table, keeps its value. */
  lemma {:induction false} SettingsUnnamed(
    table: seq<SubCommand>, vals: seq<I32>, els: seq<Element>, conv: string -> I32, i: nat)
    requires |table| <= |vals| && i < |vals|
    requires i >= |table| || forall j :: 0 <= j < |els| ==> !Matches(table[i], els[j].key)
    ensures Settings(table, vals, els, conv)[i] == vals[i]
    decreases |els|
  {
    if els != [] {
      assert i < |table| ==> !Matches(table[i], els[0].key);
      assert forall j :: 0 <= j < |els| - 1 ==> els[1..][j] == els[j + 1];
      SettingsUnnamed(table, Record(table, vals, els[0].key, els[0].val, conv), els[1..], conv, i);
    }
  }

  /** An entry's recorded value is that of the LAST element naming it. */
  lemma {:induction false} SettingsLastMatch(
    table: seq<SubCommand>, vals: seq<I32>, els: seq<Element>, conv: string -> I32, i: nat, j: nat)
    requires |table| <= |vals| && i < |table| && j < |els| && Matches(table[i], els[j].key)
    requires forall k :: j < k < |els| ==> !Matches(table[i], els[k].key)
    ensures Settings(table, vals, els, conv)[i] == Setting(table[i], els[j].val, conv)
    decreases |els|
  {
    var vals' := Record(table, vals, els[0].key, els[0].val, conv);
    assert forall k :: 0 <= k < |els| - 1 ==> els[1..][k] == els[k + 1];
    if j > 0 {
      SettingsLastMatch(table, vals', els[1..], conv, i, j - 1);
    } else {
      SettingsUnnamed(table, vals', els[1..], conv, i);
    }
  }

  /** A C `int` passed where the setter takes an `unsigned int`. */
  function Unsigned(x: I32): (r: U32)
    ensures x >= 0 ==> r == x
    ensures x < 0 ==> r == x + 0x1_0000_0000
  {
    if x < 0 then x + 0x1_0000_0000 else x
  }

  /** The call entry i makes: a one-value setter gets vals[i], a two-value setter gets vals[0] and vals[i]. */
  function CallFor(table: seq<SubCommand>, vals: seq<I32>, i: nat, j: nat): Call
    requires i < |table| && j < |vals| && !table[i].handler.NoHandler? && vals[j] >= 0
  {
    match table[i].handler
    case Plain(name) => Call(name, [vals[j]])
    case Ext(name) => Call(name, [Unsigned(vals[0]), vals[j]])
  }

  /** Whether entry i is dispatched: it has a recorded value and a setter. */
  predicate Due(table: seq<SubCommand>, vals: seq<I32>, i: nat)
    requires i < |table| <= |vals|
  {
    vals[i] >= 0 && !table[i].handler.NoHandler?
  }

  /** The calls a dispatch from entry i on makes when no setter fails, in table order. */
  function Planned(table: seq<SubCommand>, vals: seq<I32>, i: nat): (r: seq<Call>)
    requires i <= |table| <= |vals|
    ensures |r| <= |table| - i
    decreases |table| - i
  {
    if i == |table| then []
    else if Due(table, vals, i) then [CallFor(table, vals, i, i)] + Planned(table, vals, i + 1)
    else Planned(table, vals, i + 1)
  }

  /**
   * The dispatch loop with `sub` advanced together with `i`: each due entry's
   * setter is called in table order; a negative result is returned at once,
   * otherwise the last result (or the incoming err) is returned.
   */
  function Dispatch(table: seq<SubCommand>, vals: seq<I32>, i: nat, err: I32, outcome: Call -> I32): (r: (I32, seq<Call>))
    requires i <= |table| <= |vals|
    ensures |r.1| <= |table| - i
    ensures r.1 == [] ==> r.0 == err
    decreases |table| - i
  {
    if i == |table| then (err, [])
    else if Due(table, vals, i) then
      var c := CallFor(table, vals, i, i);
      var res := outcome(c);
      if res < 0 then (res, [c])
      else
        var rest := Dispatch(table, vals, i + 1, res, outcome);
        (rest.0, [c] + rest.1)
    else Dispatch(table, vals, i + 1, err, outcome)
  }

  /**
   * Dispatch makes the planned calls in order and stops only at a failing
   * setter: its calls are a prefix of the plan, every call but the last
   * succeeded, a shorter trace means the last call failed and its result is
   * returned, and with no failure all planned calls are made.
   */
  lemma {:induction false} DispatchFollowsPlan(
    table: seq<SubCommand>, vals: seq<I32>, i: nat, err: I32, outcome: Call -> I32)
    requires i <= |table| <= |vals| && err >= 0
    ensures var (e, t) := Dispatch(table, vals, i, err, outcome);
      && t <= Planned(table, vals, i)
      && (forall k :: 0 <= k < |t| - 1 ==> outcome(t[k]) >= 0)
      && (e < 0 ==> t != [] && e == outcome(t[|t| - 1]))
      && (e >= 0 ==> t == Planned(table, vals, i) && e == if t == [] then err else outcome(t[|t| - 1]))
    decreases |table| - i
  {
    if i < |table| {
      var (e, t) := Dispatch(table, vals, i, err, outcome);
      if Due(table, vals, i) {
        var c := CallFor(table, vals, i, i);
        if outcome(c) >= 0 {
          DispatchFollowsPlan(table, vals, i + 1, outcome(c), outcome);
          var (e', t') := Dispatch(table, vals, i + 1, outcome(c), outcome);
          assert t == [c] + t';
          assert forall k :: 1 <= k < |t| ==> t[k] == t'[k - 1];
        }
      } else {
        DispatchFollowsPlan(table, vals, i + 1, err, outcome);
      }
    }
  }

  /** An entry whose recorded value is negative is never called, whatever the setters return. */
  lemma {:induction false} NegativeNeverPlanned(table: seq<SubCommand>, vals: seq<I32>, i: nat, j: nat)
    requires i <= j < |table| <= |vals| && vals[j] < 0
    ensures forall c :: c in Planned(table, vals, i) ==>
      exists k :: i <= k < |table| && k != j && Due(table, vals, k) && c == CallFor(table, vals, k, k)
    decreases |table| - i
  {
    if i < |table| {
      if i < j {
        NegativeNeverPlanned(table, vals, i + 1, j);
      } else {
        PlannedCalls(table, vals, i + 1);
      }
    }
  }

  /**
   * A value recorded as negative (a documented negative threshold or
   * calibration, say) never reaches its setter: every call the handler
   * makes belongs to some other entry.
   */
  lemma NegativeValueDropped(
    table: seq<SubCommand>, s: seq<char>, pos: nat, conv: string -> I32, outcome: Call -> I32, i: nat)
    requires |table| <= SetSize && Terminated(s, pos) && i < |table|
    requires ParsedSettings(table, s, pos, conv)[i] < 0
    ensures var vals := ParsedSettings(table, s, pos, conv);
      forall c :: c in Dispatch(table, vals, 0, 0, outcome).1 ==>
        exists k :: 0 <= k < |table| && k != i && Due(table, vals, k) && c == CallFor(table, vals, k, k)
  {
    var vals := ParsedSettings(table, s, pos, conv);
    DispatchFollowsPlan(table, vals, 0, 0, outcome);
    NegativeNeverPlanned(table, vals, 0, i);
    var t := Dispatch(table, vals, 0, 0, outcome).1;
    forall c | c in t
      ensures c in Planned(table, vals, 0)
    {
      var n :| 0 <= n < |t| && t[n] == c;
      assert Planned(table, vals, 0)[n] == c;
    }
  }

  /** Every planned call is the call of some due entry. */
  lemma {:induction false} PlannedCalls(table: seq<SubCommand>, vals: seq<I32>, i: nat)
    requires i <= |table| <= |vals|
    ensures forall c :: c in Planned(table, vals, i) ==>
      exists k :: i <= k < |table| && Due(table, vals, k) && c == CallFor(table, vals, k, k)
    decreases |table| - i
  {
    if i < |table| {
      PlannedCalls(table, vals, i + 1);
    }
  }

  /** How the dispatch loop as written ends: by returning, or by reading past `set[16]`. */
  datatype Loop = Returned(err: I32, trace: seq<Call>) | OutOfBounds(index: nat, trace: seq<Call>)

  /**
   * The dispatch loop as the driver has it: `i` advances but `sub` stays at
   * the first entry, so every recorded value is handed to the first entry's
   * setter, and while no setter fails the loop reads on past the last value.
   */
  function DispatchAsWritten(table: seq<SubCommand>, vals: seq<I32>, i: nat, err: I32, outcome: Call -> I32): (r: Loop)
    requires i <= |vals| && |table| <= |vals|
    ensures |table| > 0 && r.OutOfBounds? ==> r.index == |vals|
    decreases |vals| - i
  {
    if |table| == 0 then Returned(err, [])
    else if i == |vals| then OutOfBounds(i, [])
    else if vals[i] >= 0 && !table[0].handler.NoHandler? then
      var c := CallFor(table, vals, 0, i);
      var res := outcome(c);
      if res < 0 then Returned(res, [c])
      else
        match DispatchAsWritten(table, vals, i + 1, res, outcome)
        case Returned(e, t) => Returned(e, [c] + t)
        case OutOfBounds(n, t) => OutOfBounds(n, [c] + t)
    else DispatchAsWritten(table, vals, i + 1, err, outcome)
  }

  /** As written, a group with entries never returns normally while its setters succeed: it reads past the values. */
  lemma {:induction false} AsWrittenRunsOffEnd(table: seq<SubCommand>, vals: seq<I32>, i: nat, err: I32, outcome: Call -> I32)
    requires i <= |vals| && 0 < |table| <= |vals|
    requires forall c :: outcome(c) >= 0
    ensures DispatchAsWritten(table, vals, i, err, outcome).OutOfBounds?
    decreases |vals| - i
  {
    if i < |vals| {
      var e := if vals[i] >= 0 && !table[0].handler.NoHandler? then outcome(CallFor(table, vals, 0, i)) else err;
      AsWrittenRunsOffEnd(table, vals, i + 1, e, outcome);
    }
  }

  /** As written, values that are all unset make no call and the loop runs past the end. */
  lemma {:induction false} AsWrittenSkipsUnset(table: seq<SubCommand>, vals: seq<I32>, i: nat, err: I32, outcome: Call -> I32)
    requires i <= |vals| && 0 < |table| <= |vals|
    requires forall j :: i <= j < |vals| ==> vals[j] < 0
    ensures DispatchAsWritten(table, vals, i, err, outcome) == OutOfBounds(|vals|, [])
    decreases |vals| - i
  {
    if i < |vals| {
      AsWrittenSkipsUnset(table, vals, i + 1, err, outcome);
    }
  }

  /** `digit:port=2` records 2 for the second entry of the digital video table only. */
  lemma PortRecorded(conv: string -> I32)
    requires conv("2") == 2
    ensures ParsedSettings(DigitalVideoCommands, "digit:port=2" + [NUL], 6, conv) == Unset[1 := 2]
  {
    var s := "digit:port=2" + [NUL];
    assert Span(s, 6, ParmSize) == 4;
    assert Span(s, 11, ParmSize - 4) == 1;
    var e := Element("port", "2", 12);
    assert s[10] == '=' && s[12] == NUL;
    ParseElementUnfold(s, 6, ParmSize, 10, 11, 1);
    assert s[6..10] == "port" && s[11..12] == "2";
    assert ParseElement(s, 6, ParmSize) == e;
    assert Elements(s, 12, ParmSize) == [];
    assert Elements(s, 6, ParmSize) == [e];
    assert Record(DigitalVideoCommands, Unset, "port", "2", conv) == Unset[1 := 2];
    assert [e][1..] == [];
    assert Settings(DigitalVideoCommands, Unset, [e], conv)
        == Settings(DigitalVideoCommands, Unset[1 := 2], [], conv);
  }

  /** The values `digit:port=2` records: as written they go to the first setter, corrected to the second. */
  lemma PortValuesDispatch(outcome: Call -> I32)
    ensures var vals := Unset[1 := 2];
      && DispatchAsWritten(DigitalVideoCommands, vals, 0, 0, outcome).trace
         == [Call("plug417_set_external_synchronization", [2])]
      && Dispatch(DigitalVideoCommands, vals, 0, 0, outcome).1
         == [Call("plug417_set_digital_port_parallel_type", [2])]
  {
    var vals := Unset[1 := 2];
    var c := Call("plug417_set_external_synchronization", [2]);
    assert CallFor(DigitalVideoCommands, vals, 0, 1) == c;
    AsWrittenSkipsUnset(DigitalVideoCommands, vals, 2, outcome(c), outcome);
  }

  /**
   * `digit:port=2`, as recorded by PortRecorded. As written, the value goes
   * to the external-synchronization setter; the corrected loop calls the
   * parallel-port setter with it.
   */
  lemma PortGoesToWrongSetter(conv: string -> I32, outcome: Call -> I32)
    requires conv("2") == 2
    ensures var vals := ParsedSettings(DigitalVideoCommands, "digit:port=2" + [NUL], 6, conv);
      && DispatchAsWritten(DigitalVideoCommands, vals, 0, 0, outcome).trace
         == [Call("plug417_set_external_synchronization", [2])]
      && Dispatch(DigitalVideoCommands, vals, 0, 0, outcome).1
         == [Call("plug417_set_digital_port_parallel_type", [2])]
  {
    PortRecorded(conv);
    PortValuesDispatch(outcome);
  }

  /** The handler's match loop for one element: every entry the key names records its setting. */
  method RecordElement(table: seq<SubCommand>, vals: array<I32>, key: string, val: string, conv: string -> I32)
    requires |table| <= vals.Length
    modifies vals
    ensures vals[..] == Record(table, old(vals[..]), key, val, conv)
  {
    var i := 0;
    while i < |table|
      invariant 0 <= i <= |table|
      invariant forall j :: 0 <= j < i ==> vals[j] == Record(table, old(vals[..]), key, val, conv)[j]
      invariant forall j :: i <= j < vals.Length ==> vals[j] == old(vals[j])
    {
      var sub := table[i];
      if key == sub.cmd || (sub.alias.Some? && key == sub.alias.value) {
        vals[i] := if sub.fixed < 0 then conv(val) else sub.fixed;
      }
      i := i + 1;
    }
  }

  /** The handler's dispatch loop, with `sub` advanced together with `i`. */
  method DispatchLoop(table: seq<SubCommand>, vals: array<I32>, outcome: Call -> I32) returns (err: I32, trace: seq<Call>)
    requires |table| <= vals.Length
    ensures (err, trace) == Dispatch(table, vals[..], 0, 0, outcome)
  {
    ghost var v := vals[..];
    err, trace := 0, [];
    var i := 0;
    assert Dispatch(table, v, 0, 0, outcome).1 == trace + Dispatch(table, v, i, err, outcome).1;
    while i < |table|
      invariant 0 <= i <= |table| && v == vals[..]
      invariant Dispatch(table, v, 0, 0, outcome).0 == Dispatch(table, v, i, err, outcome).0
      invariant Dispatch(table, v, 0, 0, outcome).1 == trace + Dispatch(table, v, i, err, outcome).1
    {
      var sub := table[i];
      ghost var old_err := err;
      if vals[i] >= 0 {
        match sub.handler {
          case Plain(name) =>
            var call := Call(name, [vals[i]]);
            err := outcome(call);
            trace := trace + [call];
            if err < 0 {
              assert Dispatch(table, v, i, old_err, outcome) == (err, [call]);
              return;
            }
          case Ext(name) =>
            var call := Call(name, [Unsigned(vals[0]), vals[i]]);
            err := outcome(call);
            trace := trace + [call];
            if err < 0 {
              assert Dispatch(table, v, i, old_err, outcome) == (err, [call]);
              return;
            }
          case NoHandler =>
        }
      }
      i := i + 1;
    }
    assert trace + Dispatch(table, v, i, err, outcome).1 == trace;
  }

  /**
   * One command group: parse every element of s from pos on into the
   * recorded values, then dispatch them.
   */
  method CmdHandler(table: seq<SubCommand>, s: seq<char>, pos: nat, conv: string -> I32, outcome: Call -> I32)
    returns (err: I32, trace: seq<Call>)
    requires |table| <= SetSize && Terminated(s, pos)
    ensures (err, trace) == Dispatch(table, ParsedSettings(table, s, pos, conv), 0, 0, outcome)
  {
    var parm := new char[ModelBufferSize];
    var val := new char[ModelBufferSize];
    var vals := new I32[SetSize];
    for i := 0 to SetSize
      invariant forall j :: 0 <= j < i ==> vals[j] == -1
    {
      vals[i] := -1;
    }
    assert vals[..] == Unset;

    var c := pos;
    while s[c] != NUL
      invariant Terminated(s, c)
      invariant Settings(table, vals[..], Elements(s, c, ParmSize), conv) == ParsedSettings(table, s, pos, conv)
      decreases |s| - c
    {
      ghost var e := ParseElement(s, c, ParmSize);
      ParseElementKey(s, c, ParmSize);
      ParseElementBudget(s, c, ParmSize);
      ParseElementProgress(s, c, ParmSize);
      assert Elements(s, c, ParmSize) == [e] + Elements(s, e.next, ParmSize);
      c := ParseElm(s, c, parm, val, ParmSize);
      CStrHolds(parm, e.key);
      CStrHolds(val, e.val);
      RecordElement(table, vals, CStr(parm), CStr(val), conv);
    }
    err, trace := DispatchLoop(table, vals, outcome);
  }

  /** What SetCommand returns: a setter's code, or the uninitialised `err` when no group matched. */
  datatype Ret = Code(value: I32) | Indeterminate

  /** The first group named key. */
  function FindGroup(groups: seq<CommandGroup>, key: string): (r: Option<nat>)
    ensures r.Some? ==> r.value < |groups| && groups[r.value].cmd == key
    ensures r.None? ==> forall g :: 0 <= g < |groups| ==> groups[g].cmd != key
  {
    FindGroupFrom(groups, key, 0)
  }

  function FindGroupFrom(groups: seq<CommandGroup>, key: string, g: nat): (r: Option<nat>)
    requires g <= |groups|
    ensures r.Some? ==> g <= r.value < |groups| && groups[r.value].cmd == key
    ensures r.None? ==> forall h :: g <= h < |groups| ==> groups[h].cmd != key
    decreases |groups| - g
  {
    if g == |groups| then None
    else if groups[g].cmd == key then Some(g)
    else FindGroupFrom(groups, key, g + 1)
  }

  /** Every group's sub-commands fit the recorded values, and no two groups share a name. */
  predicate WellShaped(groups: seq<CommandGroup>)
  {
    && (forall g :: 0 <= g < |groups| ==> |groups[g].sub| <= SetSize)
    && (forall g, h :: 0 <= g < h < |groups| ==> groups[g].cmd != groups[h].cmd)
  }

  /** What selecting the group named key does with the rest of s: run its handler, or nothing. */
  function GroupResult(groups: seq<CommandGroup>, key: string, s: seq<char>, rest: nat, conv: string -> I32, outcome: Call -> I32)
    : (Ret, seq<Call>)
    requires WellShaped(groups) && Terminated(s, rest)
  {
    match FindGroup(groups, key)
    case None => (Indeterminate, [])
    case Some(g) =>
      var sub := groups[g].sub;
      var d := Dispatch(sub, ParsedSettings(sub, s, rest, conv), 0, 0, outcome);
      (Code(d.0), d.1)
  }

  /** The group loop of the entry point: the handler of every group named key is run on the rest of s. */
  method RunGroups(groups: seq<CommandGroup>, key: string, s: seq<char>, rest: nat, conv: string -> I32, outcome: Call -> I32)
    returns (r: Ret, trace: seq<Call>)
    requires WellShaped(groups) && Terminated(s, rest)
    ensures (r, trace) == GroupResult(groups, key, s, rest, conv, outcome)
  {
    ghost var f := FindGroup(groups, key);
    r, trace := Indeterminate, [];
    var g := 0;
    while g < |groups|
      invariant 0 <= g <= |groups|
      invariant (r, trace) == if f.Some? && f.value < g then GroupResult(groups, key, s, rest, conv, outcome) else (Indeterminate, [])
    {
      if key == groups[g].cmd {
        assert f == Some(g) && trace == [];
        var err, t := CmdHandler(groups[g].sub, s, rest, conv, outcome);
        assert trace + t == t;
        r, trace := Code(err), trace + t;
      }
      g := g + 1;
    }
  }

  /**
   * The group result with `err` given a defined start value, -1, the code
   * the library returns elsewhere on failure: every matched group keeps its
   * handler's result, and an unknown group yields -1 instead of an
   * uninitialised value.
   */
  function CheckedGroupResult(groups: seq<CommandGroup>, key: string, s: seq<char>, rest: nat, conv: string -> I32, outcome: Call -> I32)
    : (r: (I32, seq<Call>))
    requires WellShaped(groups) && Terminated(s, rest)
    ensures GroupResult(groups, key, s, rest, conv, outcome).0 == Indeterminate ==> r == (-1, [])
    ensures GroupResult(groups, key, s, rest, conv, outcome).0.Code? ==>
      r == (GroupResult(groups, key, s, rest, conv, outcome).0.value, GroupResult(groups, key, s, rest, conv, outcome).1)
  {
    match FindGroup(groups, key)
    case None => (-1, [])
    case Some(g) =>
      var sub := groups[g].sub;
      Dispatch(sub, ParsedSettings(sub, s, rest, conv), 0, 0, outcome)
  }

  /**
   * `foo:x=1` names no group, so the entry point as written returns its
   * uninitialised `err`; with `err` starting at -1 it returns -1.
   */
  lemma UnknownGroupIndeterminate(conv: string -> I32, outcome: Call -> I32)
    ensures var s := "foo:x=1" + [NUL];
      var e := ParseElement(s, 0, ParmSize);
      && e.key == "foo" && e.next == 4
      && FindGroup(CommandTable, e.key).None?
      && GroupResult(CommandTable, e.key, s, e.next, conv, outcome) == (Indeterminate, [])
      && CheckedGroupResult(CommandTable, e.key, s, e.next, conv, outcome) == (-1, [])
  {
    var s := "foo:x=1" + [NUL];
    assert Span(s, 0, ParmSize) == 3;
    assert s[3] == ':';
    ParseElementColon(s, 0, ParmSize, 3);
    assert s[0..3] == "foo";
    CommandTableShape();
  }

  /**
   * The command entry point: the first element names the group (or asks
   * for help), the rest of the string is that group's sub-commands.
   */
  method SetCommand(s: seq<char>, conv: string -> I32, outcome: Call -> I32) returns (r: Ret, trace: seq<Call>)
    requires Terminated(s, 0)
    ensures var e := ParseElement(s, 0, ParmSize);
      && (e.key == "help" ==> r == Code(0) && trace == [])
      && (e.key != "help" && FindGroup(CommandTable, e.key).None? ==> r == Indeterminate && trace == [])
      && (e.key != "help" && FindGroup(CommandTable, e.key).Some? ==>
            var sub := CommandTable[FindGroup(CommandTable, e.key).value].sub;
            var d := Dispatch(sub, ParsedSettings(sub, s, e.next, conv), 0, 0, outcome);
            r == Code(d.0) && trace == d.1)
  {
    ghost var e := ParseElement(s, 0, ParmSize);
    var parm := new char[ModelBufferSize];
    var val := new char[ModelBufferSize];
    var rest := ParseElm(s, 0, parm, val, ParmSize);
    ParseElementKey(s, 0, ParmSize);
    CStrHolds(parm, e.key);
    var key := CStr(parm);
    if key == "help" {
      return Code(0), [];
    }
    CommandTableShape();
    r, trace := RunGroups(CommandTable, key, s, rest, conv, outcome);
  }
}
