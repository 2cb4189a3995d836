/** The battery side of the dashboard: the bar drawing (`get_bar`), the nested
    lookup into power data (`safe_get`), the classification of
    `system_profiler SPPowerDataType` entries (`get_power_info`), the on-disk
    cache with a five-minute lifetime (`PowerManager`) and the readings the
    battery panel shows (`get_power_visual`). */
module Power {
  import opened Wrappers
  import opened Text
  import opened Json
  import opened Panels

  const BarChars: seq<char> := [' ', '▏', '▎', '▍', '▌', '▋', '▊', '▉', '█']
  const CacheTtl: int := 300
  const WidthFactor: int := 10
  const MinHeight: int := 1
  const MaxHeight: int := 4
  const BatteryOutlineColor: string := "#666666"
  const BorderStyle: string := "dim green"

  // ---------------------------------------------------------------------------
  // get_bar

  function ClampPercent(percentage: int): int
  {
    if percentage < 0 then 0 else if percentage > 100 then 100 else percentage
  }

  function ClampHeight(height: int): int
  {
    if height < MinHeight then MinHeight else if height > MaxHeight then MaxHeight else height
  }

  /** `int(float(height - 1) * 2.0 / 3.0) + 1`. For the clamped heights 1..4 the
      float quotient is never within rounding of an integer it is not, so
      truncating it equals integer division. */
  function CapWidth(height: int): int
    requires MinHeight <= height <= MaxHeight
  {
    (height - 1) * 2 / 3 + 1
  }

  /** `w1 = int(percentage * width / 100)`: the number of full cells. The float
      quotient of two integers is exact when it is whole and at least 1/100 off
      every integer otherwise, so truncation equals integer division. */
  function FullCells(percent: int, width: int): int
    requires 0 <= percent <= 100 && width >= 0
  {
    percent * width / 100
  }

  /** The index into `BAR_CHARS` of the partial character: `min(w2, 8)`. */
  function PartialIndex(percent: int): int
    requires 0 <= percent
  {
    var w2 := percent % 10;
    if w2 < |BarChars| - 1 then w2 else |BarChars| - 1
  }

  function Outline(s: string): string
  {
    "[" + BatteryOutlineColor + "]" + s + "[/" + BatteryOutlineColor + "]"
  }

  function TopBorder(width: nat): string
  {
    "  " + Outline("╭" + Repeat('─', width) + "╮")
  }

  function BottomBorder(width: nat): string
  {
    "  " + Outline("╰" + Repeat('─', width) + "╯")
  }

  /** The inside of a body row: what fills the `width` cells of the bar. */
  function FillCells(percent: int, width: nat): string
    requires 0 <= percent <= 100
  {
    if percent == 100 then Repeat('█', width)
    else
      var w1 := FullCells(percent, width);
      var w3 := width - w1 - 1;
      Repeat('█', if w1 >= 0 then w1 else 0) + [BarChars[PartialIndex(percent)]]
        + Repeat(' ', if w3 >= 0 then w3 else 0)
  }

  /** One body row of the bar, without its newline. */
  function BodyRow(percent: int, width: nat, capWidth: nat, fill: string): string
    requires 0 <= percent <= 100
  {
    "  " + Outline("│") + "[" + fill + "]" + FillCells(percent, width) + "[/" + fill + "]"
      + Outline("│" + Repeat('█', capWidth))
  }

  /** `n` copies of `row`, each followed by a newline. */
  function BodyRows(row: string, n: nat): string
  {
    if n == 0 then "" else BodyRows(row, n - 1) + row + "\n"
  }

  /** `get_bar(percentage, height)` with the fill style `fill` (the global
      `BATTERY_FILL_COLOR` at the time of the call). */
  function BarText(percentage: int, height: int, fill: string): string
  {
    var p := ClampPercent(percentage);
    var h := ClampHeight(height);
    var width := WidthFactor * h;
    TopBorder(width) + "\n" + BodyRows(BodyRow(p, width, CapWidth(h), fill), h) + BottomBorder(width)
  }

  /** `n` copies of `row`. */
  function Copies(row: string, n: nat): (r: seq<string>)
    ensures |r| == n && forall i :: 0 <= i < n ==> r[i] == row
  {
    if n == 0 then [] else [row] + Copies(row, n - 1)
  }

  /** The number of full cells is the percentage of the width rounded down;
      below 100% it leaves room for the partial character, so `w3 >= 0`. */
  lemma FullCellsBounds(p: int, h: int)
    requires 0 <= p <= 100 && MinHeight <= h <= MaxHeight
    ensures var width := WidthFactor * h; var w1 := FullCells(p, width);
      && w1 * 100 <= p * width < (w1 + 1) * 100
      && 0 <= w1 <= width
      && (p < 100 ==> width - w1 - 1 >= 0)
      && (p == 100 ==> w1 == width)
  {
    if h == 1 {
      assert FullCells(p, 10) == p * 10 / 100;
    } else if h == 2 {
      assert FullCells(p, 20) == p * 20 / 100;
    } else if h == 3 {
      assert FullCells(p, 30) == p * 30 / 100;
    } else {
      assert FullCells(p, 40) == p * 40 / 100;
    }
  }

  /** The bar's cells add up: below 100% a row holds `w1` full blocks, one
      partial character and `w3 = width - w1 - 1 >= 0` blanks; at 100% it
      holds `width` full blocks. Either way a row's cells are exactly
      `width = 10 * height` wide, and `w1` is the percentage of the width,
      rounded down. */
  lemma BarGeometry(percentage: int, height: int)
    ensures var p, h := ClampPercent(percentage), ClampHeight(height);
      && 0 <= p <= 100 && MinHeight <= h <= MaxHeight
      && var width := WidthFactor * h;
      && var w1 := FullCells(p, width);
      && w1 * 100 <= p * width < (w1 + 1) * 100
      && (p < 100 ==>
            0 <= w1 && width - w1 - 1 >= 0
            && FillCells(p, width) == Repeat('█', w1) + [BarChars[PartialIndex(p)]] + Repeat(' ', width - w1 - 1))
      && (p == 100 ==> FillCells(p, width) == Repeat('█', width))
      && |FillCells(p, width)| == width
  {
    FullCellsBounds(ClampPercent(percentage), ClampHeight(height));
  }

  /** The partial character is always a valid index into `BAR_CHARS`, and the
      cap is 1, 1, 2, 3 cells wide for heights 1 to 4. */
  lemma PartialAndCap(percent: int)
    requires 0 <= percent
    ensures 0 <= PartialIndex(percent) < |BarChars|
    ensures PartialIndex(percent) == if percent % 10 <= 8 then percent % 10 else 8
    ensures CapWidth(1) == 1 && CapWidth(2) == 1 && CapWidth(3) == 2 && CapWidth(4) == 3
  {
  }

  lemma {:induction false} BodyRowsFront(row: string, n: nat)
    requires n > 0
    ensures BodyRows(row, n) == row + "\n" + BodyRows(row, n - 1)
  {
    if n > 1 {
      BodyRowsFront(row, n - 1);
    }
  }

  lemma {:induction false} BodyRowsAsJoin(row: string, n: nat, bottom: string)
    ensures BodyRows(row, n) + bottom == JoinLines(Copies(row, n) + [bottom])
  {
    if n > 0 {
      BodyRowsAsJoin(row, n - 1, bottom);
      BodyRowsFront(row, n);
      var parts := Copies(row, n) + [bottom];
      assert parts[1..] == Copies(row, n - 1) + [bottom];
    }
  }

  lemma NoNewlineInRepeat(c: char, n: nat)
    requires c != '\n'
    ensures '\n' !in Repeat(c, n)
  {
  }

  /** No piece of the bar holds a newline of its own. */
  lemma BarPiecesOneLine(p: int, h: int, fill: string)
    requires 0 <= p <= 100 && MinHeight <= h <= MaxHeight && '\n' !in fill
    ensures '\n' !in TopBorder(WidthFactor * h) && '\n' !in BottomBorder(WidthFactor * h)
    ensures '\n' !in BodyRow(p, WidthFactor * h, CapWidth(h), fill)
  {
    var width := WidthFactor * h;
    FullCellsBounds(p, h);
    NoNewlineInRepeat('─', width);
    NoNewlineInRepeat('█', width);
    NoNewlineInRepeat('█', CapWidth(h));
    if p < 100 {
      NoNewlineInRepeat('█', FullCells(p, width));
      NoNewlineInRepeat(' ', width - FullCells(p, width) - 1);
    }
    assert '\n' !in FillCells(p, width);
  }

  lemma FramedJoin(top: string, row: string, n: nat, bottom: string)
    ensures top + "\n" + BodyRows(row, n) + bottom == JoinLines([top] + Copies(row, n) + [bottom])
  {
    var rest := Copies(row, n) + [bottom];
    BodyRowsAsJoin(row, n, bottom);
    var all := [top] + rest;
    assert all[0] == top && all[1..] == rest && |all| >= 2;
    assert [top] + Copies(row, n) + [bottom] == all;
  }

  lemma BarTextAsJoin(percentage: int, height: int, fill: string)
    ensures var h := ClampHeight(height); var width := WidthFactor * h;
      BarText(percentage, height, fill)
        == JoinLines([TopBorder(width)] + Copies(BodyRow(ClampPercent(percentage), width, CapWidth(h), fill), h) + [BottomBorder(width)])
  {
    var h := ClampHeight(height);
    var width := WidthFactor * h;
    FramedJoin(TopBorder(width), BodyRow(ClampPercent(percentage), width, CapWidth(h), fill), h, BottomBorder(width));
  }

  /** The bar is `height + 2` lines: the top border, `height` identical body
      rows and the bottom border (for a fill style without a newline). */
  lemma BarLines(percentage: int, height: int, fill: string)
    requires '\n' !in fill
    ensures var h := ClampHeight(height); var width := WidthFactor * h;
      SplitLines(BarText(percentage, height, fill))
        == [TopBorder(width)] + Copies(BodyRow(ClampPercent(percentage), width, CapWidth(h), fill), h) + [BottomBorder(width)]
    ensures |SplitLines(BarText(percentage, height, fill))| == ClampHeight(height) + 2
  {
    var p, h := ClampPercent(percentage), ClampHeight(height);
    var width := WidthFactor * h;
    var lines := [TopBorder(width)] + Copies(BodyRow(p, width, CapWidth(h), fill), h) + [BottomBorder(width)];
    BarTextAsJoin(percentage, height, fill);
    BarPiecesOneLine(p, h, fill);
    assert forall i :: 0 <= i < |lines| ==> '\n' !in lines[i];
    SplitJoinLines(lines);
  }

  lemma AppendRow(top: string, row: string, n: nat)
    ensures top + BodyRows(row, n) + row + "\n" == top + BodyRows(row, n + 1)
  {
  }

  /** One body row as the loop of `get_bar` writes it, from `w1`, `w2`, `w3`. */
  method BarRow(p: int, width: nat, capWidth: nat, w1: int, w2: int, w3: int, fill: string) returns (line: string)
    requires 0 <= p <= 100 && w1 == FullCells(p, width) && w2 == p % 10 && w3 == width - w1 - 1
    requires p < 100 ==> w1 >= 0 && w3 >= 0
    ensures line == BodyRow(p, width, capWidth, fill)
  {
    if p == 100 {
      line := "  " + Outline("│") + "[" + fill + "]" + Repeat('█', width) + "[/" + fill + "]"
        + Outline("│" + Repeat('█', capWidth));
    } else {
      var fillChar := BarChars[if w2 < |BarChars| - 1 then w2 else |BarChars| - 1];
      line := "  " + Outline("│") + "[" + fill + "]" + (Repeat('█', w1) + [fillChar] + Repeat(' ', w3))
        + "[/" + fill + "]" + Outline("│" + Repeat('█', capWidth));
    }
  }

  /** `get_bar`: the top border, one body row per unit of height, the bottom border. */
  method GetBar(percentage: int, height: int, fill: string) returns (bat: string)
    ensures bat == BarText(percentage, height, fill)
  {
    var p := if percentage < 0 then 0 else if percentage > 100 then 100 else percentage;
    var h := height;
    if h < MinHeight {
      h := MinHeight;
    } else if h > MaxHeight {
      h := MaxHeight;
    }
    assert p == ClampPercent(percentage) && h == ClampHeight(height);
    var width := WidthFactor * h;
    var capWidth := (h - 1) * 2 / 3 + 1;
    assert capWidth == CapWidth(h);
    bat := TopBorder(width) + "\n";
    var w1 := p * width / 100;
    var w2 := p % 10;
    var w3 := width - w1 - 1;
    FullCellsBounds(p, h);
    ghost var row := BodyRow(p, width, capWidth, fill);
    assert bat == TopBorder(width) + "\n" + BodyRows(row, 0);
    for i := 0 to h
      invariant bat == TopBorder(width) + "\n" + BodyRows(row, i)
    {
      var line := BarRow(p, width, capWidth, w1, w2, w3, fill);
      AppendRow(TopBorder(width) + "\n", row, i);
      bat := bat + line + "\n";
    }
    bat := bat + BottomBorder(width);
  }

  // ---------------------------------------------------------------------------
  // safe_get

  /** The value reached by following `keys` from `data`, if every step lands on
      a mapping that holds the next key. */
  function Lookup(data: Json, keys: seq<string>): Option<Json>
  {
    if keys == [] then Some(data)
    else match Subscript(data, keys[0])
      case None => None
      case Some(next) => Lookup(next, keys[1..])
  }

  function LookupOr(data: Json, keys: seq<string>, default: Json): Json
  {
    match Lookup(data, keys)
    case Some(v) => v
    case None => default
  }

  /** Following a path in two legs is following it at once. */
  lemma {:induction false} LookupConcat(data: Json, first: seq<string>, rest: seq<string>)
    ensures Lookup(data, first + rest) ==
      match Lookup(data, first)
      case None => None
      case Some(mid) => Lookup(mid, rest)
  {
    if first == [] {
      assert first + rest == rest;
    } else {
      assert (first + rest)[0] == first[0];
      assert (first + rest)[1..] == first[1..] + rest;
      match Subscript(data, first[0])
      case None =>
      case Some(next) => LookupConcat(next, first[1..], rest);
    }
  }

  /** A path leads somewhere exactly when each of its prefixes does and the
      value reached so far is a mapping holding the next key. */
  lemma LookupStep(data: Json, keys: seq<string>, key: string)
    ensures Lookup(data, keys + [key]) ==
      match Lookup(data, keys)
      case None => None
      case Some(mid) => if mid.JObject? && key in mid.fields then Some(mid.fields[key]) else None
  {
    LookupConcat(data, keys, [key]);
  }

  /** `safe_get(data, *keys, default=default)`. */
  method SafeGet(data: Json, keys: seq<string>, default: Json) returns (r: Json)
    ensures keys == [] ==> r == data
    ensures r == LookupOr(data, keys, default)
  {
    var current := data;
    for i := 0 to |keys|
      invariant Lookup(data, keys[..i]) == Some(current)
    {
      LookupStep(data, keys[..i], keys[i]);
      assert keys[..i + 1] == keys[..i] + [keys[i]];
      match Subscript(current, keys[i])
      case None =>
        LookupConcat(data, keys[..i + 1], keys[i + 1..]);
        assert keys[..i + 1] + keys[i + 1..] == keys;
        return default;
      case Some(next) =>
        current := next;
    }
    assert keys[..|keys|] == keys;
    r := current;
  }

  // ---------------------------------------------------------------------------
  // get_power_info: classifying SPPowerDataType entries

  /** The slot of `pj` that an entry named `name` is stored under. */
  function SlotFor(name: Json): Option<string>
  {
    if name == JString("spbattery_information") then Some("battery")
    else if name == JString("sppower_information") then Some("power")
    else if name == JString("sppower_ac_charger_information") then Some("ac_charger")
    else if name == JString("sppower_hwconfig_information") then Some("ups")
    else None
  }

  /** The slot an entry goes to, if it is a mapping with a recognised `_name`. */
  function SlotOf(entry: Json): Option<string>
  {
    if entry.JObject? && "_name" in entry.fields then SlotFor(entry.fields["_name"]) else None
  }

  /** The entry with `_name` popped. */
  function Stripped(entry: Json): Json
    requires entry.JObject?
  {
    JObject(entry.fields - {"_name"})
  }

  predicate IsSlot(slot: string)
  {
    slot == "battery" || slot == "power" || slot == "ac_charger" || slot == "ups"
  }

  /** The dictionary `pj` after the loop over `entries`. Every entry must be a
      mapping (`p.get` raises otherwise); an entry with a recognised name is
      stored, without its `_name`, in its slot, a later one overwriting an
      earlier one; every other entry is ignored. */
  function Classify(entries: seq<Json>): (r: Outcome<map<string, Json>>)
    ensures r.Ok? <==> forall i :: 0 <= i < |entries| ==> entries[i].JObject?
    ensures r.Raised? ==> r.kind == Error
  {
    if entries == [] then Ok(map[])
    else
      var init := entries[..|entries| - 1];
      var p := entries[|entries| - 1];
      match Classify(init)
      case Raised(k) => Raised(k)
      case Ok(pj) =>
        if !p.JObject? then Raised(Error)
        else match SlotOf(p)
          case None => Ok(pj)
          case Some(slot) => Ok(pj[slot := Stripped(p)])
  }

  /** One more entry changes the dictionary only in that entry's slot. */
  lemma ClassifyStep(entries: seq<Json>)
    requires entries != [] && Classify(entries).Ok?
    ensures Classify(entries[..|entries| - 1]).Ok?
    ensures var pj := Classify(entries[..|entries| - 1]).value; var p := entries[|entries| - 1];
      Classify(entries).value == match SlotOf(p) case None => pj case Some(slot) => pj[slot := Stripped(p)]
  {
  }

  /** Every key of the classified dictionary is a slot some entry is named for. */
  lemma {:induction false} ClassifyOnlyNamed(entries: seq<Json>, slot: string) returns (i: nat)
    requires Classify(entries).Ok? && slot in Classify(entries).value
    ensures i < |entries| && SlotOf(entries[i]) == Some(slot) && IsSlot(slot)
  {
    var init, last := entries[..|entries| - 1], |entries| - 1;
    ClassifyStep(entries);
    if SlotOf(entries[last]) == Some(slot) {
      i := last;
    } else {
      i := ClassifyOnlyNamed(init, slot);
      assert entries[i] == init[i];
    }
  }

  /** Every slot some entry is named for is a key of the classified dictionary. */
  lemma {:induction false} ClassifyHasNamed(entries: seq<Json>, i: nat)
    requires Classify(entries).Ok? && i < |entries| && SlotOf(entries[i]).Some?
    ensures SlotOf(entries[i]).value in Classify(entries).value
  {
    var init, last := entries[..|entries| - 1], |entries| - 1;
    ClassifyStep(entries);
    if i < last {
      assert init[i] == entries[i];
      ClassifyHasNamed(init, i);
    }
  }

  /** The classified dictionary has a slot exactly when some entry is named
      for it, and it has no other keys. */
  lemma ClassifySlots(entries: seq<Json>, slot: string)
    requires Classify(entries).Ok?
    ensures slot in Classify(entries).value <==> exists i :: 0 <= i < |entries| && SlotOf(entries[i]) == Some(slot)
    ensures slot in Classify(entries).value ==> IsSlot(slot)
  {
    if slot in Classify(entries).value {
      var i := ClassifyOnlyNamed(entries, slot);
    }
    forall i | 0 <= i < |entries| && SlotOf(entries[i]) == Some(slot) ensures slot in Classify(entries).value {
      ClassifyHasNamed(entries, i);
    }
  }

  /** A slot holds the last entry named for it, with its `_name` removed. */
  lemma {:induction false} ClassifyLast(entries: seq<Json>, i: int)
    requires Classify(entries).Ok?
    requires 0 <= i < |entries| && SlotOf(entries[i]).Some?
    requires forall j :: i < j < |entries| ==> SlotOf(entries[j]) != SlotOf(entries[i])
    ensures SlotOf(entries[i]).value in Classify(entries).value
    ensures Classify(entries).value[SlotOf(entries[i]).value] == Stripped(entries[i])
  {
    var init := entries[..|entries| - 1];
    if i < |entries| - 1 {
      assert init[i] == entries[i];
      assert forall j :: i < j < |init| ==> init[j] == entries[j];
      ClassifyLast(init, i);
    }
  }

  /** The loop of `get_power_info` over the entries of its parsed output. */
  method ClassifyEntries(entries: seq<Json>) returns (r: Outcome<map<string, Json>>)
    ensures r == Classify(entries)
  {
    var pj: map<string, Json> := map[];
    for i := 0 to |entries|
      invariant Classify(entries[..i]) == Ok(pj)
    {
      assert entries[..i + 1][..i] == entries[..i];
      var p := entries[i];
      if !p.JObject? {
        ClassifyRaisedExtends(entries[..i + 1], entries[i + 1..]);
        assert entries[..i + 1] + entries[i + 1..] == entries;
        return Raised(Error);
      }
      var name := if "_name" in p.fields then p.fields["_name"] else JNull;
      match SlotFor(name)
      case None =>
      case Some(slot) =>
        pj := pj[slot := Stripped(p)];
    }
    assert entries[..|entries|] == entries;
    r := Ok(pj);
  }

  lemma {:induction false} ClassifyRaisedExtends(entries: seq<Json>, more: seq<Json>)
    requires Classify(entries).Raised?
    ensures Classify(entries + more) == Raised(Error)
  {
    if more == [] {
      assert entries + more == entries;
    } else {
      var longer := entries + more[..|more| - 1];
      ClassifyRaisedExtends(entries, more[..|more| - 1]);
      assert (entries + more)[..|entries + more| - 1] == longer;
    }
  }

  /** `get_power_info()` given what `system_profiler -json SPPowerDataType`
      did: a failed or undecodable run exits the process; an output that is
      not a mapping, or whose `SPPowerDataType` is not a list of mappings,
      raises; otherwise the classified dictionary. */
  function PowerInfo(run: ProfilerRun): Outcome<Json>
  {
    match run
    case Unavailable => Raised(SystemExit)
    case Printed(None) => Raised(SystemExit)
    case Printed(Some(pi)) =>
      var listed :- Get(pi, "SPPowerDataType", JList([]));
      var entries :- DictEntries(listed);
      var pj :- Classify(entries);
      Ok(JObject(pj))
  }

  method GetPowerInfo(run: ProfilerRun) returns (r: Outcome<Json>)
    ensures r == PowerInfo(run)
  {
    match run
    case Unavailable => return Raised(SystemExit);
    case Printed(None) => return Raised(SystemExit);
    case Printed(Some(pi)) =>
      var listed :- Get(pi, "SPPowerDataType", JList([]));
      var entries :- DictEntries(listed);
      var pj := ClassifyEntries(entries);
      match pj
      case Raised(k) => return Raised(k);
      case Ok(m) => return Ok(JObject(m));
  }

  /** Only a failed `system_profiler` run exits; every other failure is an ordinary error. */
  lemma PowerInfoOutcomes(run: ProfilerRun)
    ensures PowerInfo(run) == Raised(SystemExit) <==> run.Unavailable? || run.parsed.None?
    ensures PowerInfo(run).Ok? ==> PowerInfo(run).value.JObject?
  {
  }

  // ---------------------------------------------------------------------------
  // The power data cache

  /** What reading the cache file gives: JSON, text that does not decode, or
      an error other than a missing file or a decoding error. */
  datatype FileContent = Parsed(json: Json) | Malformed | Unreadable

  /** The cache file on disk: its content and its modification time. */
  datatype CacheFile = CacheFile(content: FileContent, mtime: int)

  /** `is_cache_stale`: the file is missing or older than the lifetime. */
  predicate IsStale(file: Option<CacheFile>, now: int)
  {
    file.None? || now - file.value.mtime > CacheTtl
  }

  /** `get_cache`: a missing or undecodable file reads as the empty mapping. */
  function ReadCache(file: Option<CacheFile>): Outcome<Json>
  {
    match file
    case None => Ok(JObject(map[]))
    case Some(CacheFile(content, _)) =>
      match content
      case Parsed(j) => Ok(j)
      case Malformed => Ok(JObject(map[]))
      case Unreadable => Raised(Error)
  }

  /** One call of `get_power_data`: what it returns, the cache file and the
      global `cache_mtime` afterwards, and whether it ran `system_profiler`. */
  datatype CacheStep = CacheStep(result: Outcome<Json>, file: Option<CacheFile>, mtime: int, fetched: bool)

  /** `get_power_data()` at time `now`, given the run of `system_profiler` it
      would make and whether the cache file can be written. `is_cache_stale`
      first copies the file's mtime into `cache_mtime` when the file exists. */
  function PowerData(file: Option<CacheFile>, mtime: int, now: int, run: ProfilerRun, writable: bool): CacheStep
  {
    var seen := if file.Some? then file.value.mtime else mtime;
    if IsStale(file, now) then
      match PowerInfo(run)
      case Raised(k) => CacheStep(Raised(k), file, seen, true)
      case Ok(info) =>
        if writable then CacheStep(Ok(info), Some(CacheFile(Parsed(info), now)), now, true)
        else CacheStep(Raised(SystemExit), file, seen, true)
    else CacheStep(ReadCache(file), file, seen, false)
  }

  /** The fetch happens exactly when the cache is stale: missing, or strictly
      more than 300 seconds old. A fresh cache is served as it is, unchanged,
      whatever `system_profiler` would have said. */
  lemma CacheFetchesIffStale(file: Option<CacheFile>, mtime: int, now: int, run: ProfilerRun, writable: bool)
    ensures PowerData(file, mtime, now, run, writable).fetched <==> (file.None? || now - file.value.mtime > 300)
    ensures !IsStale(file, now) ==>
      forall run': ProfilerRun, writable': bool :: PowerData(file, mtime, now, run', writable')
        == CacheStep(ReadCache(file), file, file.value.mtime, false)
  {
  }

  /** A successful refresh stores the fresh data with the current time, and
      for the next 300 seconds every call returns that same data without
      running `system_profiler`; one second later the cache is stale again. */
  lemma RefreshThenHit(file: Option<CacheFile>, mtime: int, now: int, run: ProfilerRun, later: int, run': ProfilerRun, writable': bool)
    requires IsStale(file, now) && PowerInfo(run).Ok?
    requires now <= later
    ensures var first := PowerData(file, mtime, now, run, true);
      && first.result == PowerInfo(run)
      && first.file == Some(CacheFile(Parsed(PowerInfo(run).value), now))
      && first.mtime == now
      && var second := PowerData(first.file, first.mtime, later, run', writable');
      && (later <= now + CacheTtl ==> second == CacheStep(first.result, first.file, now, false))
      && (later > now + CacheTtl ==> second.fetched)
  {
  }

  /** The cache file and the global `cache_mtime`; `PowerManager` objects hold
      no other state, so one object stands for every instance made. */
  class PowerCache {
    var file: Option<CacheFile>
    var cacheMtime: int

    /** The module's import: `cache_mtime = 0.0`, the file as found on disk. */
    constructor(onDisk: Option<CacheFile>)
      ensures file == onDisk && cacheMtime == 0
    {
      file := onDisk;
      cacheMtime := 0;
    }

    method IsCacheStale(now: int) returns (stale: bool)
      modifies this`cacheMtime
      ensures stale == IsStale(file, now)
      ensures cacheMtime == if file.Some? then file.value.mtime else old(cacheMtime)
    {
      match file
      case None =>
        return true;
      case Some(f) =>
        cacheMtime := f.mtime;
        return now - cacheMtime > CacheTtl;
    }

    method GetCache() returns (r: Outcome<Json>)
      ensures r == ReadCache(file)
    {
      match file
      case None => r := Ok(JObject(map[]));
      case Some(f) =>
        match f.content
        case Parsed(j) => r := Ok(j);
        case Malformed => r := Ok(JObject(map[]));
        case Unreadable => r := Raised(Error);
    }

    /** `write_cache`: on failure the process exits and the file is left as it was. */
    method WriteCache(info: Json, now: int, writable: bool) returns (r: Outcome<()>)
      modifies this`file
      ensures r == if writable then Ok(()) else Raised(SystemExit)
      ensures file == if writable then Some(CacheFile(Parsed(info), now)) else old(file)
    {
      if !writable {
        return Raised(SystemExit);
      }
      file := Some(CacheFile(Parsed(info), now));
      r := Ok(());
    }

    method GetPowerData(now: int, run: ProfilerRun, writable: bool) returns (r: Outcome<Json>)
      modifies this
      ensures var step := PowerData(old(file), old(cacheMtime), now, run, writable);
        r == step.result && file == step.file && cacheMtime == step.mtime
    {
      var stale := IsCacheStale(now);
      if stale {
        var powerInfo := GetPowerInfo(run);
        if powerInfo.Raised? {
          return powerInfo;
        }
        var written := WriteCache(powerInfo.value, now, writable);
        if written.Raised? {
          return Raised(written.kind);
        }
        cacheMtime := now;
        r := powerInfo;
      } else {
        r := GetCache();
      }
    }
  }

  // ---------------------------------------------------------------------------
  // get_power_visual: the readings and the panel

  /** `int(v)`, falling back to 0 where Python raises `ValueError` or `TypeError`. */
  function PyInt(v: Json): int
  {
    match v
    case JInt(i) => i
    case JBool(b) => if b then 1 else 0
    case JString(s) => if ParseInt(s).Some? then ParseInt(s).value else 0
    case _ => 0
  }

  /** `int(s)` for an optional sign followed by decimal digits. */
  function ParseInt(s: string): Option<int>
  {
    if |s| > 0 && (s[0] == '-' || s[0] == '+') then
      var body := s[1..];
      if |body| > 0 && AllDigits(body) then Some(if s[0] == '-' then -Value(body) else Value(body)) else None
    else if |s| > 0 && AllDigits(s) then Some(Value(s))
    else None
  }

  /** A percentage stored as text reads back as the number it spells. */
  lemma ParseIntRoundTrip(n: int)
    ensures n >= 0 ==> ParseInt(Digits(n)) == Some(n)
    ensures n < 0 ==> ParseInt("-" + Digits(-n)) == Some(n)
    ensures PyInt(JString(if n >= 0 then Digits(n) else "-" + Digits(-n))) == n
  {
    if n >= 0 {
      DigitsRoundTrip(n);
    } else {
      DigitsRoundTrip(-n);
      assert ("-" + Digits(-n))[1..] == Digits(-n);
    }
  }

  const ChargeInfo: seq<string> := ["battery", "sppower_battery_charge_info"]
  const HealthInfo: seq<string> := ["battery", "sppower_battery_health_info"]

  /** The readings at the top of `get_power_visual`, each a `safe_get` with its default. */
  function Readings(info: Json): BatteryReadings
  {
    BatteryReadings(
      percent := PyInt(LookupOr(info, ChargeInfo + ["sppower_battery_state_of_charge"], JInt(0))),
      charging := LookupOr(info, ChargeInfo + ["sppower_battery_is_charging"], JString("FALSE")) == JString("TRUE"),
      warning := LookupOr(info, ChargeInfo + ["sppower_battery_at_warn_level"], JString("FALSE")) == JString("TRUE"),
      health := LookupOr(info, HealthInfo + ["sppower_battery_health"], JString("Unknown")),
      maxCapacity := LookupOr(info, HealthInfo + ["sppower_battery_health_maximum_capacity"], JString("N/A")),
      cycleCount := LookupOr(info, HealthInfo + ["sppower_battery_cycle_count"], JString("N/A")),
      chargerConnected := LookupOr(info, ["ac_charger", "sppower_battery_charger_connected"], JString("FALSE")) == JString("TRUE"),
      chargerWatts := LookupOr(info, ["ac_charger", "sppower_ac_charger_watts"], JString("N/A")))
  }

  /** With no battery or charger data at all (the empty mapping a missing
      cache file reads as, or a value that is not a mapping), every reading
      takes its default. */
  lemma ReadingsDefaults(info: Json)
    requires !info.JObject? || ("battery" !in info.fields && "ac_charger" !in info.fields)
    ensures Readings(info) == BatteryReadings(0, false, false, JString("Unknown"), JString("N/A"), JString("N/A"), false, JString("N/A"))
  {
  }

  /** A stored charge reading is the percentage drawn, whether stored as a
      number or as its text. */
  lemma ReadingsPercent(info: Json, n: int)
    requires Lookup(info, ChargeInfo + ["sppower_battery_state_of_charge"]) in {Some(JInt(n)), Some(JString(if n >= 0 then Digits(n) else "-" + Digits(-n)))}
    ensures Readings(info).percent == n
  {
    ParseIntRoundTrip(n);
  }

  /** `BATTERY_FILL_COLOR` as `get_power_visual` sets it before drawing the bar. */
  function FillColor(charging: bool): string
  {
    if charging then "green on #333333" else "white on #333333"
  }

  const PowerTitle: string := "[#ffff00]\U{f242}[/#ffff00]  [#aaffaa]Battery Status[/#aaffaa]"

  /** `get_power_visual(power_info, height)`, drawn when the global
      `cache_mtime` holds `updatedAt` (shown as "Last Updated"). */
  function PowerVisual(info: Json, height: int, updatedAt: int): Panel
  {
    var r := Readings(info);
    Panel(Battery(BarText(r.percent, height, FillColor(r.charging)), r, updatedAt), BorderStyle, Some(PowerTitle))
  }

  /** The battery panel draws a bar of `height + 2` lines (1 to 4 body rows)
      whose body rows show the stored charge, clamped to 0..100, in a fill
      that is green exactly when the battery is charging. */
  lemma PowerVisualShowsCharge(info: Json, height: int, updatedAt: int)
    ensures var r, panel := Readings(info), PowerVisual(info, height, updatedAt);
      var h := ClampHeight(height); var width := WidthFactor * h;
      && panel.borderStyle == "dim green"
      && SplitLines(panel.content.bar)
        == [TopBorder(width)] + Copies(BodyRow(ClampPercent(r.percent), width, CapWidth(h), FillColor(r.charging)), h) + [BottomBorder(width)]
      && |SplitLines(panel.content.bar)| == h + 2
      && |FillCells(ClampPercent(r.percent), width)| == width
      && (FillColor(r.charging) == "green on #333333" <==> r.charging)
  {
    var r := Readings(info);
    BarLines(r.percent, height, FillColor(r.charging));
    BarGeometry(r.percent, height);
  }
}
