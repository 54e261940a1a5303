/**
 * The timetable service: it reads a spreadsheet of bus departure times into
 * station -> route number -> sorted times, and answers "which buses leave this station next"
 * with the seconds until each departure, rolling times already past over to tomorrow.
 *
 * The spreadsheet is given as its evaluated cells; POI's number formatting and date conversion
 * happen outside the model and arrive as each numeric cell's text and time of day.
 */
module LocalBusArrival {
  import opened Wrappers
  import opened Strings
  import Sorting
  import StationIds

  /** A time of day in whole seconds. */
  type SecondOfDay = x: int | 0 <= x < 86400

  /** An evaluated cell (formula cells appear as the type of their result). */
  datatype Cell =
    | Missing
    | StrCell(raw: string)
    /** A numeric cell: the text the reader renders for it, and the time of day it stands for when it
        is date-formatted or a fraction of a day strictly between 0 and 1. */
    | NumCell(text: string, time: Option<SecondOfDay>)
    | BoolCell(b: bool)
    | OtherCell

  /** The cells of one row, up to its last cell. */
  type Row = seq<Cell>

  const ROUTE_NO_HEADER: string := "노선번호"
  const TERMINAL_WORD: string := "터미널"
  const STATION_WORD: string := "충주역"
  const KNUT_WORD: string := "교통대"
  const DIRECT_WORD: string := "직행"

  // ---------------------------------------------------------------------------------------------
  // Cells as text

  function CellText(c: Cell): string {
    match c
    case StrCell(raw) => JavaTrim(raw)
    case NumCell(text, _) => text
    case BoolCell(b) => if b then "true" else "false"
    case _ => ""
  }

  function RowTexts(row: Row): (texts: seq<string>)
    ensures |texts| == |row| && forall i :: 0 <= i < |row| ==> texts[i] == CellText(row[i])
  {
    seq(|row|, i requires 0 <= i < |row| => CellText(row[i]))
  }

  /** `row.getCell(c)`: a column past the row's last cell is missing. */
  function CellAt(row: Row, c: nat): Cell {
    if c < |row| then row[c] else Missing
  }

  function SafeGet(texts: seq<string>, i: nat): string {
    if i < |texts| then texts[i] else ""
  }

  // ---------------------------------------------------------------------------------------------
  // Route numbers: `\d{2,4}(-\d)?`, e.g. "112" or "112-1"

  predicate IsRouteNo(t: string) {
    (2 <= |t| <= 4 && AllDigits(t)) ||
    (4 <= |t| <= 6 && t[|t| - 2] == '-' && IsDigit(t[|t| - 1]) && AllDigits(t[..|t| - 2]))
  }

  /** `parseRouteNo`: the trimmed cell text when it is a route number. */
  function ParseRouteNo(s: string): (r: Option<string>)
    ensures r.Some? <==> IsRouteNo(JavaTrim(s))
    ensures r.Some? ==> r.value == JavaTrim(s)
  {
    var t := JavaTrim(s);
    if JavaIsBlank(t) then None
    else if IsRouteNo(t) then Some(t)
    else
      None
  }

  /** A route number reads back as itself, whatever white space surrounds it. */
  lemma ParseRouteNoRoundTrip(t: string, pad: string, pad2: string)
    requires IsRouteNo(t)
    requires forall i :: 0 <= i < |pad| ==> pad[i] == ' '
    requires forall i :: 0 <= i < |pad2| ==> pad2[i] == ' '
    ensures ParseRouteNo(pad + t + pad2) == Some(t)
  {
    assert !IsJavaTrimmed(t[0]) && !IsJavaTrimmed(t[|t| - 1]);
    assert pad + t + pad2 == pad + (t + pad2);
    TrimStartPadding(t + pad2, pad, IsJavaTrimmed);
    assert TrimStart(t + pad2, IsJavaTrimmed) == t + pad2;
    TrimEndPadding(t, pad2, IsJavaTrimmed);
    assert JavaTrim(pad + t + pad2) == t;
  }

  // ---------------------------------------------------------------------------------------------
  // Times in string cells

  function Digit(c: char): nat
    requires IsDigit(c)
  {
    (c as int) - ('0' as int)
  }

  /** `s` has the shape `\d{h}:\d{2}` (or `\d{h}:\d{2}:\d{2}` when `seconds`) for an hour width `h`. */
  predicate ClockShape(s: string, h: nat, seconds: bool) {
    1 <= h <= 2 && |s| == h + (if seconds then 6 else 3) && AllDigits(s[..h]) &&
    s[h] == ':' && IsDigit(s[h + 1]) && IsDigit(s[h + 2]) &&
    (seconds ==> s[h + 3] == ':' && IsDigit(s[h + 4]) && IsDigit(s[h + 5]))
  }

  /** `s.matches("\\d{1,2}:\\d{2}(:\\d{2})?")` with or without the seconds part. */
  predicate MatchesClock(s: string, seconds: bool) {
    ClockShape(s, 1, seconds) || ClockShape(s, 2, seconds)
  }

  function TwoDigitValue(s: string, i: nat): nat
    requires i + 1 < |s| && IsDigit(s[i]) && IsDigit(s[i + 1])
  {
    10 * Digit(s[i]) + Digit(s[i + 1])
  }

  /**
   * `LocalTime.parse(s).withSecond(0)` for the text `HH:mm:ss` (ISO local time, so the hour has two
   * digits), with a parse error as `None`.
   */
  function IsoTimeToMinute(s: string): (r: Option<SecondOfDay>)
    ensures r.Some? ==> r.value % 60 == 0
  {
    if ClockShape(s, 2, true) && TwoDigitValue(s, 0) <= 23 && TwoDigitValue(s, 3) <= 59 && TwoDigitValue(s, 6) <= 59
    then Some(TwoDigitValue(s, 0) * 3600 + TwoDigitValue(s, 3) * 60)
    else None
  }

  /** The parse step of the string branch as written: the text goes to `LocalTime.parse` unchanged. */
  function ParseClockAsWritten(s: string): Option<SecondOfDay> {
    if MatchesClock(s, true) then IsoTimeToMinute(s)
    else if MatchesClock(s, false) then IsoTimeToMinute(s + ":00")
    else None
  }

  /** Left-pads a one-digit hour with "0". */
  function PadHour(s: string): string {
    if |s| >= 2 && s[1] == ':' then "0" + s else s
  }

  /** The parse step with the one-digit hours the comments describe ("8:10") padded before parsing. */
  function ParseClock(s: string): (r: Option<SecondOfDay>)
    ensures r.Some? ==> r.value % 60 == 0
  {
    if MatchesClock(s, true) then IsoTimeToMinute(PadHour(s))
    else if MatchesClock(s, false) then IsoTimeToMinute(PadHour(s) + ":00")
    else None
  }

  /** The text before the first '/'. */
  function BeforeSlash(s: string): (r: string)
    ensures |r| <= |s| && r == s[..|r|] && '/' !in r
    ensures |r| < |s| ==> s[|r|] == '/'
  {
    if s == [] || s[0] == '/' then [] else [s[0]] + BeforeSlash(s[1..])
  }

  /**
   * The text the string branch parses, or `None` when it stops early: blank, a "직행" (express)
   * marker, or an all-slash string, where `split("/")` yields no parts and indexing it throws.
   */
  function TimeText(raw: string): Option<string> {
    var t := JavaTrim(raw);
    if JavaIsBlank(t) then None
    else if Contains(t, DIRECT_WORD) then None
    else if Contains(t, "/") then
      if forall i :: 0 <= i < |t| ==> t[i] == '/' then None
      else Some(JavaTrim(BeforeSlash(t)))
    else Some(t)
  }

  function StringCellTimeAsWritten(raw: string): Option<SecondOfDay> {
    match TimeText(raw)
    case Some(t) => ParseClockAsWritten(t)
    case None => None
  }

  function StringCellTime(raw: string): Option<SecondOfDay> {
    match TimeText(raw)
    case Some(t) => ParseClock(t)
    case None => None
  }

  /** `parseTimeCell` with the corrected clock parse of a string cell (`StringCellTimeAsWritten`
      is the source as written): every time is truncated to its minute. */
  function ParseTimeCell(c: Cell): (r: Option<SecondOfDay>)
    ensures r.Some? ==> r.value % 60 == 0
    ensures (c.Missing? || c.BoolCell? || c.OtherCell?) ==> r.None?
  {
    match c
    case NumCell(_, t) => if t.Some? then Some(t.value - t.value % 60) else None
    case StrCell(raw) => StringCellTime(raw)
    case _ => None
  }

  /** `tens` and `ones` as two decimal digits. */
  function TwoDigits(n: nat): (s: string)
    requires n < 100
    ensures |s| == 2 && IsDigit(s[0]) && IsDigit(s[1]) && TwoDigitValue(s, 0) == n
  {
    [DigitChar(n / 10), DigitChar(n % 10)]
  }

  lemma IsoReadsTwoDigitFields(h: nat, m: nat, sec: nat)
    requires h < 24 && m < 60 && sec < 60
    ensures IsoTimeToMinute(TwoDigits(h) + ":" + TwoDigits(m) + ":" + TwoDigits(sec)) == Some(h * 3600 + m * 60)
  {
    var hh, mm, ss := TwoDigits(h), TwoDigits(m), TwoDigits(sec);
    var s := hh + ":" + mm + ":" + ss;
    assert s[0] == hh[0] && s[1] == hh[1] && s[2] == ':' && s[3] == mm[0] && s[4] == mm[1];
    assert s[5] == ':' && s[6] == ss[0] && s[7] == ss[1];
    assert s[..2] == hh;
    assert TwoDigitValue(s, 0) == h && TwoDigitValue(s, 3) == m && TwoDigitValue(s, 6) == sec;
  }

  /** `HH:MM:SS` parses to its minute of the day. */
  lemma ParseClockReadsSeconds(h: nat, m: nat, sec: nat)
    requires h < 24 && m < 60 && sec < 60
    ensures ParseClock(TwoDigits(h) + ":" + TwoDigits(m) + ":" + TwoDigits(sec)) == Some(h * 3600 + m * 60)
  {
    var hh, mm, ss := TwoDigits(h), TwoDigits(m), TwoDigits(sec);
    var s := hh + ":" + mm + ":" + ss;
    assert s[0] == hh[0] && s[1] == hh[1] && s[2] == ':' && s[3] == mm[0] && s[4] == mm[1];
    assert s[5] == ':' && s[6] == ss[0] && s[7] == ss[1];
    assert s[..2] == hh;
    assert ClockShape(s, 2, true);
    IsoReadsTwoDigitFields(h, m, sec);
  }

  /** `HH:MM` parses to its minute of the day. */
  lemma ParseClockReadsTwoDigitHour(h: nat, m: nat)
    requires h < 24 && m < 60
    ensures ParseClock(TwoDigits(h) + ":" + TwoDigits(m)) == Some(h * 3600 + m * 60)
  {
    var hh, mm := TwoDigits(h), TwoDigits(m);
    var s := hh + ":" + mm;
    assert s[0] == hh[0] && s[1] == hh[1] && s[2] == ':' && s[3] == mm[0] && s[4] == mm[1];
    assert s[..2] == hh;
    assert ClockShape(s, 2, false);
    assert s + ":00" == hh + ":" + mm + ":" + TwoDigits(0);
    IsoReadsTwoDigitFields(h, m, 0);
  }

  /** `H:MM`, the form the source's comments give ("8:10"), parses to its minute of the day. */
  lemma ParseClockReadsOneDigitHour(h: nat, m: nat)
    requires h < 10 && m < 60
    ensures ParseClock(NatString(h) + ":" + TwoDigits(m)) == Some(h * 3600 + m * 60)
  {
    var mm := TwoDigits(m);
    var s := NatString(h) + ":" + mm;
    assert NatString(h) == [DigitChar(h)];
    assert s[0] == DigitChar(h) && s[1] == ':' && s[2] == mm[0] && s[3] == mm[1];
    assert s[..1] == [DigitChar(h)];
    assert ClockShape(s, 1, false);
    assert TwoDigits(h) == ['0', DigitChar(h)];
    assert PadHour(s) + ":00" == TwoDigits(h) + ":" + mm + ":" + TwoDigits(0);
    IsoReadsTwoDigitFields(h, m, 0);
  }

  /** As written, an hour written with one digit never parses: `LocalTime.parse` wants two. */
  lemma OneDigitHourRejectedAsWritten(h: nat, m: nat)
    requires h < 10 && m < 60
    ensures ParseClockAsWritten(NatString(h) + ":" + TwoDigits(m)) == None
  {
    var mm := TwoDigits(m);
    var s := NatString(h) + ":" + mm;
    assert NatString(h) == [DigitChar(h)];
    assert s[0] == DigitChar(h) && s[1] == ':' && s[2] == mm[0] && s[3] == mm[1];
    assert s[..1] == [DigitChar(h)];
    assert ClockShape(s, 1, false);
    assert (s + ":00")[1] == ':';
  }

  /** The string cell "8:10" yields no time as written, and 08:10 once the hour is padded. */
  lemma EightTenCell()
    ensures StringCellTimeAsWritten("8:10") == None
    ensures StringCellTime("8:10") == Some(8 * 3600 + 10 * 60)
  {
    var raw := "8:10";
    assert TrimStart(raw, IsJavaTrimmed) == raw;
    assert TrimEnd(raw, IsJavaTrimmed) == raw;
    assert !IsJavaWhitespace(raw[0]);
    NotContainsWithoutFirstChar(raw, DIRECT_WORD);
    NotContainsWithoutFirstChar(raw, "/");
    assert TimeText(raw) == Some(raw);
    assert NatString(8) + ":" + TwoDigits(10) == raw;
    OneDigitHourRejectedAsWritten(8, 10);
    ParseClockReadsOneDigitHour(8, 10);
  }

  /** The corrected parse agrees with the written one whenever the hour has two digits. */
  lemma ParseClockAgreesOnTwoDigitHours(s: string)
    requires !(|s| >= 2 && s[1] == ':')
    ensures ParseClock(s) == ParseClockAsWritten(s)
  {
  }

  // ---------------------------------------------------------------------------------------------
  // Header rows and the station columns

  predicate AnyContains(texts: seq<string>, token: string) {
    exists i :: 0 <= i < |texts| && Contains(texts[i], token)
  }

  function CountNonBlank(texts: seq<string>): (n: nat)
    ensures n <= |texts|
  {
    if texts == [] then 0
    else CountNonBlank(texts[..|texts| - 1]) + (if JavaIsBlank(texts[|texts| - 1]) then 0 else 1)
  }

  /** `isHeaderRow`: a "노선번호" section header, the first row's header, or a shuttle header. */
  predicate IsHeaderRow(texts: seq<string>, r: nat) {
    AnyContains(texts, ROUTE_NO_HEADER) ||
    (r == 0 && AnyContains(texts, TERMINAL_WORD) && AnyContains(texts, KNUT_WORD)) ||
    (AnyContains(texts, KNUT_WORD) && AnyContains(texts, TERMINAL_WORD) && CountNonBlank(texts) >= 3)
  }

  /** The first column whose text contains `token`. */
  function FirstContaining(texts: seq<string>, token: string): (r: Option<nat>)
    ensures r.None? <==> !AnyContains(texts, token)
    ensures r.Some? ==> (r.value < |texts| && Contains(texts[r.value], token) &&
      forall j :: 0 <= j < r.value ==> !Contains(texts[j], token))
  {
    if texts == [] then None
    else if Contains(texts[0], token) then Some(0)
    else
      match FirstContaining(texts[1..], token)
      case None => None
      case Some(i) => Some(i + 1)
  }

  /** `findColIndexContains`. */
  method FindColIndexContains(texts: seq<string>, token: string) returns (r: Option<nat>)
    ensures r == FirstContaining(texts, token)
  {
    for i := 0 to |texts|
      invariant forall j :: 0 <= j < i ==> !Contains(texts[j], token)
    {
      if Contains(texts[i], token) {
        return Some(i);
      }
    }
    return None;
  }

  /** A column that is the Chungju station one: it names the station and not the terminal. */
  predicate IsStationColumn(h: string) {
    !Contains(h, TERMINAL_WORD) && Contains(h, STATION_WORD)
  }

  /** How many station columns come before column `c`. */
  function StationColumnsBefore(header: seq<string>, c: nat): nat
    requires c <= |header|
  {
    if c == 0 then 0
    else StationColumnsBefore(header, c - 1) + (if IsStationColumn(header[c - 1]) then 1 else 0)
  }

  /** The stop a header column stands for: the terminal, the first Chungju station column for the
      KNUT-bound platform and any later one for the terminal-bound platform, or KNUT. */
  function ColumnStation(header: seq<string>, c: nat): Option<string>
    requires c < |header|
  {
    var h := header[c];
    if Contains(h, TERMINAL_WORD) then Some(StationIds.TERMINAL)
    else if Contains(h, STATION_WORD) then
      if StationColumnsBefore(header, c) == 0 then Some(StationIds.STATION_TO_KNUT)
      else Some(StationIds.STATION_TO_TERMINAL)
    else if Contains(h, KNUT_WORD) then Some(StationIds.KNUT)
    else None
  }

  /** The column map, indexed by column: `Some(id)` where the map has an entry. */
  function StationColumns(header: seq<string>): (columns: seq<Option<string>>)
    ensures |columns| == |header|
    ensures forall c :: 0 <= c < |header| ==> columns[c] == ColumnStation(header, c)
  {
    seq(|header|, c requires 0 <= c < |header| => ColumnStation(header, c))
  }

  /** `buildStationColumnMap`. */
  method BuildStationColumnMap(header: seq<string>) returns (columns: seq<Option<string>>)
    ensures columns == StationColumns(header)
  {
    columns := [];
    var chungjuSeen := 0;
    for c := 0 to |header|
      invariant chungjuSeen == StationColumnsBefore(header, c)
      invariant columns == StationColumns(header)[..c]
    {
      var h := header[c];
      if Contains(h, TERMINAL_WORD) {
        columns := columns + [Some(StationIds.TERMINAL)];
        continue;
      }
      if Contains(h, STATION_WORD) {
        chungjuSeen := chungjuSeen + 1;
        if chungjuSeen == 1 {
          columns := columns + [Some(StationIds.STATION_TO_KNUT)];
        } else {
          columns := columns + [Some(StationIds.STATION_TO_TERMINAL)];
        }
        continue;
      }
      if Contains(h, KNUT_WORD) {
        columns := columns + [Some(StationIds.KNUT)];
      } else {
        columns := columns + [None];
      }
    }
  }

  lemma {:induction false} StationColumnsBeforeGrows(header: seq<string>, c1: nat, c2: nat)
    requires c1 < c2 <= |header| && IsStationColumn(header[c1])
    ensures StationColumnsBefore(header, c2) >= 1
  {
    if c2 - 1 != c1 {
      StationColumnsBeforeGrows(header, c1, c2 - 1);
    }
  }

  /** Only the first Chungju station column is the KNUT-bound platform; every mapped id is a known stop. */
  lemma StationColumnsSpec(header: seq<string>)
    ensures forall c :: 0 <= c < |header| && StationColumns(header)[c].Some? ==>
      StationIds.IsKnownStation(StationColumns(header)[c].value)
    ensures forall c1, c2 :: 0 <= c1 < c2 < |header| && StationColumns(header)[c1] == Some(StationIds.STATION_TO_KNUT) ==>
      StationColumns(header)[c2] != Some(StationIds.STATION_TO_KNUT)
  {
    forall c1, c2 | 0 <= c1 < c2 < |header| && StationColumns(header)[c1] == Some(StationIds.STATION_TO_KNUT)
      ensures StationColumns(header)[c2] != Some(StationIds.STATION_TO_KNUT)
    {
      StationColumnsBeforeGrows(header, c1, c2);
    }
  }

  // ---------------------------------------------------------------------------------------------
  // Loading: a fold over the rows

  /** station id -> route number -> times of day. */
  type Table = map<string, map<string, seq<int>>>

  /** The loop's variables between two rows. */
  datatype ScanState = ScanState(routeNoCol: Option<nat>, columns: seq<Option<string>>, current: Option<string>, table: Table)

  predicate NoColumns(columns: seq<Option<string>>) {
    forall c :: 0 <= c < |columns| ==> columns[c].None?
  }

  /** `computeIfAbsent(...).computeIfAbsent(...).add(t)`. */
  function Append(table: Table, station: string, route: string, t: int): (r: Table)
    ensures r.Keys == table.Keys + {station}
    ensures r[station].Keys == (if station in table then table[station].Keys else {}) + {route}
    ensures r[station][route] == (if station in table && route in table[station] then table[station][route] else []) + [t]
    ensures forall s :: s in table && s != station ==> r[s] == table[s]
    ensures station in table ==> forall k :: k in table[station] && k != route ==> r[station][k] == table[station][k]
  {
    var byRoute := if station in table then table[station] else map[];
    var times := if route in byRoute then byRoute[route] else [];
    table[station := byRoute[route := times + [t]]]
  }

  /** The times of `row` in the first `n` columns, appended under `route`. */
  function RowTimes(table: Table, columns: seq<Option<string>>, row: Row, route: string, n: nat): Table
    requires n <= |columns|
  {
    if n == 0 then table
    else
      var t := RowTimes(table, columns, row, route, n - 1);
      var c := n - 1;
      if columns[c].Some? && ParseTimeCell(CellAt(row, c)).Some? then
        Append(t, columns[c].value, route, ParseTimeCell(CellAt(row, c)).value)
      else t
  }

  /** One iteration of the row loop of `load` for row number `r`. */
  function Step(st: ScanState, r: nat, row: Option<Row>): ScanState {
    if row.None? then st
    else
      var texts := RowTexts(row.value);
      if IsHeaderRow(texts, r) then
        var col := FirstContaining(texts, ROUTE_NO_HEADER);
        ScanState(if r == 0 && col.None? then Some(0) else col, StationColumns(texts), None, st.table)
      else if NoColumns(st.columns) then st
      else
        var parsed := if st.routeNoCol.Some? then ParseRouteNo(SafeGet(texts, st.routeNoCol.value)) else None;
        var current := if parsed.Some? then parsed else st.current;
        if current.None? then st
        else ScanState(st.routeNoCol, st.columns, current,
                       RowTimes(st.table, st.columns, row.value, current.value, |st.columns|))
  }

  /** A missing row changes nothing; a header row installs its columns, resets the route number
      and adds no times; other rows are skipped until some header mapped a station column, keep
      the current route number unless their route cell parses as a new one, and add times only
      under a route number. */
  lemma StepSpec(st: ScanState, r: nat, row: Option<Row>)
    ensures row.None? ==> Step(st, r, row) == st
    ensures row.Some? && IsHeaderRow(RowTexts(row.value), r) ==>
      Step(st, r, row).current.None? && Step(st, r, row).columns == StationColumns(RowTexts(row.value)) &&
      Step(st, r, row).table == st.table
    ensures row.Some? && !IsHeaderRow(RowTexts(row.value), r) && NoColumns(st.columns) ==> Step(st, r, row) == st
    ensures row.Some? && !IsHeaderRow(RowTexts(row.value), r) ==>
      Step(st, r, row).columns == st.columns && Step(st, r, row).routeNoCol == st.routeNoCol
    ensures row.Some? && !IsHeaderRow(RowTexts(row.value), r) && !NoColumns(st.columns) && st.routeNoCol.Some? &&
            ParseRouteNo(SafeGet(RowTexts(row.value), st.routeNoCol.value)).Some? ==>
      Step(st, r, row).current == ParseRouteNo(SafeGet(RowTexts(row.value), st.routeNoCol.value))
    ensures row.Some? && !IsHeaderRow(RowTexts(row.value), r) &&
            (st.routeNoCol.None? || ParseRouteNo(SafeGet(RowTexts(row.value), st.routeNoCol.value)).None?) ==>
      Step(st, r, row).current == st.current
    ensures Step(st, r, row).current.None? ==> Step(st, r, row).table == st.table
  {
  }

  /** The state after the first `n` rows. */
  function Scan(rows: seq<Option<Row>>, n: nat): ScanState
    requires n <= |rows|
  {
    if n == 0 then ScanState(None, [], None, map[])
    else Step(Scan(rows, n - 1), n - 1, rows[n - 1])
  }

  /** Distinct, then sorted: each list becomes strictly ascending with the same times. */
  function Normalize(times: seq<int>): (r: seq<int>)
    ensures StrictlyAscending(r)
    ensures forall t :: t in r <==> t in times
    ensures TimesOk(times) ==> TimesOk(r)
  {
    var r := Sorting.SortedDistinct(times);
    MembersKeepOk(times, r);
    r
  }

  function Finalize(table: Table): Table {
    map s | s in table :: map k | k in table[s] :: Normalize(table[s][k])
  }

  /** The timetable `load` leaves: empty when the workbook cannot be opened. */
  function Loaded(sheet: Option<seq<Option<Row>>>): Table {
    match sheet
    case None => map[]
    case Some(rows) => Finalize(Scan(rows, |rows|).table)
  }

  /** Station keys are the four known stops, route keys are route numbers, times are whole minutes. */
  predicate TableOk(table: Table) {
    forall s :: s in table ==> StationIds.IsKnownStation(s) && RoutesOk(table[s])
  }

  predicate RoutesOk(byRoute: map<string, seq<int>>) {
    forall k :: k in byRoute ==> IsRouteNo(k) && TimesOk(byRoute[k])
  }

  predicate TimesOk(times: seq<int>) {
    forall i :: 0 <= i < |times| ==> 0 <= times[i] < 86400 && times[i] % 60 == 0
  }

  predicate ScanOk(st: ScanState) {
    TableOk(st.table) &&
    (st.current.Some? ==> IsRouteNo(st.current.value)) &&
    (forall c :: 0 <= c < |st.columns| && st.columns[c].Some? ==> StationIds.IsKnownStation(st.columns[c].value))
  }

  lemma AppendOk(table: Table, station: string, route: string, t: int)
    requires TableOk(table) && StationIds.IsKnownStation(station) && IsRouteNo(route)
    requires 0 <= t < 86400 && t % 60 == 0
    ensures TableOk(Append(table, station, route, t))
  {
    var r := Append(table, station, route, t);
    assert RoutesOk(r[station]) by {
      forall k | k in r[station]
        ensures IsRouteNo(k) && TimesOk(r[station][k])
      {
        if k != route {
          assert r[station][k] == table[station][k];
        }
      }
    }
  }

  lemma {:induction false} RowTimesOk(table: Table, columns: seq<Option<string>>, row: Row, route: string, n: nat)
    requires n <= |columns| && TableOk(table) && IsRouteNo(route)
    requires forall c :: 0 <= c < |columns| && columns[c].Some? ==> StationIds.IsKnownStation(columns[c].value)
    ensures TableOk(RowTimes(table, columns, row, route, n))
  {
    if n > 0 {
      RowTimesOk(table, columns, row, route, n - 1);
      ColumnTimeOk(RowTimes(table, columns, row, route, n - 1), columns[n - 1], row, route, n - 1);
    }
  }

  /** Column `c` of a row adds at most one valid time under a known stop and a route number. */
  lemma ColumnTimeOk(prev: Table, column: Option<string>, row: Row, route: string, c: nat)
    requires TableOk(prev) && IsRouteNo(route)
    requires column.Some? ==> StationIds.IsKnownStation(column.value)
    ensures var t := ParseTimeCell(CellAt(row, c));
      column.Some? && t.Some? ==> TableOk(Append(prev, column.value, route, t.value))
  {
    var t := ParseTimeCell(CellAt(row, c));
    if column.Some? && t.Some? {
      AppendOk(prev, column.value, route, t.value);
    }
  }

  lemma StepKeepsOk(st: ScanState, r: nat, row: Option<Row>)
    requires ScanOk(st)
    ensures ScanOk(Step(st, r, row))
  {
    if row.Some? {
      var texts := RowTexts(row.value);
      if IsHeaderRow(texts, r) {
        StationColumnsSpec(texts);
      } else if !NoColumns(st.columns) {
        var parsed := if st.routeNoCol.Some? then ParseRouteNo(SafeGet(texts, st.routeNoCol.value)) else None;
        var current := if parsed.Some? then parsed else st.current;
        if current.Some? {
          RowTimesOk(st.table, st.columns, row.value, current.value, |st.columns|);
        }
      }
    }
  }

  lemma {:induction false} ScanKeepsOk(rows: seq<Option<Row>>, n: nat)
    requires n <= |rows|
    ensures ScanOk(Scan(rows, n))
  {
    if n > 0 {
      ScanKeepsOk(rows, n - 1);
      StepKeepsOk(Scan(rows, n - 1), n - 1, rows[n - 1]);
    }
  }

  /** Strictly ascending: sorted without repeats. */
  predicate StrictlyAscending(times: seq<int>) {
    forall i, j :: 0 <= i < j < |times| ==> times[i] < times[j]
  }

  /** A list drawn from a list of valid times holds valid times. */
  lemma MembersKeepOk(times: seq<int>, r: seq<int>)
    requires forall t :: t in r ==> t in times
    ensures TimesOk(times) ==> TimesOk(r)
  {
    if TimesOk(times) {
      forall i | 0 <= i < |r| ensures 0 <= r[i] < 86400 && r[i] % 60 == 0 {
        assert r[i] in r;
      }
    }
  }

  lemma FinalizeSpec(raw: Table)
    ensures TableOk(raw) ==> TableOk(Finalize(raw))
    ensures Finalize(raw).Keys == raw.Keys
    ensures forall s :: s in raw ==> Finalize(raw)[s].Keys == raw[s].Keys
    ensures forall s, k :: s in raw && k in raw[s] ==>
      StrictlyAscending(Finalize(raw)[s][k]) && forall t :: t in Finalize(raw)[s][k] <==> t in raw[s][k]
  {
  }

  /**
   * What `load` promises of the timetable: only the four stops, only route numbers, each list
   * strictly ascending whole-minute times of day, holding exactly the times the rows gave.
   */
  lemma LoadedSpec(sheet: Option<seq<Option<Row>>>)
    ensures TableOk(Loaded(sheet))
    ensures forall s, k :: s in Loaded(sheet) && k in Loaded(sheet)[s] ==> StrictlyAscending(Loaded(sheet)[s][k])
    ensures sheet.None? ==> Loaded(sheet) == map[]
    ensures sheet.Some? ==> var raw := Scan(sheet.value, |sheet.value|).table;
      Loaded(sheet).Keys == raw.Keys &&
      forall s :: s in raw ==> (Loaded(sheet)[s].Keys == raw[s].Keys &&
        forall k, t :: k in raw[s] ==> (t in Loaded(sheet)[s][k] <==> t in raw[s][k]))
  {
    if sheet.Some? {
      ScanKeepsOk(sheet.value, |sheet.value|);
      FinalizeSpec(Scan(sheet.value, |sheet.value|).table);
    }
  }

  // ---------------------------------------------------------------------------------------------
  // Arrivals

  datatype LocalArrival = LocalArrival(route_id: Option<string>, route_no: string, arr_time: int, prev_station_count: int)

  function ArrTime(a: LocalArrival): int { a.arr_time }

  /** The current local time of day: whole seconds and the nanoseconds past them. */
  datatype Clock = Clock(second: int, nano: int)

  predicate ValidClock(now: Clock) {
    0 <= now.second < 86400 && 0 <= now.nano < 1_000_000_000
  }

  /** Today at `t`, or tomorrow when that is before `now`; in seconds from today's midnight. */
  function NextOccurrence(t: int, now: Clock): int {
    if t < now.second || (t == now.second && now.nano > 0) then t + 86400 else t
  }

  /** `Duration.between(now, dt).getSeconds()` for a `dt` in whole seconds: rounded down. */
  function SecondsBetween(now: Clock, dt: int): int {
    if now.nano == 0 then dt - now.second else dt - now.second - 1
  }

  function WaitSeconds(t: int, now: Clock): int {
    SecondsBetween(now, NextOccurrence(t, now))
  }

  /** Every timetable time is due within a day, never in the past. */
  lemma WaitSecondsRange(t: int, now: Clock)
    requires ValidClock(now) && 0 <= t < 86400
    ensures 0 <= WaitSeconds(t, now) < 86400
  {
  }

  /** The next departures of one route: rolled over, sorted, limited. */
  function NextTimes(times: seq<int>, now: Clock, limit: nat): seq<int> {
    Sorting.Take(Sorting.SortBy(seq(|times|, i requires 0 <= i < |times| => NextOccurrence(times[i], now)), Sorting.Identity), limit)
  }

  function RouteArrivals(routeNo: string, times: seq<int>, now: Clock, limit: nat): (r: seq<LocalArrival>)
    ensures |r| == |NextTimes(times, now, limit)|
  {
    var next := NextTimes(times, now, limit);
    seq(|next|, i requires 0 <= i < |next| => LocalArrival(None, routeNo, SecondsBetween(now, next[i]), -1))
  }

  /** The rows `getArrivals` collects, route by route in map order. */
  function Candidates(byRoute: map<string, seq<int>>, order: seq<string>, now: Clock, limit: nat): seq<LocalArrival>
    requires forall i :: 0 <= i < |order| ==> order[i] in byRoute
  {
    if order == [] then []
    else
      Candidates(byRoute, order[..|order| - 1], now, limit) +
      RouteArrivals(order[|order| - 1], byRoute[order[|order| - 1]], now, limit)
  }

  function RoutesAt(table: Table, stationId: string): map<string, seq<int>> {
    if stationId in table then table[stationId] else map[]
  }

  /** `order` lists every key of `byRoute` once: the iteration order of a hash map. */
  ghost predicate IsOrderOf(order: seq<string>, byRoute: map<string, seq<int>>) {
    (forall i, j :: 0 <= i < j < |order| ==> order[i] != order[j]) &&
    (forall i :: 0 <= i < |order| ==> order[i] in byRoute) &&
    (forall k :: k in byRoute ==> k in order)
  }

  /** `getArrivals(stationId, limit)`; a negative limit makes `Stream.limit` throw. */
  function Arrivals(table: Table, stationId: string, limit: int, now: Clock, order: seq<string>): Result<seq<LocalArrival>>
    requires IsOrderOf(order, RoutesAt(table, stationId))
  {
    var byRoute := RoutesAt(table, stationId);
    if |byRoute| == 0 then Ok([])
    else if limit < 0 then Err(IllegalArgument(DecimalString(limit)))
    else Ok(Soonest(byRoute, order, now, limit))
  }

  /** The `limit` soonest of the collected arrivals, soonest first. */
  function Soonest(byRoute: map<string, seq<int>>, order: seq<string>, now: Clock, limit: nat): seq<LocalArrival>
    requires forall i :: 0 <= i < |order| ==> order[i] in byRoute
  {
    Sorting.Take(Sorting.SortBy(Candidates(byRoute, order, now, limit), ArrTime), limit)
  }

  /** The arrival is one of the departures of its route in `byRoute`. */
  ghost predicate Explained(byRoute: map<string, seq<int>>, now: Clock, a: LocalArrival) {
    a.route_id.None? && a.prev_station_count == -1 && a.route_no in byRoute &&
    exists j :: 0 <= j < |byRoute[a.route_no]| && a.arr_time == WaitSeconds(byRoute[a.route_no][j], now)
  }

  /** The first arrival of `r` is due no later than `w`. */
  ghost predicate FirstNoLaterThan(r: seq<LocalArrival>, w: int) {
    r != [] && r[0].arr_time <= w
  }

  /** Some arrival of `c` is due no later than `w`. */
  ghost predicate SomeNoLater(c: seq<LocalArrival>, w: int) {
    exists i :: 0 <= i < |c| && c[i].arr_time <= w
  }

  lemma MemberOfSorted(s: seq<int>, x: int)
    requires Sorting.SortedBy(s, Sorting.Identity) && x in s
    ensures s[0] <= x
  {
    var p :| 0 <= p < |s| && s[p] == x;
    if p > 0 {
      assert Sorting.Identity(s[0]) <= Sorting.Identity(s[p]);
    }
  }

  lemma RouteArrivalsSpec(byRoute: map<string, seq<int>>, k: string, now: Clock, limit: nat)
    requires k in byRoute
    ensures |RouteArrivals(k, byRoute[k], now, limit)| <= limit
    ensures forall i :: 0 <= i < |RouteArrivals(k, byRoute[k], now, limit)| ==>
      RouteArrivals(k, byRoute[k], now, limit)[i].route_no == k &&
      Explained(byRoute, now, RouteArrivals(k, byRoute[k], now, limit)[i])
    ensures limit > 0 ==> forall j :: 0 <= j < |byRoute[k]| ==>
      SomeNoLater(RouteArrivals(k, byRoute[k], now, limit), WaitSeconds(byRoute[k][j], now))
  {
    var times := byRoute[k];
    var rolled := seq(|times|, i requires 0 <= i < |times| => NextOccurrence(times[i], now));
    var sorted := Sorting.SortBy(rolled, Sorting.Identity);
    var next := NextTimes(times, now, limit);
    var r := RouteArrivals(k, times, now, limit);
    forall i | 0 <= i < |r|
      ensures Explained(byRoute, now, r[i])
    {
      assert next[i] == sorted[i];
      assert sorted[i] in multiset(rolled);
      var j :| 0 <= j < |rolled| && rolled[j] == sorted[i];
      assert r[i].arr_time == WaitSeconds(times[j], now);
    }
    if limit > 0 {
      forall j | 0 <= j < |times|
        ensures SomeNoLater(r, WaitSeconds(times[j], now))
      {
        assert rolled[j] in multiset(sorted);
        MemberOfSorted(sorted, rolled[j]);
        assert next[0] == sorted[0];
        assert r[0].arr_time <= WaitSeconds(times[j], now);
      }
    }
  }

  ghost predicate AllExplained(byRoute: map<string, seq<int>>, now: Clock, c: seq<LocalArrival>) {
    forall i :: 0 <= i < |c| ==> Explained(byRoute, now, c[i])
  }

  lemma {:induction false} CandidatesExplained(byRoute: map<string, seq<int>>, order: seq<string>, now: Clock, limit: nat)
    requires forall i :: 0 <= i < |order| ==> order[i] in byRoute
    ensures AllExplained(byRoute, now, Candidates(byRoute, order, now, limit))
  {
    if order != [] {
      var init := order[..|order| - 1];
      var k := order[|order| - 1];
      CandidatesExplained(byRoute, init, now, limit);
      RouteArrivalsSpec(byRoute, k, now, limit);
      AllExplainedConcat(byRoute, now, Candidates(byRoute, init, now, limit), RouteArrivals(k, byRoute[k], now, limit));
    }
  }

  lemma AllExplainedConcat(byRoute: map<string, seq<int>>, now: Clock, a: seq<LocalArrival>, b: seq<LocalArrival>)
    requires AllExplained(byRoute, now, a) && AllExplained(byRoute, now, b)
    ensures AllExplained(byRoute, now, a + b)
  {
    forall i | 0 <= i < |a + b| ensures Explained(byRoute, now, (a + b)[i]) {
      if i < |a| {
        assert (a + b)[i] == a[i];
      } else {
        assert (a + b)[i] == b[i - |a|];
      }
    }
  }

  lemma SomeNoLaterGrows(a: seq<LocalArrival>, b: seq<LocalArrival>, w: int)
    requires SomeNoLater(a, w) || SomeNoLater(b, w)
    ensures SomeNoLater(a + b, w)
  {
    if SomeNoLater(a, w) {
      var i :| 0 <= i < |a| && a[i].arr_time <= w;
      assert (a + b)[i] == a[i];
    } else {
      var i :| 0 <= i < |b| && b[i].arr_time <= w;
      assert (a + b)[|a| + i] == b[i];
    }
  }

  lemma {:induction false} CandidatesCover(byRoute: map<string, seq<int>>, order: seq<string>, now: Clock, limit: nat)
    requires forall i :: 0 <= i < |order| ==> order[i] in byRoute
    requires limit > 0
    ensures forall q, j :: 0 <= q < |order| && 0 <= j < |byRoute[order[q]]| ==>
      SomeNoLater(Candidates(byRoute, order, now, limit), WaitSeconds(byRoute[order[q]][j], now))
  {
    if order != [] {
      var init := order[..|order| - 1];
      var k := order[|order| - 1];
      CandidatesCover(byRoute, init, now, limit);
      RouteArrivalsSpec(byRoute, k, now, limit);
      var a := Candidates(byRoute, init, now, limit);
      var b := RouteArrivals(k, byRoute[k], now, limit);
      forall q, j | 0 <= q < |order| && 0 <= j < |byRoute[order[q]]|
        ensures SomeNoLater(a + b, WaitSeconds(byRoute[order[q]][j], now))
      {
        if q < |init| {
          assert init[q] == order[q];
        }
        SomeNoLaterGrows(a, b, WaitSeconds(byRoute[order[q]][j], now));
      }
    }
  }

  /** Each of the soonest arrivals is a departure of its route, due within a day. */
  lemma SoonestExplained(byRoute: map<string, seq<int>>, order: seq<string>, now: Clock, limit: nat, r: seq<LocalArrival>)
    requires forall i :: 0 <= i < |order| ==> order[i] in byRoute
    requires ValidClock(now) && RoutesOk(byRoute)
    requires r == Soonest(byRoute, order, now, limit)
    ensures forall i :: 0 <= i < |r| ==> Explained(byRoute, now, r[i]) && 0 <= r[i].arr_time < 86400
  {
    var c := Candidates(byRoute, order, now, limit);
    CandidatesExplained(byRoute, order, now, limit);
    TakeSortedMembers(c, limit, r);
    forall i | 0 <= i < |r|
      ensures Explained(byRoute, now, r[i]) && 0 <= r[i].arr_time < 86400
    {
      var p :| 0 <= p < |c| && c[p] == r[i];
      assert Explained(byRoute, now, c[p]);
      var k := r[i].route_no;
      var j :| 0 <= j < |byRoute[k]| && r[i].arr_time == WaitSeconds(byRoute[k][j], now);
      assert TimesOk(byRoute[k]);
      WaitSecondsRange(byRoute[k][j], now);
    }
  }

  lemma SoonestNoLaterThan(byRoute: map<string, seq<int>>, order: seq<string>, now: Clock, limit: nat,
                           r: seq<LocalArrival>, k: string, j: int)
    requires IsOrderOf(order, byRoute) && limit > 0
    requires r == Soonest(byRoute, order, now, limit)
    requires k in byRoute && 0 <= j < |byRoute[k]|
    ensures r != [] && r[0].arr_time <= WaitSeconds(byRoute[k][j], now)
  {
    var c := Candidates(byRoute, order, now, limit);
    CandidatesCover(byRoute, order, now, limit);
    var q := Sorting.IndexOf(order, k);
    assert order[q] == k;
    TakeSortedSoonest(c, limit, r, WaitSeconds(byRoute[k][j], now));
  }

  /** The first of the soonest arrivals is no later than any departure at the station. */
  lemma SoonestIsFirst(byRoute: map<string, seq<int>>, order: seq<string>, now: Clock, limit: nat, r: seq<LocalArrival>)
    requires IsOrderOf(order, byRoute) && limit > 0
    requires r == Soonest(byRoute, order, now, limit)
    ensures forall k, j :: k in byRoute && 0 <= j < |byRoute[k]| ==> FirstNoLaterThan(r, WaitSeconds(byRoute[k][j], now))
  {
    forall k, j | k in byRoute && 0 <= j < |byRoute[k]|
      ensures FirstNoLaterThan(r, WaitSeconds(byRoute[k][j], now))
    {
      SoonestNoLaterThan(byRoute, order, now, limit, r, k, j);
    }
  }

  /**
   * What `getArrivals` promises: an error only for a negative limit at a station with routes; at
   * most `limit` arrivals, soonest first, each a timetable departure of its route due within a day;
   * and the first is the soonest departure of any route at the station.
   */
  lemma ArrivalsSpec(table: Table, stationId: string, limit: int, now: Clock, order: seq<string>)
    requires IsOrderOf(order, RoutesAt(table, stationId))
    requires ValidClock(now) && TableOk(table)
    ensures Arrivals(table, stationId, limit, now, order).Err? <==> (|RoutesAt(table, stationId)| > 0 && limit < 0)
    ensures Arrivals(table, stationId, limit, now, order).Ok? ==>
      var r := Arrivals(table, stationId, limit, now, order).value;
      && (r == [] || |r| <= limit)
      && Sorting.SortedBy(r, ArrTime)
      && (forall i :: 0 <= i < |r| ==> Explained(RoutesAt(table, stationId), now, r[i]) && 0 <= r[i].arr_time < 86400)
      && (limit > 0 ==> forall k, j :: k in RoutesAt(table, stationId) && 0 <= j < |RoutesAt(table, stationId)[k]| ==>
            FirstNoLaterThan(r, WaitSeconds(RoutesAt(table, stationId)[k][j], now)))
  {
    var byRoute := RoutesAt(table, stationId);
    if |byRoute| > 0 && limit >= 0 {
      var r := Soonest(byRoute, order, now, limit);
      SoonestExplained(byRoute, order, now, limit, r);
      if limit > 0 {
        SoonestIsFirst(byRoute, order, now, limit, r);
      }
    }
  }

  /** Sorting by arrival time and keeping the first `limit` keeps only candidates ... */
  lemma TakeSortedMembers(c: seq<LocalArrival>, limit: nat, r: seq<LocalArrival>)
    requires r == Sorting.Take(Sorting.SortBy(c, ArrTime), limit)
    ensures forall i :: 0 <= i < |r| ==> r[i] in c
  {
    var sorted := Sorting.SortBy(c, ArrTime);
    forall i | 0 <= i < |r|
      ensures r[i] in c
    {
      assert r[i] == sorted[i];
      assert sorted[i] in multiset(c);
    }
  }

  /** ... and the soonest of them comes first. */
  lemma TakeSortedSoonest(c: seq<LocalArrival>, limit: nat, r: seq<LocalArrival>, w: int)
    requires r == Sorting.Take(Sorting.SortBy(c, ArrTime), limit)
    requires limit > 0 && SomeNoLater(c, w)
    ensures r != [] && r[0].arr_time <= w
  {
    var sorted := Sorting.SortBy(c, ArrTime);
    var i :| 0 <= i < |c| && c[i].arr_time <= w;
    assert c[i] in multiset(sorted);
    var p :| 0 <= p < |sorted| && sorted[p] == c[i];
    if p > 0 {
      assert ArrTime(sorted[0]) <= ArrTime(sorted[p]);
    }
    assert r[0] == sorted[0];
  }

  // ---------------------------------------------------------------------------------------------
  // The service object

  class LocalBusArrivalService {
    var timetable: Table

    constructor()
      ensures timetable == map[]
    {
      timetable := map[];
    }

    /** The inner loop of the normalisation: every route's list of one station. */
    static method NormalizeRoutes(byRoute: map<string, seq<int>>) returns (result: map<string, seq<int>>)
      ensures result == map k | k in byRoute :: Normalize(byRoute[k])
    {
      result := map[];
      var pending := byRoute.Keys;
      while pending != {}
        invariant pending <= byRoute.Keys
        invariant result.Keys == byRoute.Keys - pending
        invariant forall k :: k in result ==> result[k] == Normalize(byRoute[k])
        decreases |pending|
      {
        var k :| k in pending;
        result := result[k := Normalize(byRoute[k])];
        pending := pending - {k};
      }
    }

    /** The final loop of `load`: each list made distinct and sorted. */
    static method NormalizeAll(table: Table) returns (result: Table)
      ensures result == Finalize(table)
    {
      result := map[];
      var pending := table.Keys;
      while pending != {}
        invariant pending <= table.Keys
        invariant result.Keys == table.Keys - pending
        invariant forall s :: s in result ==> result[s] == map k | k in table[s] :: Normalize(table[s][k])
        decreases |pending|
      {
        var s :| s in pending;
        var byRoute := NormalizeRoutes(table[s]);
        result := result[s := byRoute];
        pending := pending - {s};
      }
    }

    /** The column loop of one data row: each mapped column's time, if any, appended under `route`. */
    static method AddRowTimes(table: Table, columns: seq<Option<string>>, row: Row, route: string)
      returns (result: Table)
      ensures result == RowTimes(table, columns, row, route, |columns|)
    {
      result := table;
      for c := 0 to |columns|
        invariant result == RowTimes(table, columns, row, route, c)
      {
        if columns[c].Some? {
          var t := ParseTimeCell(CellAt(row, c));
          if t.Some? {
            result := Append(result, columns[c].value, route, t.value);
          }
        }
      }
    }

    /** One iteration of the row loop of `load`: the loop variables after row number `r`. */
    static method ScanRow(st: ScanState, r: nat, row: Option<Row>) returns (next: ScanState)
      ensures next == Step(st, r, row)
    {
      next := st;
      if row.None? {
        return;
      }
      var texts := RowTexts(row.value);
      if IsHeaderRow(texts, r) {
        var routeNoCol := FindColIndexContains(texts, ROUTE_NO_HEADER);
        var columns := BuildStationColumnMap(texts);
        if r == 0 && routeNoCol.None? {
          routeNoCol := Some(0);
        }
        next := ScanState(routeNoCol, columns, None, st.table);
        return;
      }
      if NoColumns(st.columns) {
        return;
      }
      var current := st.current;
      if st.routeNoCol.Some? {
        var parsed := ParseRouteNo(SafeGet(texts, st.routeNoCol.value));
        if parsed.Some? {
          current := parsed;
        }
      }
      if current.None? {
        return;
      }
      var table := AddRowTimes(st.table, st.columns, row.value, current.value);
      next := ScanState(st.routeNoCol, st.columns, current, table);
    }

    /** `load`, reading the first sheet of the workbook (`None` when it cannot be opened). */
    method Load(sheet: Option<seq<Option<Row>>>)
      modifies this
      ensures timetable == Loaded(sheet)
    {
      timetable := map[];
      if sheet.None? {
        return;
      }
      var rows := sheet.value;
      var st := ScanState(None, [], None, map[]);
      for r := 0 to |rows|
        invariant st == Scan(rows, r)
      {
        st := ScanRow(st, r, rows[r]);
      }
      timetable := NormalizeAll(st.table);
    }

    /** The inner loop of `getArrivals`: one row per upcoming departure of route `routeNo`. */
    static method BuildRouteArrivals(routeNo: string, times: seq<int>, now: Clock, limit: nat)
      returns (route: seq<LocalArrival>)
      ensures route == RouteArrivals(routeNo, times, now, limit)
    {
      var next := NextTimes(times, now, limit);
      route := [];
      for j := 0 to |next|
        invariant |route| == j
        invariant forall m :: 0 <= m < j ==> route[m] == LocalArrival(None, routeNo, SecondsBetween(now, next[m]), -1)
      {
        route := route + [LocalArrival(None, routeNo, SecondsBetween(now, next[j]), -1)];
      }
    }

    /** The loop of `getArrivals` over the routes of one station and their next departures. */
    static method CollectArrivals(byRoute: map<string, seq<int>>, order: seq<string>, now: Clock, limit: nat)
      returns (out: seq<LocalArrival>)
      requires forall i :: 0 <= i < |order| ==> order[i] in byRoute
      ensures out == Candidates(byRoute, order, now, limit)
    {
      out := [];
      for i := 0 to |order|
        invariant out == Candidates(byRoute, order[..i], now, limit)
      {
        var routeNo := order[i];
        var route := BuildRouteArrivals(routeNo, byRoute[routeNo], now, limit);
        var prefix := order[..i + 1];
        assert prefix[..i] == order[..i] && prefix[i] == routeNo;
        assert Candidates(byRoute, prefix, now, limit) == Candidates(byRoute, order[..i], now, limit) + route;
        out := out + route;
      }
      assert order[..|order|] == order;
    }

    /** `getArrivals(stationId, limit)` at clock time `now`, visiting routes in `routeOrder`. */
    method GetArrivals(stationId: string, limit: int, now: Clock, routeOrder: seq<string>)
      returns (r: Result<seq<LocalArrival>>)
      requires IsOrderOf(routeOrder, RoutesAt(timetable, stationId))
      ensures r == Arrivals(timetable, stationId, limit, now, routeOrder)
    {
      var byRoute := RoutesAt(timetable, stationId);
      if |byRoute| == 0 {
        return Ok([]);
      }
      if limit < 0 {
        return Err(IllegalArgument(DecimalString(limit)));
      }
      var out := CollectArrivals(byRoute, routeOrder, now, limit);
      return Ok(Sorting.Take(Sorting.SortBy(out, ArrTime), limit));
    }
  }
}
