/**
 * The table logic of the interactive page: the render-time reminder sweep,
 * the migration of legacy sheets to the seven-column schema, and the
 * sample sheet.
 */
module App {
  import opened Options
  import opened Calendar
  import opened GearTable
  import opened Reminders

  /**
   * The reminder block of the page. Both selections are taken from the table
   * as loaded; the lines are collected TRTR first, and each track's selected
   * flags are set to 'Yes' as soon as its lines are shown, before any email
   * is sent.
   */
  method RenderSweep(table: Table, today: Date) returns (reminderMsgs: seq<string>)
    modifies table
    ensures reminderMsgs == DueMessages(old(table.rows), today)
    ensures table.rows == SweptRows(old(table.rows), today)
    ensures DueMessages(table.rows, today) == []
    ensures Consistent(old(table.rows)) ==> Consistent(table.rows)
  {
    var frame := table.rows;
    var trtrDue := DueIndices(frame, TRTR, today);
    var mnttDue := DueIndices(frame, MNTT, today);
    reminderMsgs := [];
    MarkedNone(frame, TRTR);
    if |trtrDue| > 0 {
      var lines := CollectMessages(frame, TRTR, trtrDue);
      reminderMsgs := reminderMsgs + lines;
      table.MarkSent(TRTR, trtrDue);
    }
    assert reminderMsgs == Messages(frame, TRTR, trtrDue);
    assert table.rows == Marked(frame, TRTR, trtrDue);
    ghost var mid := table.rows;
    MarkedNone(mid, MNTT);
    if |mnttDue| > 0 {
      var lines := CollectMessages(frame, MNTT, mnttDue);
      reminderMsgs := reminderMsgs + lines;
      table.MarkSent(MNTT, mnttDue);
    }
    assert reminderMsgs == Messages(frame, TRTR, trtrDue) + Messages(frame, MNTT, mnttDue);
    assert table.rows == Marked(mid, MNTT, mnttDue);
    SweepIsIdempotent(frame, today);
  }

  /** `row.get(column, '')`. */
  function Cell(row: map<string, string>, column: string): string {
    if column in row then row[column] else ""
  }

  /**
   * What migration writes for one track from its legacy date cell: the date
   * unchanged; a next-open cell that parses to the date plus 14 days, or is
   * blank when there is no such day; 'No' for a non-blank date, even one that
   * does not parse, and blank for a blank one.
   */
  predicate MigratedFrom(tr: Track, date: string) {
    tr.date == date
    && tr.sent == (if date == "" then Blank else No)
    && Parse(tr.next) == NextOpen(date)
    && (NextOpen(date).None? ==> tr.next == "")
  }

  predicate IsMigrated(legacy: map<string, string>, r: Row) {
    r.gear == Cell(legacy, "Gear")
    && MigratedFrom(r.trtr, Cell(legacy, "TRTR Date"))
    && MigratedFrom(r.mntt, Cell(legacy, "MNTT Date"))
  }

  function MigrateTrack(date: string): (tr: Track)
    ensures MigratedFrom(tr, date) && TrackConsistent(tr)
  {
    if date == "" then BLANK
    else
      match NextOpen(date)
      case None => Track(date, "", No)
      case Some(n) =>
        ParseFormat(n);
        Track(date, Format(n), No)
  }

  /** One legacy row in the seven-column schema: Gear copied, both tracks migrated. */
  function MigrateRow(legacy: map<string, string>): (r: Row)
    ensures IsMigrated(legacy, r) && RowConsistent(r)
  {
    Row(Cell(legacy, "Gear"), MigrateTrack(Cell(legacy, "TRTR Date")), MigrateTrack(Cell(legacy, "MNTT Date")))
  }

  /**
   * `migrate_excel` on a loaded sheet: `None` when its column set is already
   * the schema's (the file is left alone), else one migrated row per legacy
   * row, in order.
   */
  method MigrateRows(columns: seq<string>, rows: seq<map<string, string>>) returns (migrated: Option<seq<Row>>)
    ensures migrated.None? <==> (set c | c in columns) == (set c | c in COLUMNS)
    ensures migrated.Some? ==>
      |migrated.value| == |rows|
      && (forall i :: 0 <= i < |rows| ==> IsMigrated(rows[i], migrated.value[i]))
      && Consistent(migrated.value)
  {
    if (set c | c in columns) == (set c | c in COLUMNS) {
      return None;
    }
    var out := MigrateAll(rows);
    migrated := Some(out);
  }

  /** The `iterrows` loop of `migrate_excel`: one migrated row per legacy row, in order. */
  method MigrateAll(rows: seq<map<string, string>>) returns (out: seq<Row>)
    ensures |out| == |rows|
    ensures forall i :: 0 <= i < |rows| ==> IsMigrated(rows[i], out[i])
    ensures Consistent(out)
  {
    out := [];
    for i := 0 to |rows|
      invariant |out| == i
      invariant forall k :: 0 <= k < i ==> IsMigrated(rows[k], out[k]) && RowConsistent(out[k])
    {
      out := out + [MigrateRow(rows[i])];
    }
  }

  /** One entry of the sample list: a gear and its two last-opened dates. */
  datatype SampleEntry = SampleEntry(gear: string, trtrDate: string, mnttDate: string)

  /**
   * What sample population writes for one track: the date unchanged; a
   * next-open cell that parses to the date plus 14 days, or blank when the
   * date does not parse; 'No' exactly when the next-open cell is non-empty.
   */
  predicate SampledFrom(tr: Track, date: string) {
    tr.date == date
    && Parse(tr.next) == NextOpen(date)
    && (NextOpen(date).None? ==> tr.next == "")
    && tr.sent == (if tr.next != "" then No else Blank)
  }

  function SampleTrack(date: string): (tr: Track)
    ensures SampledFrom(tr, date) && TrackConsistent(tr)
    ensures tr.sent == No <==> NextOpen(date).Some?
  {
    match NextOpen(date)
    case None => Track(date, "", Blank)
    case Some(n) =>
      ParseFormat(n);
      Track(date, Format(n), No)
  }

  /** `populate_sample_data`'s loop: one row per entry, in order. */
  method BuildSampleRows(entries: seq<SampleEntry>) returns (rows: seq<Row>)
    ensures |rows| == |entries|
    ensures forall i :: 0 <= i < |entries| ==>
      rows[i].gear == entries[i].gear
      && SampledFrom(rows[i].trtr, entries[i].trtrDate)
      && SampledFrom(rows[i].mntt, entries[i].mnttDate)
    ensures Consistent(rows)
  {
    rows := [];
    for i := 0 to |entries|
      invariant |rows| == i
      invariant forall k :: 0 <= k < i ==>
        rows[k].gear == entries[k].gear
        && SampledFrom(rows[k].trtr, entries[k].trtrDate)
        && SampledFrom(rows[k].mntt, entries[k].mnttDate)
        && RowConsistent(rows[k])
    {
      var entry := entries[i];
      rows := rows + [Row(entry.gear, SampleTrack(entry.trtrDate), SampleTrack(entry.mnttDate))];
    }
  }

  /** The fixed sample list of `populate_sample_data`. */
  const SAMPLE: seq<SampleEntry> := [
    SampleEntry("POINTS - ERS SIDE", "2025-06-09", "2025-06-20"),
    SampleEntry("POINTS - KTYM SIDE", "2025-06-17", "2025-06-20"),
    SampleEntry("TC & SIG - KTYM SIDE", "2025-06-24", "2025-06-20"),
    SampleEntry("TC & SIG - ERS PF SIDE", "2025-06-08", "2025-06-27"),
    SampleEntry("TC & SIG - LC-7 SIDE", "2025-06-27", ""),
    SampleEntry("BLOCK - KTYM SIDE", "2025-06-26", ""),
    SampleEntry("BLOCK - ERS SIDE", "2025-06-25", "2025-06-28"),
    SampleEntry("RELAY ROOM & PANEL", "2025-06-06", "2025-06-06"),
    SampleEntry("IPS & BATTERY", "2025-06-15", "2025-06-28"),
    SampleEntry("HASSDAC - ERS SIDE", "2025-06-27", "2025-06-27"),
    SampleEntry("HASSDAC - KTYM SIDE", "2025-06-24", ""),
    SampleEntry("DATALOGGER", "2025-06-25", "2025-06-28"),
    SampleEntry("ELD", "2025-06-15", "2025-06-28"),
    SampleEntry("FIRE ALARM", "2025-06-25", "2025-06-28"),
    SampleEntry("CRANK HANDLE", "2025-01-23", "2025-01-19"),
    SampleEntry("ERS - D", "", "2025-06-27"),
    SampleEntry("LC GATES", "", "DATES"),
    SampleEntry("LC - 5", "", "2025-06-03"),
    SampleEntry("LC - 6", "", "2025-06-03"),
    SampleEntry("LC - 7 (TF)", "", "2025-04-20"),
    SampleEntry("LC - 9", "", "2025-06-22"),
    SampleEntry("LC - 10", "", "2025-06-22"),
    SampleEntry("LC - 11", "", "2025-06-22"),
    SampleEntry("LC - 12", "", "2025-05-26")
  ]

  /** The "LC GATES" entry's MNTT date 'DATES' does not parse: blank next open, blank flag. */
  lemma SampleLcGates()
    ensures SAMPLE[16].gear == "LC GATES"
    ensures SampleTrack(SAMPLE[16].mnttDate) == Track("DATES", "", Blank)
    ensures SampleTrack(SAMPLE[16].trtrDate) == BLANK
  {
  }

  /** The ISO text of the two days the first sample entry involves. */
  lemma SampleDays()
    ensures Format(Date(2025, 6, 9)) == "2025-06-09"
    ensures Format(Date(2025, 6, 23)) == "2025-06-23"
  {
    assert Digits(2, 1) == "2" && Digits(0, 1) == "0";
    assert Digits(20, 2) == "20";
    assert Digits(202, 3) == "202";
    assert Digits(2025, 4) == "2025";
    assert Digits(6, 2) == "06" && Digits(9, 2) == "09" && Digits(23, 2) == "23";
    assert Format(Date(2025, 6, 9)) == Digits(2025, 4) + "-" + Digits(6, 2) + "-" + Digits(9, 2);
    assert Format(Date(2025, 6, 23)) == Digits(2025, 4) + "-" + Digits(6, 2) + "-" + Digits(23, 2);
  }

  /** The first entry's TRTR date 2025-06-09 gets next open 2025-06-23 and flag 'No'. */
  lemma SampleFirstEntry()
    ensures SampleTrack(SAMPLE[0].trtrDate) == Track("2025-06-09", "2025-06-23", No)
  {
    var d := Date(2025, 6, 9);
    SampleDays();
    ParseFormat(d);
    LaterInMonth(d, INTERVAL);
  }
}
