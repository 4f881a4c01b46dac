/**
 * The reminder table: one row per piece of equipment ("gear"), each with two
 * independent maintenance tracks, TRTR and MNTT, of three cells each. The
 * pandas DataFrame that the two scripts mutate in place is the class `Table`.
 */
module GearTable {
  import opened Options
  import opened Calendar

  /** The "Reminder Sent" cell: blank, 'No' or 'Yes'. */
  datatype Flag = Blank | No | Yes

  /** The cells "<TRACK> Date", "<TRACK> Next Open" and "<TRACK> Reminder Sent". */
  datatype Track = Track(date: string, next: string, sent: Flag)

  datatype Row = Row(gear: string, trtr: Track, mntt: Track)

  datatype TrackId = TRTR | MNTT

  /** The seven-column schema, in column order. */
  const COLUMNS: seq<string> := [
    "Gear",
    "TRTR Date", "TRTR Next Open", "TRTR Reminder Sent",
    "MNTT Date", "MNTT Next Open", "MNTT Reminder Sent"
  ]

  /** Days from opening a track to its next opening. */
  const INTERVAL: nat := 14

  const BLANK: Track := Track("", "", Blank)

  function Other(t: TrackId): TrackId {
    match t
    case TRTR => MNTT
    case MNTT => TRTR
  }

  function TrackOf(r: Row, t: TrackId): Track {
    match t
    case TRTR => r.trtr
    case MNTT => r.mntt
  }

  /** `r` with the cells of track `t` replaced by `tr`. */
  function WithTrack(r: Row, t: TrackId, tr: Track): (r': Row)
    ensures r'.gear == r.gear && TrackOf(r', t) == tr && TrackOf(r', Other(t)) == TrackOf(r, Other(t))
  {
    match t
    case TRTR => r.(trtr := tr)
    case MNTT => r.(mntt := tr)
  }

  /** A gear with all six date and flag cells empty. */
  function BlankRow(gear: string): Row {
    Row(gear, BLANK, BLANK)
  }

  /**
   * `pd.to_datetime(date, errors='coerce') + timedelta(days=14)`: the day 14
   * days after the day a cell holds; `None` when it holds none (NaT) or the
   * sum passes 9999-12-31.
   */
  function NextOpen(date: string): (r: Option<Date>)
    ensures Parse(date).None? ==> r.None?
    ensures Parse(date).Some? ==> (r.Some? <==> Later(Parse(date).value, INTERVAL).year <= MAX_YEAR)
    ensures r.Some? ==> InRange(r.value) && Before(Parse(date).value, r.value)
  {
    match Parse(date)
    case None => None
    case Some(d) => AddDays(d, INTERVAL)
  }

  /** Going back 14 days from a cell's next-open day gives the cell's day. */
  lemma NextOpenUndone(date: string)
    requires NextOpen(date).Some?
    ensures SubtractDays(NextOpen(date).value, INTERVAL) == Parse(date)
  {
    var d := Parse(date).value;
    var n := NextOpen(date).value;
    EarlierWellFormed(n, INTERVAL);
    LaterUndoesEarlier(n, INTERVAL);
    LaterInjective(Earlier(n, INTERVAL), d, INTERVAL);
  }

  /**
   * A track's next-open cell holds exactly the day 14 days after the day its
   * date cell holds: both hold a day, or neither does.
   */
  predicate TrackConsistent(tr: Track) {
    Parse(tr.next) == NextOpen(tr.date)
  }

  predicate RowConsistent(r: Row) {
    TrackConsistent(r.trtr) && TrackConsistent(r.mntt)
  }

  predicate Consistent(rows: seq<Row>) {
    forall i :: 0 <= i < |rows| ==> RowConsistent(rows[i])
  }

  predicate HasGear(rows: seq<Row>, gear: string) {
    exists i :: 0 <= i < |rows| && rows[i].gear == gear
  }

  /** No two rows share a gear name, so a lookup by name finds at most one row. */
  predicate UniqueGears(rows: seq<Row>) {
    forall i, j :: 0 <= i < j < |rows| ==> rows[i].gear != rows[j].gear
  }

  /**
   * `df['Gear'].dropna().unique().tolist()`: the distinct gear names; a
   * blank name is a missing cell and is dropped.
   */
  function Gears(rows: seq<Row>): (g: seq<string>)
    ensures forall j, k :: 0 <= j < k < |g| ==> g[j] != g[k]
    ensures forall n :: n in g <==> n != "" && HasGear(rows, n)
  {
    if rows == [] then []
    else
      var last := |rows| - 1;
      var g := Gears(rows[..last]);
      var n := rows[last].gear;
      assert forall m :: HasGear(rows, m) <==> HasGear(rows[..last], m) || m == n by {
        forall m | HasGear(rows, m) ensures HasGear(rows[..last], m) || m == n {
          var i :| 0 <= i < |rows| && rows[i].gear == m;
          if i < last { assert rows[..last][i] == rows[i]; }
        }
        forall m | HasGear(rows[..last], m) ensures HasGear(rows, m) {
          var i :| 0 <= i < last && rows[..last][i].gear == m;
          assert rows[i] == rows[..last][i];
        }
      }
      if n == "" || n in g then g else g + [n]
  }

  /**
   * The "Mark ... as Opened" update for track `t` with cells `tr`: every row
   * named `gear` gets `tr`; a gear not present gets a new row with the other
   * track blank.
   */
  function Upsert(rows: seq<Row>, t: TrackId, gear: string, tr: Track): (r: seq<Row>)
    ensures HasGear(rows, gear) ==>
      |r| == |rows|
      && forall i :: 0 <= i < |rows| ==>
           if rows[i].gear == gear
           then r[i].gear == gear && TrackOf(r[i], t) == tr && TrackOf(r[i], Other(t)) == TrackOf(rows[i], Other(t))
           else r[i] == rows[i]
    ensures !HasGear(rows, gear) ==>
      |r| == |rows| + 1 && r[..|rows|] == rows
      && r[|rows|].gear == gear && TrackOf(r[|rows|], t) == tr && TrackOf(r[|rows|], Other(t)) == BLANK
  {
    if HasGear(rows, gear) then
      seq(|rows|, i requires 0 <= i < |rows| =>
        if rows[i].gear == gear then WithTrack(rows[i], t, tr) else rows[i])
    else
      rows + [WithTrack(BlankRow(gear), t, tr)]
  }

  /**
   * The cells written when track `t` is opened on `d`: the date, the date
   * plus 14 days, and 'No'. `None` when the sum overflows.
   */
  function OpenedTrack(d: Date): (r: Option<Track>)
    requires InRange(d)
    ensures r.Some? <==> AddDays(d, INTERVAL).Some?
    ensures r.Some? ==>
      Parse(r.value.date) == Some(d) && Parse(r.value.next) == AddDays(d, INTERVAL)
      && r.value.sent == No && TrackConsistent(r.value)
  {
    match AddDays(d, INTERVAL)
    case None => None
    case Some(n) =>
      ParseFormat(d);
      ParseFormat(n);
      Some(Track(Format(d), Format(n), No))
  }

  /** `df.loc[idx, '<TRACK> Reminder Sent'] = 'Yes'`. */
  function Marked(rows: seq<Row>, t: TrackId, idx: seq<nat>): (r: seq<Row>)
    ensures |r| == |rows|
    ensures forall i :: 0 <= i < |rows| ==>
      r[i].gear == rows[i].gear
      && TrackOf(r[i], Other(t)) == TrackOf(rows[i], Other(t))
      && TrackOf(r[i], t).date == TrackOf(rows[i], t).date
      && TrackOf(r[i], t).next == TrackOf(rows[i], t).next
      && TrackOf(r[i], t).sent == (if i in idx then Yes else TrackOf(rows[i], t).sent)
  {
    seq(|rows|, i requires 0 <= i < |rows| =>
      if i in idx then WithTrack(rows[i], t, TrackOf(rows[i], t).(sent := Yes)) else rows[i])
  }

  /**
   * The two rows that `add_today_due_sample` appends: one due today on TRTR
   * only, one due today on MNTT only, each opened 14 days ago. `None` when
   * going back 14 days overflows.
   */
  function TodayDueSample(today: Date): (r: Option<seq<Row>>)
    requires InRange(today)
    ensures r.Some? <==> SubtractDays(today, INTERVAL).Some?
    ensures r.Some? ==>
      var s := r.value;
      |s| == 2 && Consistent(s)
      && s[0].gear == "SAMPLE TRTR DUE" && s[0].mntt == BLANK
      && s[1].gear == "SAMPLE MNTT DUE" && s[1].trtr == BLANK
      && s[0].trtr == s[1].mntt
      && Parse(s[0].trtr.date) == SubtractDays(today, INTERVAL)
      && s[0].trtr.next == Format(today) && s[0].trtr.sent == No
  {
    match SubtractDays(today, INTERVAL)
    case None => None
    case Some(p) =>
      var due := Track(Format(p), Format(today), No);
      ParseFormat(p);
      ParseFormat(today);
      Some([Row("SAMPLE TRTR DUE", due, BLANK), Row("SAMPLE MNTT DUE", BLANK, due)])
  }

  /** Marking a track opened never gives two rows the same name. */
  lemma {:induction false} UpsertKeepsUnique(rows: seq<Row>, t: TrackId, gear: string, tr: Track)
    requires UniqueGears(rows)
    ensures UniqueGears(Upsert(rows, t, gear, tr))
  {
    var r := Upsert(rows, t, gear, tr);
    if HasGear(rows, gear) {
      assert forall i :: 0 <= i < |rows| ==> r[i].gear == rows[i].gear;
    } else {
      forall i, j | 0 <= i < j < |r| ensures r[i].gear != r[j].gear {
        assert r[i] == rows[i];
        if j < |rows| {
          assert r[j] == rows[j];
        }
      }
    }
  }

  /** Adding a gear that is not yet present never gives two rows the same name. */
  lemma AddGearKeepsUnique(rows: seq<Row>, name: string)
    requires UniqueGears(rows) && !HasGear(rows, name)
    ensures UniqueGears(rows + [BlankRow(name)])
  {
  }

  /**
   * `add_today_due_sample` does not look for earlier sample rows: appending
   * the sample twice gives two rows named "SAMPLE TRTR DUE".
   */
  lemma SampleTwiceRepeatsGears(rows: seq<Row>, today: Date)
    requires InRange(today) && TodayDueSample(today).Some?
    ensures var s := TodayDueSample(today).value;
      !UniqueGears(rows + s + s)
  {
    var s := TodayDueSample(today).value;
    var r := rows + s + s;
    assert r[|rows|] == s[0] && r[|rows| + 2] == s[0];
  }

  /** Opening a track is defined on every day up to year 9985. */
  lemma OpenedTrackDefined(d: Date)
    requires InRange(d) && d.year + INTERVAL <= MAX_YEAR
    ensures OpenedTrack(d).Some?
  {
    AddDaysDefined(d, INTERVAL);
  }

  /** The today-due sample exists for every day from year 15 on. */
  lemma TodayDueSampleDefined(today: Date)
    requires InRange(today) && today.year - INTERVAL >= MIN_YEAR
    ensures TodayDueSample(today).Some?
  {
    SubtractDaysDefined(today, INTERVAL);
  }

  lemma {:induction false} UpsertConsistent(rows: seq<Row>, t: TrackId, gear: string, tr: Track)
    requires Consistent(rows) && TrackConsistent(tr)
    ensures Consistent(Upsert(rows, t, gear, tr))
  {
    var r := Upsert(rows, t, gear, tr);
    forall i | 0 <= i < |r| ensures RowConsistent(r[i]) {
      if i < |rows| && rows[i].gear != gear {
        assert r[i] == rows[i];
      } else if i < |rows| {
        assert RowConsistent(rows[i]);
        assert TrackConsistent(TrackOf(rows[i], Other(t)));
        assert TrackConsistent(TrackOf(r[i], t)) && TrackConsistent(TrackOf(r[i], Other(t)));
      } else {
        assert TrackConsistent(TrackOf(r[i], t)) && TrackConsistent(TrackOf(r[i], Other(t)));
      }
    }
  }

  lemma {:induction false} MarkedConsistent(rows: seq<Row>, t: TrackId, idx: seq<nat>)
    requires Consistent(rows)
    ensures Consistent(Marked(rows, t, idx))
  {
    var r := Marked(rows, t, idx);
    forall i | 0 <= i < |r| ensures RowConsistent(r[i]) {
      assert RowConsistent(rows[i]);
      assert TrackConsistent(TrackOf(rows[i], t)) && TrackConsistent(TrackOf(rows[i], Other(t)));
      assert TrackConsistent(TrackOf(r[i], t)) && TrackConsistent(TrackOf(r[i], Other(t)));
    }
  }

  /** Marking no rows changes nothing. */
  lemma MarkedNone(rows: seq<Row>, t: TrackId)
    ensures Marked(rows, t, []) == rows
  {
    var r := Marked(rows, t, []);
    forall i | 0 <= i < |rows| ensures r[i] == rows[i] {
      assert Other(t) != t;
    }
  }

  /** Adding a new gear extends the gear list by exactly that name. */
  lemma AddGearExtendsGears(rows: seq<Row>, name: string)
    requires name != "" && !HasGear(rows, name)
    ensures Gears(rows + [BlankRow(name)]) == Gears(rows) + [name]
  {
    assert (rows + [BlankRow(name)])[..|rows|] == rows;
  }

  /** The DataFrame `df` held in memory between loading and saving. */
  class Table {
    var rows: seq<Row>

    constructor (rows: seq<Row>)
      ensures this.rows == rows
    {
      this.rows := rows;
    }

    /**
     * "Mark TRTR/MNTT as Opened" for `gear` on day `d`. `ok` is false when
     * `d + 14 days` overflows; the handler then stops before changing anything.
     */
    method MarkOpened(t: TrackId, gear: string, d: Date) returns (ok: bool)
      requires InRange(d)
      modifies this
      ensures ok <==> AddDays(d, INTERVAL).Some?
      ensures !ok ==> rows == old(rows)
      ensures ok ==> rows == Upsert(old(rows), t, gear, OpenedTrack(d).value)
      ensures Consistent(old(rows)) ==> Consistent(rows)
      ensures UniqueGears(old(rows)) ==> UniqueGears(rows)
    {
      var cells := OpenedTrack(d);
      if cells.None? {
        return false;
      }
      var updated := Upsert(rows, t, gear, cells.value);
      if Consistent(rows) {
        UpsertConsistent(rows, t, gear, cells.value);
      }
      if UniqueGears(rows) {
        UpsertKeepsUnique(rows, t, gear, cells.value);
      }
      rows := updated;
      ok := true;
    }

    /**
     * "Add new gear": a non-empty name not yet in the gear list is appended
     * as a blank row; otherwise nothing changes.
     */
    method AddGear(name: string) returns (added: bool)
      modifies this
      ensures added <==> name != "" && !HasGear(old(rows), name)
      ensures rows == if added then old(rows) + [BlankRow(name)] else old(rows)
      ensures added ==> Gears(rows) == Gears(old(rows)) + [name]
      ensures Consistent(old(rows)) ==> Consistent(rows)
      ensures UniqueGears(old(rows)) ==> UniqueGears(rows)
    {
      added := false;
      if name != "" {
        var gears := Gears(rows);
        if name !in gears {
          AddGearExtendsGears(rows, name);
          if UniqueGears(rows) {
            AddGearKeepsUnique(rows, name);
          }
          rows := rows + [BlankRow(name)];
          added := true;
        }
      }
    }

    /** Sets "<TRACK> Reminder Sent" to 'Yes' on the rows at `idx`. */
    method MarkSent(t: TrackId, idx: seq<nat>)
      modifies this
      ensures rows == Marked(old(rows), t, idx)
      ensures Consistent(old(rows)) ==> Consistent(rows)
    {
      if Consistent(rows) {
        MarkedConsistent(rows, t, idx);
      }
      rows := Marked(rows, t, idx);
    }

    /** `add_today_due_sample`: appends the two rows due today. */
    method AddTodayDueSample(today: Date) returns (ok: bool)
      requires InRange(today)
      modifies this
      ensures ok <==> SubtractDays(today, INTERVAL).Some?
      ensures rows == if ok then old(rows) + TodayDueSample(today).value else old(rows)
      ensures Consistent(old(rows)) ==> Consistent(rows)
    {
      var sample := TodayDueSample(today);
      if sample.None? {
        return false;
      }
      rows := rows + sample.value;
      ok := true;
    }
  }
}
