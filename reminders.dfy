/**
 * The reminder sweep shared by the page and the unattended checker: which
 * track of which row is due today, the message line for each, the email
 * body, and what marking the flags does to the next sweep.
 */
module Reminders {
  import opened Options
  import opened Calendar
  import opened GearTable

  const SUBJECT: string := "Gear Reminder - Action Needed Today"

  datatype Email = Email(subject: string, body: string)

  /**
   * The selection mask: the next-open cell is present, parses to `today`,
   * and its flag is not 'Yes'. Blank or unparseable cells are never due.
   */
  predicate IsDue(r: Row, t: TrackId, today: Date)
    ensures IsDue(r, t, today) <==>
      InRange(today) && TrackOf(r, t).sent != Yes && TrackOf(r, t).next == Format(today)
  {
    var tr := TrackOf(r, t);
    ParseIff(tr.next, today);
    tr.next != "" && tr.sent != Yes && Parse(tr.next) == Some(today)
  }

  /** The index of the filtered frame: the positions of the due rows, in table order. */
  function DueIndices(rows: seq<Row>, t: TrackId, today: Date): (idx: seq<nat>)
    ensures forall k :: 0 <= k < |idx| ==> idx[k] < |rows| && IsDue(rows[idx[k]], t, today)
    ensures forall i :: 0 <= i < |rows| ==> (i in idx <==> IsDue(rows[i], t, today))
    ensures forall j, k :: 0 <= j < k < |idx| ==> idx[j] < idx[k]
  {
    if rows == [] then []
    else
      var last := |rows| - 1;
      var prefix := DueIndices(rows[..last], t, today);
      assert forall i :: 0 <= i < last ==> rows[..last][i] == rows[i];
      prefix + (if IsDue(rows[last], t, today) then [last] else [])
  }

  function TrackName(t: TrackId): string {
    match t
    case TRTR => "TRTR"
    case MNTT => "MNTT"
  }

  /** One reminder line, with the next-open cell as the row holds it. */
  function Message(gear: string, t: TrackId, next: string): (m: string)
    ensures |"Gear: " + gear| <= |m| && m[..|"Gear: " + gear|] == "Gear: " + gear
    ensures |"(Next Open: " + next + ")"| <= |m|
      && m[|m| - |"(Next Open: " + next + ")"|..] == "(Next Open: " + next + ")"
    ensures '\n' in m <==> '\n' in gear || '\n' in next
  {
    var head := "Gear: " + gear;
    var middle := " - " + TrackName(t) + " needs to be opened today! ";
    var tail := "(Next Open: " + next + ")";
    assert '\n' !in middle by {
      assert '\n' !in TrackName(t);
    }
    assert '\n' in head <==> '\n' in gear;
    assert '\n' in tail <==> '\n' in next;
    var m := head + middle + tail;
    assert m[..|head|] == head;
    assert m[|m| - |tail|..] == tail;
    m
  }

  /** The line for row `r` on track `t`: it names the gear and shows the track's next-open cell. */
  function MessageFor(r: Row, t: TrackId): (m: string)
    ensures |"Gear: " + r.gear| <= |m| && m[..|"Gear: " + r.gear|] == "Gear: " + r.gear
    ensures |"(Next Open: " + TrackOf(r, t).next + ")"| <= |m|
      && m[|m| - |"(Next Open: " + TrackOf(r, t).next + ")"|..] == "(Next Open: " + TrackOf(r, t).next + ")"
    ensures '\n' in m <==> '\n' in r.gear || '\n' in TrackOf(r, t).next
  {
    Message(r.gear, t, TrackOf(r, t).next)
  }

  /** The lines for the rows at `idx`, one per index, in the order of `idx`. */
  function Messages(rows: seq<Row>, t: TrackId, idx: seq<nat>): seq<string>
    requires forall k :: 0 <= k < |idx| ==> idx[k] < |rows|
  {
    seq(|idx|, k requires 0 <= k < |idx| => MessageFor(rows[idx[k]], t))
  }

  /** Every line due today: all TRTR lines, then all MNTT lines. */
  function DueMessages(rows: seq<Row>, today: Date): seq<string> {
    Messages(rows, TRTR, DueIndices(rows, TRTR, today)) + Messages(rows, MNTT, DueIndices(rows, MNTT, today))
  }

  /** The rows after both tracks' due flags are set to 'Yes'. */
  function SweptRows(rows: seq<Row>, today: Date): seq<Row> {
    Marked(Marked(rows, TRTR, DueIndices(rows, TRTR, today)), MNTT, DueIndices(rows, MNTT, today))
  }

  /** `'\n'.join(lines)`. */
  function Join(lines: seq<string>): (body: string)
    ensures |lines| > 0 ==> |lines[0]| <= |body| && body[..|lines[0]|] == lines[0]
    ensures '\n' !in body <==> |lines| <= 1 && forall k :: 0 <= k < |lines| ==> '\n' !in lines[k]
    decreases |lines|
  {
    if |lines| == 0 then ""
    else if |lines| == 1 then lines[0]
    else lines[0] + "\n" + Join(lines[1..])
  }

  /** The position of the first newline of `s`, or `|s|` when it has none. */
  function NewlineAt(s: string): (k: nat)
    ensures k <= |s|
    ensures k < |s| ==> s[k] == '\n'
    ensures forall j :: 0 <= j < k ==> s[j] != '\n'
  {
    if s == [] then 0 else if s[0] == '\n' then 0 else 1 + NewlineAt(s[1..])
  }

  /** `s.split('\n')`. */
  function Split(s: string): seq<string>
    decreases |s|
  {
    var k := NewlineAt(s);
    if k == |s| then [s] else [s[..k]] + Split(s[k + 1..])
  }

  lemma {:induction false} SplitJoin(lines: seq<string>)
    requires |lines| > 0
    requires forall k :: 0 <= k < |lines| ==> '\n' !in lines[k]
    ensures Split(Join(lines)) == lines
    decreases |lines|
  {
    var first := lines[0];
    if |lines| == 1 {
      assert NewlineAt(first) == |first|;
    } else {
      var rest := Join(lines[1..]);
      var s := first + "\n" + rest;
      assert Join(lines) == s;
      assert s[|first|] == '\n';
      assert forall j :: 0 <= j < |first| ==> s[j] == first[j];
      assert NewlineAt(s) == |first|;
      assert s[..|first|] == first;
      assert s[|first| + 1..] == rest;
      SplitJoin(lines[1..]);
      assert lines == [first] + lines[1..];
    }
  }

  /**
   * The email the "Run Reminder Check" button and the checker hand to the
   * mail transport: none when nothing is due, else one message whose body
   * holds the lines, newline-joined.
   */
  function ReminderEmail(msgs: seq<string>): (e: Option<Email>)
    ensures e.Some? <==> |msgs| > 0
    ensures e.Some? ==> e.value.subject == SUBJECT
    ensures e.Some? && (forall k :: 0 <= k < |msgs| ==> '\n' !in msgs[k]) ==> Split(e.value.body) == msgs
  {
    if |msgs| == 0 then None
    else
      var body := Join(msgs);
      assert (forall k :: 0 <= k < |msgs| ==> '\n' !in msgs[k]) ==> Split(body) == msgs by {
        if forall k :: 0 <= k < |msgs| ==> '\n' !in msgs[k] {
          SplitJoin(msgs);
        }
      }
      Some(Email(SUBJECT, body))
  }

  /** The reminder-building loop: one `append` per selected row. */
  method CollectMessages(rows: seq<Row>, t: TrackId, idx: seq<nat>) returns (msgs: seq<string>)
    requires forall k :: 0 <= k < |idx| ==> idx[k] < |rows|
    ensures msgs == Messages(rows, t, idx)
  {
    msgs := [];
    for k := 0 to |idx|
      invariant |msgs| == k
      invariant forall j :: 0 <= j < k ==> msgs[j] == MessageFor(rows[idx[j]], t)
    {
      msgs := msgs + [MessageFor(rows[idx[k]], t)];
    }
  }

  /** The selection depends only on which rows are due. */
  lemma {:induction false} DueIndicesDependOnDueRows(a: seq<Row>, b: seq<Row>, t: TrackId, today: Date)
    requires |a| == |b|
    requires forall i :: 0 <= i < |a| ==> (IsDue(a[i], t, today) <==> IsDue(b[i], t, today))
    ensures DueIndices(a, t, today) == DueIndices(b, t, today)
    decreases |a|
  {
    if a != [] {
      var last := |a| - 1;
      assert forall i :: 0 <= i < last ==> a[..last][i] == a[i] && b[..last][i] == b[i];
      DueIndicesDependOnDueRows(a[..last], b[..last], t, today);
    }
  }

  /** Appending a row adds its index to the selection exactly when it is due. */
  lemma DueIndicesAppend(rows: seq<Row>, x: Row, t: TrackId, today: Date)
    ensures DueIndices(rows + [x], t, today)
         == DueIndices(rows, t, today) + (if IsDue(x, t, today) then [|rows|] else [])
  {
    assert (rows + [x])[..|rows|] == rows;
  }

  lemma NoneDue(rows: seq<Row>, t: TrackId, today: Date)
    requires forall i :: 0 <= i < |rows| ==> !IsDue(rows[i], t, today)
    ensures DueIndices(rows, t, today) == []
  {
  }

  /**
   * Marking a track's due rows 'Yes' leaves none of them due on that track,
   * and leaves the other track's selection as it was.
   */
  lemma MarkedNotDue(rows: seq<Row>, t: TrackId, today: Date)
    ensures DueIndices(Marked(rows, t, DueIndices(rows, t, today)), t, today) == []
    ensures DueIndices(Marked(rows, t, DueIndices(rows, t, today)), Other(t), today)
         == DueIndices(rows, Other(t), today)
  {
    var idx := DueIndices(rows, t, today);
    var r := Marked(rows, t, idx);
    forall i | 0 <= i < |r| ensures !IsDue(r[i], t, today) {
      if i in idx {
        assert TrackOf(r[i], t).sent == Yes;
      } else {
        assert !IsDue(rows[i], t, today);
        assert TrackOf(r[i], t) == TrackOf(rows[i], t);
      }
    }
    NoneDue(r, t, today);
    forall i | 0 <= i < |r| ensures IsDue(r[i], Other(t), today) <==> IsDue(rows[i], Other(t), today) {
      assert TrackOf(r[i], Other(t)) == TrackOf(rows[i], Other(t));
    }
    DueIndicesDependOnDueRows(r, rows, Other(t), today);
  }

  /** Once a sweep has marked its rows, a second sweep on the same day finds nothing. */
  lemma SweepIsIdempotent(rows: seq<Row>, today: Date)
    ensures DueIndices(SweptRows(rows, today), TRTR, today) == []
    ensures DueIndices(SweptRows(rows, today), MNTT, today) == []
    ensures DueMessages(SweptRows(rows, today), today) == []
  {
    var mid := Marked(rows, TRTR, DueIndices(rows, TRTR, today));
    MarkedNotDue(rows, TRTR, today);
    assert DueIndices(mid, MNTT, today) == DueIndices(rows, MNTT, today);
    MarkedNotDue(mid, MNTT, today);
    assert Other(MNTT) == TRTR;
  }

  /**
   * The sweep changes only the flags it selected: each due track becomes
   * 'Yes'; gear names, dates, next-open cells and every other flag stay.
   */
  lemma SweepFrame(rows: seq<Row>, today: Date)
    ensures |SweptRows(rows, today)| == |rows|
    ensures forall i, t :: 0 <= i < |rows| ==>
      var before := TrackOf(rows[i], t);
      var after := TrackOf(SweptRows(rows, today)[i], t);
      SweptRows(rows, today)[i].gear == rows[i].gear
      && after.date == before.date && after.next == before.next
      && after.sent == (if IsDue(rows[i], t, today) then Yes else before.sent)
  {
    var tr := DueIndices(rows, TRTR, today);
    var mn := DueIndices(rows, MNTT, today);
    var mid := Marked(rows, TRTR, tr);
    var r := Marked(mid, MNTT, mn);
    forall i, t | 0 <= i < |rows|
      ensures r[i].gear == rows[i].gear
      ensures TrackOf(r[i], t).date == TrackOf(rows[i], t).date
      ensures TrackOf(r[i], t).next == TrackOf(rows[i], t).next
      ensures TrackOf(r[i], t).sent == (if IsDue(rows[i], t, today) then Yes else TrackOf(rows[i], t).sent)
    {
      assert Other(TRTR) == MNTT && Other(MNTT) == TRTR;
    }
  }

  /**
   * After a track is marked opened on `d`, each row of that gear is due on
   * that track exactly on `d + 14 days` (so never on `d` itself), and its
   * other track is due exactly when it was before.
   */
  lemma OpenedDueExactlyOnNextOpen(rows: seq<Row>, t: TrackId, gear: string, d: Date, today: Date)
    requires InRange(d) && OpenedTrack(d).Some?
    ensures var r := Upsert(rows, t, gear, OpenedTrack(d).value);
      forall i :: 0 <= i < |r| && r[i].gear == gear ==>
        (IsDue(r[i], t, today) <==> AddDays(d, INTERVAL) == Some(today))
        && !IsDue(r[i], t, d)
        && (i < |rows| ==> (IsDue(r[i], Other(t), today) <==> IsDue(rows[i], Other(t), today)))
        && (i == |rows| ==> !IsDue(r[i], Other(t), today))
  {
    var tr := OpenedTrack(d).value;
    var r := Upsert(rows, t, gear, tr);
    var n := AddDays(d, INTERVAL).value;
    assert Before(d, n);
    assert tr.next != "" by {
      assert Parse("") == None;
    }
    forall i | 0 <= i < |r| && r[i].gear == gear
      ensures IsDue(r[i], t, today) <==> AddDays(d, INTERVAL) == Some(today)
      ensures !IsDue(r[i], t, d)
    {
      assert TrackOf(r[i], t) == tr;
    }
  }

  /** A newly added gear is never selected: the sweep over the table is unchanged. */
  lemma AddedGearNeverDue(rows: seq<Row>, name: string, t: TrackId, today: Date)
    ensures DueIndices(rows + [BlankRow(name)], t, today) == DueIndices(rows, t, today)
  {
    DueIndicesAppend(rows, BlankRow(name), t, today);
    assert !IsDue(BlankRow(name), t, today);
  }

  lemma MessagesPrefix(rows: seq<Row>, extra: seq<Row>, t: TrackId, idx: seq<nat>)
    requires forall k :: 0 <= k < |idx| ==> idx[k] < |rows|
    ensures Messages(rows + extra, t, idx) == Messages(rows, t, idx)
  {
    var a := Messages(rows + extra, t, idx);
    var b := Messages(rows, t, idx);
    forall k | 0 <= k < |idx| ensures a[k] == b[k] {
      assert (rows + extra)[idx[k]] == rows[idx[k]];
    }
  }

  lemma MessagesSnoc(rows: seq<Row>, t: TrackId, idx: seq<nat>, j: nat)
    requires forall k :: 0 <= k < |idx| ==> idx[k] < |rows|
    requires j < |rows|
    ensures Messages(rows, t, idx + [j]) == Messages(rows, t, idx) + [MessageFor(rows[j], t)]
  {
    var a := Messages(rows, t, idx + [j]);
    var b := Messages(rows, t, idx) + [MessageFor(rows[j], t)];
    assert |a| == |b|;
    forall k | 0 <= k < |a| ensures a[k] == b[k] {
      if k < |idx| {
        assert (idx + [j])[k] == idx[k];
      }
    }
  }

  /** Appending a row adds its line to the end of that track's lines exactly when it is due. */
  lemma MessagesAppend(rows: seq<Row>, x: Row, t: TrackId, today: Date)
    ensures Messages(rows + [x], t, DueIndices(rows + [x], t, today))
         == Messages(rows, t, DueIndices(rows, t, today)) + (if IsDue(x, t, today) then [MessageFor(x, t)] else [])
  {
    var idx := DueIndices(rows, t, today);
    DueIndicesAppend(rows, x, t, today);
    MessagesPrefix(rows, [x], t, idx);
    if IsDue(x, t, today) {
      MessagesSnoc(rows + [x], t, idx, |rows|);
      assert (rows + [x])[|rows|] == x;
    }
  }

  /** Each of the two sample rows is due today on its own track and only there. */
  lemma TodayDueSampleRowsDue(today: Date)
    requires InRange(today) && TodayDueSample(today).Some?
    ensures var s := TodayDueSample(today).value;
      IsDue(s[0], TRTR, today) && !IsDue(s[0], MNTT, today)
      && IsDue(s[1], MNTT, today) && !IsDue(s[1], TRTR, today)
      && MessageFor(s[0], TRTR) == Message("SAMPLE TRTR DUE", TRTR, Format(today))
      && MessageFor(s[1], MNTT) == Message("SAMPLE MNTT DUE", MNTT, Format(today))
  {
    ParseFormat(today);
    assert Parse("") == None;
  }

  /** The line a sample row contributes to track `t`: the sample row of that track. */
  function SampleLine(t: TrackId, today: Date): string
    requires InRange(today)
  {
    match t
    case TRTR => Message("SAMPLE TRTR DUE", TRTR, Format(today))
    case MNTT => Message("SAMPLE MNTT DUE", MNTT, Format(today))
  }

  /** On one track, the two sample rows add exactly that track's sample line. */
  lemma SampleTrackLines(rows: seq<Row>, t: TrackId, today: Date)
    requires InRange(today) && TodayDueSample(today).Some?
    ensures var s := TodayDueSample(today).value;
      Messages(rows + s, t, DueIndices(rows + s, t, today))
      == Messages(rows, t, DueIndices(rows, t, today)) + [SampleLine(t, today)]
  {
    var s := TodayDueSample(today).value;
    var x, y := s[0], s[1];
    TodayDueSampleRowsDue(today);
    assert rows + s == (rows + [x]) + [y];
    var before := Messages(rows, t, DueIndices(rows, t, today));
    var mid := Messages(rows + [x], t, DueIndices(rows + [x], t, today));
    MessagesAppend(rows, x, t, today);
    MessagesAppend(rows + [x], y, t, today);
    if t == TRTR {
      assert IsDue(x, t, today) && !IsDue(y, t, today);
      assert mid == before + [SampleLine(t, today)];
    } else {
      assert !IsDue(x, t, today) && IsDue(y, t, today);
      assert mid == before;
    }
  }

  /**
   * After `add_today_due_sample`, the sweep reports what it reported before
   * plus one line per sample row: "SAMPLE TRTR DUE" last among the TRTR lines
   * and "SAMPLE MNTT DUE" last among the MNTT lines, both with next open today.
   */
  lemma TodayDueSampleIsDue(rows: seq<Row>, today: Date)
    requires InRange(today) && TodayDueSample(today).Some?
    ensures var s := TodayDueSample(today).value;
      DueMessages(rows + s, today)
      == Messages(rows, TRTR, DueIndices(rows, TRTR, today))
         + [Message("SAMPLE TRTR DUE", TRTR, Format(today))]
         + Messages(rows, MNTT, DueIndices(rows, MNTT, today))
         + [Message("SAMPLE MNTT DUE", MNTT, Format(today))]
  {
    SampleTrackLines(rows, TRTR, today);
    SampleTrackLines(rows, MNTT, today);
  }
}
