/**
 * The unattended checker: one run loads the table, collects the lines due
 * today, hands one email to the mail transport when there are any, marks the
 * selected flags 'Yes' and saves. The transport's outcome is not observed:
 * the flags are marked whether or not the email went out.
 */
module Checker {
  import opened Options
  import opened Calendar
  import opened GearTable
  import opened Reminders

  /**
   * `get_due_reminders`: the lines due today, TRTR lines first, and the
   * indices of the selected TRTR and MNTT rows. Reads the table only.
   */
  method GetDueReminders(rows: seq<Row>, today: Date) returns (due: seq<string>, trtrIdx: seq<nat>, mnttIdx: seq<nat>)
    ensures trtrIdx == DueIndices(rows, TRTR, today) && mnttIdx == DueIndices(rows, MNTT, today)
    ensures due == DueMessages(rows, today)
    ensures |due| == |trtrIdx| + |mnttIdx|
    ensures forall i :: 0 <= i < |rows| ==>
      (i in trtrIdx <==> IsDue(rows[i], TRTR, today)) && (i in mnttIdx <==> IsDue(rows[i], MNTT, today))
    ensures forall k :: 0 <= k < |trtrIdx| ==> due[k] == MessageFor(rows[trtrIdx[k]], TRTR)
    ensures forall k :: 0 <= k < |mnttIdx| ==> due[|trtrIdx| + k] == MessageFor(rows[mnttIdx[k]], MNTT)
  {
    trtrIdx := DueIndices(rows, TRTR, today);
    var trtrLines := CollectMessages(rows, TRTR, trtrIdx);
    mnttIdx := DueIndices(rows, MNTT, today);
    var mnttLines := CollectMessages(rows, MNTT, mnttIdx);
    due := trtrLines + mnttLines;
  }

  /**
   * `main`: `email` is what goes to the transport, `saved` whether the sheet
   * is written back. Nothing due: no email, no write, table unchanged.
   */
  method RunCheck(table: Table, today: Date) returns (email: Option<Email>, saved: bool)
    modifies table
    ensures email == ReminderEmail(DueMessages(old(table.rows), today))
    ensures saved <==> email.Some?
    ensures !saved ==> table.rows == old(table.rows)
    ensures saved ==> table.rows == SweptRows(old(table.rows), today)
    ensures DueMessages(table.rows, today) == []
    ensures Consistent(old(table.rows)) ==> Consistent(table.rows)
  {
    var frame := table.rows;
    var due, trtrIdx, mnttIdx := GetDueReminders(frame, today);
    email := ReminderEmail(due);
    saved := false;
    if |due| > 0 {
      MarkedNone(frame, TRTR);
      if |trtrIdx| > 0 {
        table.MarkSent(TRTR, trtrIdx);
      }
      MarkedNone(table.rows, MNTT);
      if |mnttIdx| > 0 {
        table.MarkSent(MNTT, mnttIdx);
      }
      SweepIsIdempotent(frame, today);
      saved := true;
    }
  }
}
