# Gear reminder table — a Dafny model

This project models the core of a small maintenance-reminder tool. The tool keeps a
table with one row per piece of equipment (a "gear"). Each row has two independent
maintenance tracks, TRTR and MNTT. Each track holds three cells: the date it was last
opened, the next-open date (opened date + 14 days), and a reminder flag that is
blank, `'No'` or `'Yes'`.

Two programs act on the table:

- the interactive page (`app.py`) adds gears, marks a track opened, and runs a
  reminder sweep every time it renders;
- the unattended checker (`send_reminders.py`) collects the reminders due today,
  emails them, marks them sent and saves.

The model proves what these operations do to the table. It covers which rows a sweep
selects, the exact reminder lines and their order, that nothing else changes, that a
second sweep on the same day selects nothing, and that the next-open date stays
14 days after the opened date.

Modules, one per component:

- `Options` (`options.dfy`): the `Option` type used for blank or unparseable cells.
- `Calendar` (`calendar.dfy`): Gregorian days as Python's `datetime.date` holds them
  (years 1 to 9999). It covers adding and subtracting days (`None` stands for
  `OverflowError`), the `YYYY-MM-DD` text form, and a strict ISO parser standing for
  `pd.to_datetime(..., errors='coerce')`. The text form and the parser are proved
  inverse in both directions.
- `GearTable` (`gear_table.dfy`): the row, track and flag datatypes and the schema's
  columns. It holds the pure updates (`Upsert`, `Marked`, `TodayDueSample`), the gear
  list, the "next open = date + 14" invariant (`Consistent`), and the class `Table`.
  Under the invariant, each track's next-open cell parses to exactly the day 14 days
  after the day its date cell parses to. When the date cell holds no day, the
  next-open cell holds none either. `Table` stands for the in-memory DataFrame, and
  its methods change it in place.
- `Reminders` (`reminders.dfy`): the due-today selection and the reminder lines. It
  also has the email body (newline join, with a proved split round trip) and the
  lemmas that relate marking to the next sweep.
- `App` (`app.dfy`): the page's render-time sweep, `migrate_excel`'s row
  transformation and `populate_sample_data`.
- `Checker` (`checker.dfy`): `get_due_reminders` and `main`.

Cells are text. A blank cell `""` stands for an empty string and also for pandas'
NaN and NaT. "Today" is always a parameter. The table is the in-memory sequence
between one load and one save.

The model follows the code where it differs from the design:

- The page sets the flags to `'Yes'` while it renders, before any email is sent
  (`app.py:251`, `app.py:259`). The email button does not read or change flags.
- The checker's `main` marks the flags whatever happened to the email.
  `send_email` returns nothing and swallows its errors (`send_reminders.py:44-50`,
  `84-90`). The design says flags are marked only after a successful send; the
  code does not do this, and `Checker.RunCheck` models the code.
- Re-marking a track always resets its flag to `'No'`, even when the date did not
  change (`app.py:205`, `app.py:227`).
- The design says gear names are unique. The page keeps this: adding a gear and
  marking a track opened never create a second row with the same name
  (`GearTable.UpsertKeepsUnique`, `GearTable.AddGearKeepsUnique`). The checker does
  not keep it: every run of `send_reminders.py` appends the two sample rows again
  before it checks (`send_reminders.py:94-96`). From the second run on, two rows are
  named `SAMPLE TRTR DUE` (`GearTable.SampleTwiceRepeatsGears`).

## Model

| member | source | states |
|---|---|---|
| `Calendar.AddDays` | app.py:200 | `d + timedelta(days=n)` is in range and, for n > 0, strictly later than `d`; it is undefined (OverflowError) exactly when the sum passes year 9999 |
| `Calendar.SubtractDays` | app.py:137 | `today - 14 days` is defined exactly when the result is not before year 1; it is then a valid day, and adding 14 days back gives `today` |
| `Calendar.LaterUndoesEarlier` | send_reminders.py:59-60 | going back n days and forward n days returns the same day, so the sample's "date = today-14" has "next = today" |
| `Calendar.LaterIsLater` | app.py:200 | adding n > 0 days yields a valid, strictly later day |
| `Calendar.LaterInMonth` | app.py:102 | adding days within one month only advances the day of the month |
| `Calendar.LaterYears` | app.py:200 | adding n days moves the year forward by at most n |
| `Calendar.EarlierYears` | app.py:137 | going back n days moves the year back by at most n |
| `Calendar.LaterInjective` | app.py:200 | two different days stay different n days later |
| `Calendar.AddDaysDefined` | app.py:200 | `d + timedelta(days=n)` is defined whenever d's year plus n is at most 9999 |
| `Calendar.SubtractDaysDefined` | app.py:137 | `d - timedelta(days=n)` is defined whenever d's year minus n is at least 1 |
| `Calendar.Format` | app.py:102 | `strftime('%Y-%m-%d')` is ten characters: four year digits, `-`, two month digits, `-`, two day digits, spelling exactly the day's year, month and day |
| `Calendar.ParseFormat` | app.py:242 | a date written as `YYYY-MM-DD` parses back to the same date |
| `Calendar.FormatParse` | app.py:242 | any text that parses is exactly the `YYYY-MM-DD` form of the parsed date |
| `Calendar.ParseIff` | app.py:242 | a text parses to day d if and only if it is d's `YYYY-MM-DD` form |
| `Calendar.Parse` | send_reminders.py:29 | coerced parsing never yields an invalid or out-of-range day; blank and malformed text yield none |
| `GearTable.NextOpen` | app.py:49-50 | coerced parse plus 14 days: none for a blank or unparseable cell; otherwise defined exactly when the sum stays within year 9999, and then a valid day strictly after the cell's day |
| `GearTable.NextOpenUndone` | app.py:100-103 | going back 14 days from a cell's next-open day gives the cell's own day |
| `GearTable.Gears` | app.py:172 | the gear list has no duplicates and holds exactly the non-blank names in the table |
| `GearTable.AddGearExtendsGears` | app.py:186-188 | adding a new gear appends exactly its name to the gear list |
| `GearTable.Table.AddGear` | app.py:173-189 | a non-empty name not in the table is appended as one row with all six date/flag cells blank; an empty or existing name leaves the table unchanged; unique gear names stay unique |
| `GearTable.OpenedTrack` | app.py:200-205 | the opened cells parse back to d and to d + 14 days, and the flag is `'No'`; none when d + 14 overflows |
| `GearTable.Upsert` | app.py:199-215 | for an existing name, every row with that name gets the new track cells and keeps its other track; all other rows are unchanged. For an absent name, exactly one row is appended, with the other track blank |
| `GearTable.Table.MarkOpened` | app.py:198-239 | the table becomes the upsert of the opened cells; on overflow it is unchanged; the 14-day invariant and the uniqueness of gear names are preserved |
| `GearTable.UpsertKeepsUnique` | app.py:198-215 | when no two rows share a gear name, marking a track opened keeps it so: existing names are updated in place and a new name is appended only when absent |
| `GearTable.AddGearKeepsUnique` | app.py:176-186 | appending a gear that is absent keeps gear names unique |
| `GearTable.SampleTwiceRepeatsGears` | send_reminders.py:94-96 | appending the today-due sample twice, as two checker runs do, leaves two rows with the same gear name |
| `GearTable.OpenedTrackDefined` | app.py:200 | marking a track opened succeeds on every day up to the year 9985 |
| `GearTable.UpsertConsistent` | app.py:221-237 | an upsert with consistent cells keeps the invariant: every track's next-open cell holds exactly its date + 14 days, or no day when the date cell holds none |
| `GearTable.Marked` | app.py:251 | setting a track's flag to `'Yes'` at the given rows changes that flag there and nothing else |
| `GearTable.MarkedNone` | send_reminders.py:86-89 | marking no rows leaves the table as it was |
| `GearTable.MarkedConsistent` | app.py:259 | marking flags keeps the invariant that each next-open cell holds exactly its date + 14 days, or no day when the date cell holds none |
| `GearTable.Table.MarkSent` | send_reminders.py:86-89 | the table becomes the marked table |
| `GearTable.TodayDueSample` | app.py:134-153 | two rows, `SAMPLE TRTR DUE` and `SAMPLE MNTT DUE`. On its own track each has a date cell that parses to today - 14, a next-open cell equal to today's text, and flag `'No'`; its other track is blank. Both keep the invariant. There are none when today - 14 overflows |
| `GearTable.TodayDueSampleDefined` | send_reminders.py:59-60 | the sample exists for every day from year 15 on |
| `GearTable.Table.AddTodayDueSample` | send_reminders.py:52-77 | appends exactly the two sample rows and leaves the existing rows unchanged |
| `Reminders.IsDue` | app.py:242-243 | a track is due today exactly when its flag is not `'Yes'` and its next-open cell is today's `YYYY-MM-DD` text |
| `Reminders.DueIndices` | app.py:242-243 | selects exactly the rows whose next open parses to today and whose flag is not `'Yes'`, in table order, each once |
| `Reminders.DueIndicesDependOnDueRows` | send_reminders.py:33 | the selection depends only on which rows are due for that track |
| `Reminders.DueIndicesAppend` | send_reminders.py:76 | appending a row adds its index to the selection exactly when it is due |
| `Reminders.NoneDue` | send_reminders.py:82 | with no due row the selection is empty |
| `Reminders.Message` | app.py:248 | the line starts with `Gear: <name>`, ends with `(Next Open: <next>)`, and contains a newline exactly when the name or the next-open text does |
| `Reminders.MessageFor` | send_reminders.py:31 | the line for a row starts with its gear name, ends with its track's next-open cell, and holds a newline exactly when one of those does |
| `Reminders.CollectMessages` | app.py:247-250 | one line per selected row, in selection order, of the form `Gear: <name> - <TRACK> needs to be opened today! (Next Open: <next>)` |
| `Reminders.MessagesSnoc` | app.py:255-258 | appending an index appends its row's line |
| `Reminders.MessagesPrefix` | send_reminders.py:30-31 | lines for existing rows do not change when rows are appended |
| `Reminders.MessagesAppend` | send_reminders.py:34-35 | appending a due row adds exactly its line at the end of its track's lines, and appending a non-due row adds none |
| `Reminders.Join` | app.py:265 | `'\n'.join` starts with the first line, and the body has no newline exactly when there is at most one line and it has none |
| `Reminders.SplitJoin` | app.py:265 | splitting the newline-joined body on newlines gives back the lines, when no line contains a newline |
| `Reminders.ReminderEmail` | app.py:262-266 | there is an email exactly when there are lines; its subject is `Gear Reminder - Action Needed Today` and its body splits back into the lines |
| `Reminders.MarkedNotDue` | app.py:251 | after marking a track's due rows, none is due on that track today, and the other track's selection is unchanged |
| `Reminders.SweepIsIdempotent` | app.py:242-259 | after both marks, a second sweep on the same day selects no row on either track and yields no line |
| `Reminders.SweepFrame` | send_reminders.py:86-89 | after the sweep, each due track's flag is `'Yes'`; gear names, dates, next-open cells and all other flags are unchanged |
| `Reminders.OpenedDueExactlyOnNextOpen` | app.py:198-215 | after marking a track opened on d, each row of that gear is due on that track exactly on d + 14 days, never on d. Its other track is due as before, or never for a new row |
| `Reminders.AddedGearNeverDue` | app.py:177-186 | a newly added blank gear is never selected by the sweep |
| `Reminders.TodayDueSampleRowsDue` | send_reminders.py:56-75 | the first sample row is due today on TRTR only and the second on MNTT only, with next open = today |
| `Reminders.SampleTrackLines` | send_reminders.py:56-76 | on each track, appending the two sample rows adds exactly that track's sample line after its existing lines |
| `Reminders.TodayDueSampleIsDue` | send_reminders.py:94-96 | after adding the sample rows, the sweep's lines are the old TRTR lines plus the sample TRTR line, then the old MNTT lines plus the sample MNTT line |
| `App.RenderSweep` | app.py:241-260 | the page's lines are all TRTR lines then all MNTT lines of the loaded table. The table becomes the swept table, where nothing is due today any more |
| `App.MigrateTrack` | app.py:49-58 | the date is copied; next open parses to date + 14 or is blank; the flag is `'No'` for a non-blank date (parseable or not) and blank for a blank date |
| `App.MigrateRow` | app.py:44-58 | Gear is copied and both tracks follow the migration rule; the row keeps the 14-day invariant |
| `App.MigrateAll` | app.py:43-58 | the `iterrows` loop: one migrated row per legacy row, in order; the result keeps the invariant |
| `App.MigrateRows` | app.py:37-59 | no migration when the column set equals the schema's; otherwise one migrated row per input row, in order, with Gear and both dates copied; the result keeps the invariant |
| `App.SampleTrack` | app.py:100-111 | next open parses to date + 14 or is blank when the date does not parse; the flag is `'No'` exactly when next open is non-empty |
| `App.BuildSampleRows` | app.py:98-113 | one sample row per entry, in order, each track built by the sample rule; the result keeps the invariant |
| `App.SampleLcGates` | app.py:89 | the `'DATES'` entry gets a blank next open and a blank flag |
| `App.SampleDays` | app.py:102 | 2025-06-09 and 2025-06-23 are written as `2025-06-09` and `2025-06-23` |
| `App.SampleFirstEntry` | app.py:73 | the entry dated 2025-06-09 gets next open 2025-06-23 and flag `'No'` |
| `Checker.GetDueReminders` | send_reminders.py:25-36 | returns one line per selected row, so the number of lines equals the number of TRTR plus MNTT indices, with TRTR lines first. The indices are exactly the rows due today on each track. It reads the table only |
| `Checker.RunCheck` | send_reminders.py:79-92 | when nothing is due there is no email, no save and no change. Otherwise the email holds all due lines and the table becomes the swept table; nothing is due afterwards, whatever the send outcome |

## Left out

- The Streamlit page itself (widgets, buttons, messages, rendering of the table). Only the table logic inside the handlers is modelled.
- Excel file I/O: `load_data`, `save_data`, `init_excel`, `os.path.exists`, and the reinitialisation after a read error in `load_data` and `migrate_excel`, including its two fallback sample rows. The table is an in-memory sequence between one load and one save; `Checker.RunCheck`'s `saved` says whether a save happens.
- The order in which the page runs migration and sample population before loading at start-up. This is script sequencing around files.
- SMTP transport and credentials. The email is an output value. `send_email`'s outcome is not modelled, because neither the page's flags nor `main`'s flags depend on it.
- pandas parsing beyond strict `YYYY-MM-DD`: other formats `pd.to_datetime` would accept are treated as unparseable.
- pandas' Timestamp range (1677-09-21 to 2262-04-11) is not modelled. Dates parse and add over Python's date range, years 1 to 9999, and a sum past 9999-12-31 counts as no date.
- Cell types after an Excel round trip: a date read back as a Timestamp prints with a time suffix in a reminder line. The opened handlers write `datetime.date` objects and migration writes Timestamps; only the two sample writers write text. The model holds every date cell as the ISO text that a freshly written date prints as.
- Flag values other than blank, `'No'` and `'Yes'`: the code only ever writes these three.
- `GearTable.Gears`: an empty-string gear name and a missing (NaN) gear name are the same blank cell. The dropdown's `None` selection when the list is empty is not modelled.
- `GearTable.Table.AddGear`: assumes a pandas version in which `DataFrame.append` exists. The same holds for the opened handlers and migration.
