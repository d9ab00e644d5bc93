/**
 * The load-reminder page: sections of rows (load number, timer end,
 * blinking flag) persisted per section under `section-<index>`, the
 * once-per-second timer check, the add/edit/delete row actions and the
 * first-load sample data.
 *
 * Storage holds decoded section records; JSON text, the date and time
 * conversion of the timer dialog and the browser's colour normalisation
 * are outside the model, so a timer end is a millisecond `int` and a
 * colour an opaque string.
 */
module Reminder {
  import opened Wrappers
  import opened Text
  import opened Countdown

  /** One table row as saved: `{loadNumber, timerEnd, isBlinking}`. */
  datatype Row = Row(loadNumber: string, timerEnd: int, isBlinking: bool)

  /** A saved section record; a missing record reads as all fields absent. */
  datatype SectionData = SectionData(title: Option<string>, headerColor: Option<string>, rows: Option<seq<Row>>)

  type Store = map<string, SectionData>

  /** The storage key of the section at position `id` on the page. */
  function SectionKey(id: nat): (k: string)
    ensures |k| > 8 && k[..8] == "section-" && k[8..] == DecimalString(id)
  {
    "section-" + DecimalString(id)
  }

  /** Distinct sections use distinct keys, so saving one never touches another. */
  lemma SectionKeyInjective(i: nat, j: nat)
    requires SectionKey(i) == SectionKey(j)
    ensures i == j
  {
    assert SectionKey(i)[8..] == SectionKey(j)[8..];
    DecimalRoundTrip(i);
    DecimalRoundTrip(j);
  }

  /** The record a section reads back at set-up (`JSON.parse(null) || {}` when absent). */
  function Saved(store: Store, id: nat): (r: SectionData)
    ensures SectionKey(id) in store ==> r == store[SectionKey(id)]
    ensures SectionKey(id) !in store ==> !Truthy(r.title) && !Truthy(r.headerColor) && r.rows.None?
  {
    if SectionKey(id) in store then store[SectionKey(id)] else SectionData(None, None, None)
  }

  /** The first-load sample: one load due two hours after `now`. */
  function SampleSection(now: int): (r: SectionData)
    ensures r.rows.Some? && |r.rows.value| == 1
    ensures r.rows.value[0].timerEnd - now == 7200000 && !r.rows.value[0].isBlinking
    ensures Truthy(r.title) && Truthy(r.headerColor)
  {
    SectionData(Some("Urgent Loads"), Some("#ffe6e6"), Some([Row("30000180999", now + 2 * 60 * 60 * 1000, false)]))
  }

  /**
   * `initializeSections`: writes the sample under `section-0` only when
   * that key is absent.
   */
  function InitializeSections(store: Store, now: int): (r: Store)
    ensures forall k | k in store :: k in r && r[k] == store[k]
    ensures r.Keys == store.Keys + {SectionKey(0)}
    ensures SectionKey(0) !in store ==> r[SectionKey(0)] == SampleSection(now)
  {
    if SectionKey(0) in store then store else store[SectionKey(0) := SampleSection(now)]
  }

  /** The sample row starts two hours out: `02:00:00`, neither due nor blinking. */
  lemma SampleStartsPending(now: int)
    ensures var row := SampleSection(now).rows.value[0];
            Cell(row, now) == Display("02:00:00", false) && !Blinking(row.timerEnd, now)
  {
    var row := SampleSection(now).rows.value[0];
    assert row.timerEnd - now == 7200000;
    TwoHoursText();
    assert CellText(row.timerEnd, now) == CountdownText(Split(7200));
  }

  /** Running the first-load seeding again, at any time, changes nothing. */
  lemma InitializeIdempotent(store: Store, first: int, later: int)
    ensures InitializeSections(InitializeSections(store, first), later) == InitializeSections(store, first)
  {
  }

  /** What the timer dialog's confirm requires: load number, date and time all filled in. */
  predicate FormComplete(loadNumber: string, date: string, time: string): (b: bool)
    ensures b <==> |loadNumber| > 0 && |date| > 0 && |time| > 0
  {
    loadNumber != "" && date != "" && time != ""
  }

  /** A row after `checkTimers`: blinking exactly when its timer end is not after `now`. */
  function Refreshed(r: Row, now: int): (r': Row)
    ensures r'.loadNumber == r.loadNumber && r'.timerEnd == r.timerEnd
    ensures r'.isBlinking <==> r.timerEnd <= now
  {
    r.(isBlinking := Blinking(r.timerEnd, now))
  }

  /** The countdown cell of a row at clock `now`. */
  function Cell(r: Row, now: int): Display
  {
    TimerDisplay(r.timerEnd, now)
  }

  /** The rows after `checkTimers`, in order. */
  function CheckedRows(rows: seq<Row>, now: int): (r: seq<Row>)
    ensures |r| == |rows|
  {
    if rows == [] then [] else CheckedRows(rows[..|rows| - 1], now) + [Refreshed(rows[|rows| - 1], now)]
  }

  /** Row `i` after `checkTimers` keeps its load number and timer end and blinks exactly when it is due. */
  lemma {:induction false} CheckedRowsAt(rows: seq<Row>, now: int, i: nat)
    requires i < |rows|
    ensures CheckedRows(rows, now)[i] == rows[i].(isBlinking := rows[i].timerEnd <= now)
  {
    if i < |rows| - 1 {
      CheckedRowsAt(rows[..|rows| - 1], now, i);
    }
  }

  /** The countdown cells of `rows`, in order. */
  function Cells(rows: seq<Row>, now: int): (d: seq<Display>)
    ensures |d| == |rows|
  {
    if rows == [] then [] else Cells(rows[..|rows| - 1], now) + [Cell(rows[|rows| - 1], now)]
  }

  /** Cell `i` of `Cells(rows, now)` is the countdown of row `i`. */
  lemma {:induction false} CellsAt(rows: seq<Row>, now: int, i: nat)
    requires i < |rows|
    ensures Cells(rows, now)[i] == TimerDisplay(rows[i].timerEnd, now)
  {
    if i < |rows| - 1 {
      CellsAt(rows[..|rows| - 1], now, i);
    }
  }

  /**
   * The loop of `checkTimers` over a table: each row's countdown cell is
   * refreshed and its blinking class set from its timer end.
   */
  method CheckRows(before: seq<Row>, now: int) returns (after: seq<Row>, displays: seq<Display>)
    ensures after == CheckedRows(before, now)
    ensures displays == Cells(before, now)
  {
    after := [];
    displays := [];
    var i := 0;
    while i < |before|
      invariant 0 <= i <= |before|
      invariant after == CheckedRows(before[..i], now)
      invariant displays == Cells(before[..i], now)
    {
      var r := before[i];
      assert before[..i + 1][..i] == before[..i];
      displays := displays + [Cell(r, now)];
      after := after + [Refreshed(r, now)];
      i := i + 1;
    }
    assert before[..i] == before;
  }

  /** One section of the page: its title input, header colour and table rows. */
  class Section {
    const id: nat
    var title: string
    var headerColor: string
    var rows: seq<Row>

    /** A section as the page markup has it: the default title, no colour, no rows. */
    constructor(id: nat, defaultTitle: string)
      ensures this.id == id && title == defaultTitle && headerColor == "" && rows == []
    {
      this.id := id;
      title := defaultTitle;
      headerColor := "";
      rows := [];
    }

    /**
     * `setupSection`: restores the saved title and colour when they are
     * truthy and appends the saved rows, in order, with their values.
     */
    method Setup(store: Store)
      modifies this
      ensures var saved := Saved(store, id);
              && title == (if Truthy(saved.title) then saved.title.value else old(title))
              && headerColor == (if Truthy(saved.headerColor) then saved.headerColor.value else old(headerColor))
              && rows == old(rows) + saved.rows.GetOr([])
    {
      var saved := Saved(store, id);
      if Truthy(saved.title) {
        title := saved.title.value;
      }
      if Truthy(saved.headerColor) {
        headerColor := saved.headerColor.value;
      }
      var incoming := saved.rows.GetOr([]);
      var i := 0;
      while i < |incoming|
        invariant 0 <= i <= |incoming|
        invariant rows == old(rows) + incoming[..i]
        invariant title == (if Truthy(saved.title) then saved.title.value else old(title))
        invariant headerColor == (if Truthy(saved.headerColor) then saved.headerColor.value else old(headerColor))
      {
        var r := incoming[i];
        rows := rows + [Row(r.loadNumber, r.timerEnd, r.isBlinking)];
        i := i + 1;
      }
      assert incoming[..i] == incoming;
    }

    /**
     * `saveSectionData`: the store with this section's record replaced by
     * its title, colour and rows, each row copied field by field in order.
     */
    method Save(store: Store) returns (saved: Store)
      ensures saved == store[SectionKey(id) := SectionData(Some(title), Some(headerColor), Some(rows))]
    {
      var out: seq<Row> := [];
      var i := 0;
      while i < |rows|
        invariant 0 <= i <= |rows|
        invariant out == rows[..i]
      {
        out := out + [Row(rows[i].loadNumber, rows[i].timerEnd, rows[i].isBlinking)];
        i := i + 1;
      }
      assert rows[..i] == rows;
      saved := store[SectionKey(id) := SectionData(Some(title), Some(headerColor), Some(out))];
    }

    /**
     * `checkTimers` over this section: every row blinks exactly when its
     * timer end is not after `now`; `displays` are the refreshed countdown
     * cells, one per row in order.
     */
    method CheckTimers(now: int) returns (displays: seq<Display>)
      modifies this
      ensures rows == CheckedRows(old(rows), now)
      ensures displays == Cells(old(rows), now)
      ensures title == old(title) && headerColor == old(headerColor)
    {
      var refreshed;
      refreshed, displays := CheckRows(rows, now);
      rows := refreshed;
    }

    /**
     * The add-row dialog's confirm: with every field filled in, appends a
     * non-blinking row with the converted timer end and saves; otherwise
     * nothing changes.
     */
    method ConfirmAdd(store: Store, loadNumber: string, date: string, time: string, timerEnd: int)
      returns (accepted: bool, saved: Store)
      modifies this
      ensures accepted <==> FormComplete(loadNumber, date, time)
      ensures !accepted ==> rows == old(rows) && saved == store
      ensures accepted ==>
                && rows == old(rows) + [Row(loadNumber, timerEnd, false)]
                && saved == store[SectionKey(id) := SectionData(Some(title), Some(headerColor), Some(rows))]
      ensures title == old(title) && headerColor == old(headerColor)
    {
      accepted := FormComplete(loadNumber, date, time);
      if !accepted {
        saved := store;
        return;
      }
      rows := rows + [Row(loadNumber, timerEnd, false)];
      saved := Save(store);
    }

    /**
     * The edit dialog's confirm on row `i`: with every field filled in,
     * replaces its load number and timer end, makes it blink exactly when
     * the new end is not after `now`, and saves; otherwise nothing changes.
     */
    method ConfirmEdit(store: Store, i: nat, loadNumber: string, date: string, time: string,
                       timerEnd: int, now: int)
      returns (accepted: bool, saved: Store)
      requires i < |rows|
      modifies this
      ensures accepted <==> FormComplete(loadNumber, date, time)
      ensures !accepted ==> rows == old(rows) && saved == store
      ensures accepted ==>
                && rows == old(rows)[i := Row(loadNumber, timerEnd, Blinking(timerEnd, now))]
                && saved == store[SectionKey(id) := SectionData(Some(title), Some(headerColor), Some(rows))]
      ensures title == old(title) && headerColor == old(headerColor)
    {
      accepted := FormComplete(loadNumber, date, time);
      if !accepted {
        saved := store;
        return;
      }
      rows := rows[i := Row(loadNumber, timerEnd, timerEnd <= now)];
      saved := Save(store);
    }

    /** The delete button of row `i`: removes that row, keeps the others in order, and saves. */
    method DeleteRow(store: Store, i: nat) returns (saved: Store)
      requires i < |rows|
      modifies this
      ensures rows == old(rows)[..i] + old(rows)[i + 1..]
      ensures saved == store[SectionKey(id) := SectionData(Some(title), Some(headerColor), Some(rows))]
      ensures title == old(title) && headerColor == old(headerColor)
    {
      rows := rows[..i] + rows[i + 1..];
      saved := Save(store);
    }
  }

  /**
   * Saving a section and setting up the same section afresh after a reload
   * gives back the same rows in the same order, the same colour, and the
   * title unless it was empty (then the markup's default stays).
   */
  method ReloadRoundTrip(sec: Section, store: Store, defaultTitle: string) returns (reloaded: Section)
    ensures reloaded.rows == sec.rows && reloaded.headerColor == sec.headerColor
    ensures reloaded.title == if sec.title != "" then sec.title else defaultTitle
  {
    var saved := sec.Save(store);
    reloaded := new Section(sec.id, defaultTitle);
    reloaded.Setup(saved);
  }
}
