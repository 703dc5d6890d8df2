/**
 * The stand-alone demo page (script.js): receipts live in the browser's
 * `localStorage` under the key `receipts`. The submit handler refuses a form
 * without an image, otherwise appends one receipt and writes the whole array
 * back; `?admin=1` in the query string switches the page to a table. The
 * page's `receipts` array and the storage are the fields of `DemoPage`.
 */
module DemoFrontEnd {
  import opened Wrappers
  import opened Text

  /**
   * A stored receipt. `amount` stands for the number `parseFloat` read from
   * the amount field, kept as the text the page prints for it.
   */
  datatype DemoReceipt = DemoReceipt(
    id: int,
    roomNumber: string,
    studyLevel: string,
    studentId: string,
    amount: string,
    transferDate: string,
    notes: string,
    imageData: string)

  /** The values of the form's fields when it is submitted. */
  datatype DemoForm = DemoForm(
    roomNumber: string, studyLevel: string, studentId: string, amount: string,
    transferDate: string, notes: string)

  /** What a submit does: alert and stop, save the receipt, or throw from the storage write. */
  datatype SubmitOutcome = Alerted(message: string) | Saved | Threw(error: string)

  const NoImageAlert: string := "Please select a receipt image."

  /** What `localStorage.setItem` throws when the browser refuses the write (the storage quota is full). */
  const QuotaExceeded: string := "QuotaExceededError"

  /** The `localStorage` key the array is kept under. */
  const StorageKey: string := "receipts"

  /** The query-string switch for the dashboard. */
  const AdminSwitch: string := "admin=1"

  /** `location.search.includes('admin=1')`: the switch occurs somewhere in the query string. */
  function IsAdminMode(search: string): (r: bool)
    ensures r <==> exists i :: OccursAt(search, AdminSwitch, i)
  {
    IncludesIff(search, AdminSwitch);
    Includes(search, AdminSwitch)
  }

  /** `JSON.parse(localStorage.getItem('receipts')) || []`: the stored array, or an empty one if nothing is stored. */
  function Loaded(storage: map<string, seq<DemoReceipt>>): (r: seq<DemoReceipt>)
    ensures StorageKey !in storage ==> r == []
    ensures StorageKey in storage ==> r == storage[StorageKey]
  {
    if StorageKey in storage then storage[StorageKey] else []
  }

  /** What is read back after writing `rs` is `rs`, whatever the storage held. */
  lemma LoadAfterSave(storage: map<string, seq<DemoReceipt>>, rs: seq<DemoReceipt>)
    ensures Loaded(storage[StorageKey := rs]) == rs
  {
  }

  /** The receipt the reader's `onload` builds: the clock reading, the form's values and the image's data URL. */
  function NewReceipt(f: DemoForm, now: int, imageData: string): (r: DemoReceipt)
    ensures r.id == now && r.imageData == imageData && r.amount == f.amount
    ensures r.roomNumber == f.roomNumber && r.studyLevel == f.studyLevel && r.studentId == f.studentId
    ensures r.transferDate == f.transferDate && r.notes == f.notes
  {
    DemoReceipt(now, f.roomNumber, f.studyLevel, f.studentId, f.amount, f.transferDate, f.notes, imageData)
  }

  /** One row of either view: room, level, student ID, amount with the baht sign, raw date and image. */
  datatype DemoRow = DemoRow(room: string, level: string, studentId: string, amount: string, date: string, image: string)

  /** The dashboard table or the mobile list; both show every receipt. */
  datatype DemoView = Table(rows: seq<DemoRow>) | List(items: seq<DemoRow>)

  function RowFor(r: DemoReceipt): DemoRow
  {
    DemoRow(r.roomNumber, r.studyLevel, r.studentId, "\U{0E3F}" + r.amount, r.transferDate, r.imageData)
  }

  /** The page: the in-memory array, the browser's storage, and the mode read from the URL once. */
  class DemoPage {
    var receipts: seq<DemoReceipt>
    var storage: map<string, seq<DemoReceipt>>
    const isAdmin: bool

    /** The array in memory is the one a reload would read back. */
    ghost predicate Valid()
      reads this
    {
      Loaded(storage) == receipts
    }

    /** Page load: the mode from the query string, the array from storage. */
    constructor(search: string, stored: map<string, seq<DemoReceipt>>)
      ensures Valid()
      ensures isAdmin == IsAdminMode(search)
      ensures storage == stored && receipts == Loaded(stored)
    {
      isAdmin := IsAdminMode(search);
      storage := stored;
      receipts := Loaded(stored);
    }

    /**
     * The submit handler, with the reader's `onload` run to completion:
     * without a file it alerts and changes nothing; otherwise it appends the
     * new receipt and writes the array to storage. `storageAccepts` is the
     * browser's decision on that write: when it refuses, `setItem` throws
     * after the push, so the array holds the receipt but the storage does not
     * and a reload loses it.
     */
    method Submit(f: DemoForm, file: Option<string>, now: int, imageData: string, storageAccepts: bool)
      returns (outcome: SubmitOutcome)
      modifies this
      ensures file.None? ==> outcome == Alerted(NoImageAlert) && receipts == old(receipts) && storage == old(storage)
      ensures file.Some? ==>
        && receipts == old(receipts) + [NewReceipt(f, now, imageData)]
        && var last := receipts[|receipts| - 1];
          && last.id == now && last.imageData == imageData && last.amount == f.amount
          && last.roomNumber == f.roomNumber && last.studyLevel == f.studyLevel && last.studentId == f.studentId
          && last.transferDate == f.transferDate && last.notes == f.notes
      ensures file.Some? && storageAccepts ==> outcome == Saved && storage == old(storage)[StorageKey := receipts] && Valid()
      ensures file.Some? && !storageAccepts ==>
        && outcome == Threw(QuotaExceeded) && storage == old(storage)
        && (old(Valid()) ==> Loaded(storage) == receipts[..|receipts| - 1])
    {
      if file.None? {
        return Alerted(NoImageAlert);
      }
      receipts := receipts + [NewReceipt(f, now, imageData)];
      if !storageAccepts {
        return Threw(QuotaExceeded);
      }
      storage := storage[StorageKey := receipts];
      LoadAfterSave(old(storage), receipts);
      outcome := Saved;
    }

    /** `displayReceipts`: one row per receipt, in array order, as a table in admin mode and a list otherwise. */
    method Display() returns (v: DemoView)
      ensures v.Table? <==> isAdmin
      ensures var rows := if v.Table? then v.rows else v.items;
        |rows| == |receipts| && forall i :: 0 <= i < |receipts| ==> rows[i] == RowFor(receipts[i])
    {
      var rows := [];
      for i := 0 to |receipts|
        invariant |rows| == i
        invariant forall t :: 0 <= t < i ==> rows[t] == RowFor(receipts[t])
      {
        rows := rows + [RowFor(receipts[i])];
      }
      v := if isAdmin then Table(rows) else List(rows);
    }
  }
}
