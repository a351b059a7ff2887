/** The dashboard's state: the hosted store's two tables, the session's
    cached copies of them, the load guard that fills the cache, and the save
    button that writes every editor row's paid flag back to the store. */
module Dashboard {
  import opened Records
  import opened Period
  import opened Ledger

  // ---------------------------------------------------------------------
  // The store's fixed-charge table and the save plan

  /** The table after the update `{odendi: paid}` filtered on `id`. An id
      that matches no record changes nothing and creates nothing. */
  function PatchPaid(table: map<int, FixedCharge>, id: int, paid: bool): (r: map<int, FixedCharge>)
    ensures r.Keys == table.Keys
    ensures forall k :: k in table && k != id ==> r[k] == table[k]
    ensures id in table ==> r[id] == table[id].(paid := paid)
  {
    if id in table then table[id := table[id].(paid := paid)] else table
  }

  /** The table after one update per editor row, in row order. No record
      is created or deleted. */
  function SavedTable(table: map<int, FixedCharge>, rows: seq<FixedCharge>): (r: map<int, FixedCharge>)
    ensures r.Keys == table.Keys
    decreases |rows|
  {
    if rows == [] then table
    else
      var last := rows[|rows| - 1];
      PatchPaid(SavedTable(table, rows[..|rows| - 1]), last.id, last.paid)
  }

  /** The paid flag of the last editor row carrying `id`, if any. */
  function LastFlag(rows: seq<FixedCharge>, id: int): (r: Option<bool>)
    ensures r.None? <==> forall j :: 0 <= j < |rows| ==> rows[j].id != id
    ensures r.Some? ==> exists j :: 0 <= j < |rows| && rows[j].id == id && rows[j].paid == r.value &&
                                    forall k :: j < k < |rows| ==> rows[k].id != id
    decreases |rows|
  {
    if rows == [] then None
    else
      var n := |rows| - 1;
      if rows[n].id == id then Some(rows[n].paid)
      else
        var init := rows[..n];
        var r := LastFlag(init, id);
        assert forall j :: 0 <= j < n ==> init[j] == rows[j];
        assert r.Some? ==> exists j :: 0 <= j < |rows| && rows[j].id == id && rows[j].paid == r.value &&
                                       forall k :: j < k < |rows| ==> rows[k].id != id by {
          if r.Some? {
            var j :| 0 <= j < n && init[j].id == id && init[j].paid == r.value &&
                     forall k :: j < k < n ==> init[k].id != id;
            assert forall k :: j < k < |rows| ==> rows[k].id != id;
          }
        }
        r
  }

  /** A stored record with the flag written over it, if there is one. */
  function Flagged(f: FixedCharge, flag: Option<bool>): FixedCharge {
    match flag
    case None => f
    case Some(p) => f.(paid := p)
  }

  predicate DistinctIds(rows: seq<FixedCharge>) {
    forall j, k :: 0 <= j < k < |rows| ==> rows[j].id != rows[k].id
  }

  /** `rows` is what the store returns for its fixed-charge table ordered
      by id: every record once, in ascending id order. */
  ghost predicate IsListing(rows: seq<FixedCharge>, table: map<int, FixedCharge>) {
    && (forall j, k :: 0 <= j < k < |rows| ==> rows[j].id < rows[k].id)
    && (forall j :: 0 <= j < |rows| ==> rows[j].id in table && table[rows[j].id] == rows[j])
    && (forall id :: id in table ==> exists j :: 0 <= j < |rows| && rows[j].id == id)
  }

  /** The editor rows carry the ids of the listing they were made from, in
      the same order; the editor leaves description and amount editable. */
  predicate SameIds(edited: seq<FixedCharge>, listing: seq<FixedCharge>) {
    && |edited| == |listing|
    && forall j :: 0 <= j < |edited| ==> edited[j].id == listing[j].id
  }

  /** What the reload shows after saving `edited` over the records of
      `listing`: the stored records with the editor's paid flags. Only when
      nothing but paid flags was edited is that the editor rows themselves. */
  function ReloadedRows(listing: seq<FixedCharge>, edited: seq<FixedCharge>): (r: seq<FixedCharge>)
    requires |edited| == |listing|
    ensures |r| == |listing|
    ensures forall j :: 0 <= j < |r| ==> r[j] == listing[j].(paid := edited[j].paid)
    ensures OnlyPaidEdited(edited, listing) ==> r == edited
  {
    seq(|listing|, j requires 0 <= j < |listing| => listing[j].(paid := edited[j].paid))
  }

  /** The editor rows differ from the listing they were made from only in
      their paid flags. */
  predicate OnlyPaidEdited(edited: seq<FixedCharge>, listing: seq<FixedCharge>) {
    && |edited| == |listing|
    && forall j :: 0 <= j < |edited| ==> edited[j] == listing[j].(paid := edited[j].paid)
  }

  // ---------------------------------------------------------------------
  // What the save does to the store

  /** Saving keeps the table's ids, and each stored record afterwards is
      the old record with the paid flag of the last editor row for its id
      written over it, or the old record itself when no row has its id. */
  lemma {:induction false} SavedTableAt(table: map<int, FixedCharge>, rows: seq<FixedCharge>)
    ensures SavedTable(table, rows).Keys == table.Keys
    ensures forall id :: id in table ==> SavedTable(table, rows)[id] == Flagged(table[id], LastFlag(rows, id))
    decreases |rows|
  {
    if rows != [] {
      var init := rows[..|rows| - 1];
      SavedTableAt(table, init);
    }
  }

  /** With distinct ids, every editor row whose id is in the store has its
      paid flag stored, and only the paid flag: description and amount
      stay as they were in the store even when the editor changed them. */
  lemma SaveAgreesWithEditor(table: map<int, FixedCharge>, rows: seq<FixedCharge>, i: nat)
    requires DistinctIds(rows)
    requires i < |rows| && rows[i].id in table
    ensures rows[i].id in SavedTable(table, rows)
    ensures SavedTable(table, rows)[rows[i].id] == table[rows[i].id].(paid := rows[i].paid)
  {
    SavedTableAt(table, rows);
    var r := LastFlag(rows, rows[i].id);
    var j :| 0 <= j < |rows| && rows[j].id == rows[i].id && rows[j].paid == r.value;
    assert j == i;
  }

  /** A record whose id no editor row carries is untouched. */
  lemma {:induction false} SaveLeavesOthers(table: map<int, FixedCharge>, rows: seq<FixedCharge>, id: int)
    requires id in table
    requires forall j :: 0 <= j < |rows| ==> rows[j].id != id
    ensures id in SavedTable(table, rows) && SavedTable(table, rows)[id] == table[id]
  {
    SavedTableAt(table, rows);
  }

  /** Pressing save twice with the same editor rows stores what one press
      stores. */
  lemma SaveIdempotent(table: map<int, FixedCharge>, rows: seq<FixedCharge>)
    ensures SavedTable(SavedTable(table, rows), rows) == SavedTable(table, rows)
  {
    var once := SavedTable(table, rows);
    SavedTableAt(table, rows);
    SavedTableAt(once, rows);
    forall id | id in once
      ensures SavedTable(once, rows)[id] == once[id]
    {
    }
  }

  /** Editor rows made from an id-ordered listing carry distinct ids. */
  lemma EditedIdsDistinct(listing: seq<FixedCharge>, edited: seq<FixedCharge>)
    requires forall j, k :: 0 <= j < k < |listing| ==> listing[j].id < listing[k].id
    requires SameIds(edited, listing)
    ensures DistinctIds(edited)
  {
    forall j, k | 0 <= j < k < |edited|
      ensures edited[j].id != edited[k].id
    {
      assert edited[j].id == listing[j].id && edited[k].id == listing[k].id;
    }
  }

  /** After the save, the store holds each editor row exactly as edited. */
  lemma SavedRowsAreEdited(table: map<int, FixedCharge>, listing: seq<FixedCharge>, edited: seq<FixedCharge>)
    requires IsListing(listing, table)
    requires OnlyPaidEdited(edited, listing)
    ensures forall j :: 0 <= j < |edited| ==>
              edited[j].id in SavedTable(table, edited) && SavedTable(table, edited)[edited[j].id] == edited[j]
  {
    assert SameIds(edited, listing) by {
      forall j | 0 <= j < |edited| ensures edited[j].id == listing[j].id {
        assert edited[j] == listing[j].(paid := edited[j].paid);
      }
    }
    EditedIdsDistinct(listing, edited);
    forall j | 0 <= j < |edited|
      ensures edited[j].id in SavedTable(table, edited) && SavedTable(table, edited)[edited[j].id] == edited[j]
    {
      assert edited[j].id == listing[j].id;
      SaveAgreesWithEditor(table, edited, j);
    }
  }

  /** Whatever the user edited, as long as the editor rows keep the
      listing's ids in order, the store's listing after saving is the old
      records with the editor's paid flags: edited descriptions and amounts
      are lost on the reload. */
  lemma ReloadAfterEdit(table: map<int, FixedCharge>, listing: seq<FixedCharge>, edited: seq<FixedCharge>)
    requires IsListing(listing, table)
    requires SameIds(edited, listing)
    ensures IsListing(ReloadedRows(listing, edited), SavedTable(table, edited))
  {
    var saved := SavedTable(table, edited);
    var shown := ReloadedRows(listing, edited);
    SavedTableAt(table, edited);
    EditedIdsDistinct(listing, edited);
    forall j | 0 <= j < |shown|
      ensures shown[j].id in saved && saved[shown[j].id] == shown[j]
    {
      SaveAgreesWithEditor(table, edited, j);
    }
    forall id | id in saved
      ensures exists j :: 0 <= j < |shown| && shown[j].id == id
    {
      var j :| 0 <= j < |listing| && listing[j].id == id;
      assert shown[j].id == id;
    }
  }

  /** A fixed charge of 100 whose amount is changed to 150 in the editor and
      ticked: the editor's balance subtracts 150, the reloaded rows subtract
      the stored 100. */
  lemma EditedAmountIsNotSaved()
    ensures var listing := [FixedCharge(1, "kira", 100, false)];
            var edited := [FixedCharge(1, "kira", 150, true)];
            && SameIds(edited, listing)
            && Balance([], edited) == -150
            && Balance([], ReloadedRows(listing, edited)) == -100
  {
    var listing := [FixedCharge(1, "kira", 100, false)];
    var edited := [FixedCharge(1, "kira", 150, true)];
    assert ReloadedRows(listing, edited) == [FixedCharge(1, "kira", 100, true)];
  }

  /** When the editor rows came from the store's listing and only paid
      flags were changed, the store's listing after saving is exactly the
      editor rows: the reload shows what the user saw, and so the paid
      total and the balance do not jump. */
  lemma ReloadAfterSave(table: map<int, FixedCharge>, listing: seq<FixedCharge>, edited: seq<FixedCharge>)
    requires IsListing(listing, table)
    requires OnlyPaidEdited(edited, listing)
    ensures IsListing(edited, SavedTable(table, edited))
  {
    var saved := SavedTable(table, edited);
    SavedTableAt(table, edited);
    SavedRowsAreEdited(table, listing, edited);
    forall j, k | 0 <= j < k < |edited|
      ensures edited[j].id < edited[k].id
    {
      assert edited[j].id == listing[j].id && edited[k].id == listing[k].id;
    }
    forall id | id in saved
      ensures exists j :: 0 <= j < |edited| && edited[j].id == id
    {
      var j :| 0 <= j < |listing| && listing[j].id == id;
      assert edited[j].id == id;
    }
  }

  // ---------------------------------------------------------------------
  // The store and the session

  /** The hosted store: the fixed-charge table keyed by id and the
      transaction table. */
  class Store {
    var fixedCharges: map<int, FixedCharge>
    var transactions: seq<Transaction>

    constructor (charges: map<int, FixedCharge>, entries: seq<Transaction>)
      ensures fixedCharges == charges && transactions == entries
    {
      fixedCharges := charges;
      transactions := entries;
    }

    /** The update `{odendi: paid}` on the record with this id. */
    method UpdatePaid(id: int, paid: bool)
      modifies this`fixedCharges
      ensures fixedCharges == PatchPaid(old(fixedCharges), id, paid)
    {
      if id in fixedCharges {
        fixedCharges := fixedCharges[id := fixedCharges[id].(paid := paid)];
      }
    }
  }

  /** The session's cached fixed charges and transactions, absent until
      the first load. */
  class Session {
    var fixedRows: Option<seq<FixedCharge>>
    var transactions: Option<seq<Transaction>>

    constructor ()
      ensures fixedRows == None && transactions == None
    {
      fixedRows := None;
      transactions := None;
    }
  }

  /** The load guard: when the fixed charges are not cached, both tables are
      fetched, the fixed charges in id order and the transactions from the
      first day of today's month on. The guard tests the fixed charges
      only. `listing` is the store's answer to the ordered select. */
  method LoadIfMissing(store: Store, session: Session, today: Date, listing: seq<FixedCharge>)
    requires IsListing(listing, store.fixedCharges)
    modifies session
    ensures old(session.fixedRows).None? ==>
              && session.fixedRows == Some(listing)
              && session.transactions == Some(ThisMonth(today, store.transactions))
    ensures old(session.fixedRows).Some? ==>
              session.fixedRows == old(session.fixedRows) && session.transactions == old(session.transactions)
  {
    if session.fixedRows.None? {
      session.fixedRows := Some(listing);
      session.transactions := Some(ThisMonth(today, store.transactions));
    }
  }

  /** The save button: one paid-flag update per editor row, in row order,
      then the cached fixed charges are dropped so that the next run
      reloads. The cached transactions are left in place. */
  method SaveChanges(store: Store, session: Session, edited: seq<FixedCharge>)
    modifies store`fixedCharges, session`fixedRows
    ensures store.fixedCharges == SavedTable(old(store.fixedCharges), edited)
    ensures session.fixedRows == None
    ensures store.transactions == old(store.transactions) && session.transactions == old(session.transactions)
  {
    var i := 0;
    while i < |edited|
      invariant 0 <= i <= |edited|
      invariant store.fixedCharges == SavedTable(old(store.fixedCharges), edited[..i])
    {
      assert edited[..i + 1][..i] == edited[..i];
      store.UpdatePaid(edited[i].id, edited[i].paid);
      i := i + 1;
    }
    assert edited[..i] == edited;
    session.fixedRows := None;
  }

  /** A save followed by the rerun it triggers: the store gets the
      editor's paid flags, the guard reloads both tables, and the balance is
      computed from the reloaded rows, which carry the stored descriptions
      and amounts. When only paid flags were edited the reloaded rows are
      the editor rows, and when the cached transactions were still this
      month's selection the balance is the one the editor showed. */
  method SaveAndReload(store: Store, session: Session, today: Date, edited: seq<FixedCharge>)
    returns (balance: int)
    requires session.fixedRows.Some? && IsListing(session.fixedRows.value, store.fixedCharges)
    requires SameIds(edited, session.fixedRows.value)
    modifies store`fixedCharges, session
    ensures store.fixedCharges == SavedTable(old(store.fixedCharges), edited)
    ensures session.fixedRows == Some(ReloadedRows(old(session.fixedRows).value, edited))
    ensures session.transactions == Some(ThisMonth(today, store.transactions))
    ensures balance == Balance(ThisMonth(today, store.transactions), ReloadedRows(old(session.fixedRows).value, edited))
    ensures OnlyPaidEdited(edited, old(session.fixedRows).value) ==> session.fixedRows == Some(edited)
    ensures OnlyPaidEdited(edited, old(session.fixedRows).value) &&
            old(session.transactions) == Some(ThisMonth(today, store.transactions)) ==>
              balance == Balance(old(session.transactions).value, edited)
  {
    var listing := session.fixedRows.value;
    ReloadAfterEdit(store.fixedCharges, listing, edited);
    SaveChanges(store, session, edited);
    LoadIfMissing(store, session, today, ReloadedRows(listing, edited));
    balance := Balance(session.transactions.value, session.fixedRows.value);
  }
}
