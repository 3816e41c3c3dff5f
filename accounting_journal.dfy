/** The owner side of the journal relation: any model can own at most one journal,
    and `InitJournal` creates it. */
module AccountingJournals {
  import opened Common
  import opened JournalTransactions
  import opened Journals

  /** The journals that exist, keyed by the model that owns each (the one-to-one
      polymorphic relation from an owner to its journal). */
  class JournalRegistry {
    var journals: map<ModelRef, Journal>

    /** Each stored journal is owned by the model it is stored under, and no two
        journals share an id. */
    ghost predicate Valid()
      reads this
    {
      (forall o :: o in journals ==> journals[o].owner == o)
      && (forall a, b :: a in journals && b in journals && a != b ==> journals[a].id != journals[b].id)
    }

    constructor ()
      ensures Valid() && journals == map[]
    {
      journals := map[];
    }

    /** The owner's journal, if it has one. */
    function JournalOf(owner: ModelRef): (r: Option<Journal>)
      reads this
      ensures r.Some? <==> owner in journals
      ensures r.Some? ==> r.value == journals[owner]
    {
      if owner in journals then Some(journals[owner]) else None
    }

    /** Give `owner` its journal, with the requested currency (USD by default), the
        requested ledger (none by default) and a zero balance. `newId` is the id the
        store assigns, which no journal and no line item uses yet. An owner that
        already has a journal is refused and nothing changes. */
    method InitJournal(table: EntryTable, newId: JournalId, owner: ModelRef, currencyCode: string := "USD",
                       ledgerId: Option<LedgerId> := None)
      returns (r: Result<Journal>)
      requires Valid()
      requires forall o :: o in journals ==> journals[o].id != newId
      requires forall k :: 0 <= k < |table.rows| ==> table.rows[k].journalId != newId
      modifies this
      ensures Valid()
      ensures owner in old(journals) ==> r == Err(JournalAlreadyExists) && journals == old(journals)
      ensures owner !in old(journals) ==>
        r.Ok? && fresh(r.value) && journals == old(journals)[owner := r.value]
        && r.value.id == newId && r.value.owner == owner
        && r.value.currency == currencyCode && r.value.ledgerId == ledgerId && r.value.balance == 0
    {
      if owner in journals {
        return Err(JournalAlreadyExists);
      }
      var j := new Journal(newId, owner, currencyCode, ledgerId, table);
      BalanceIsDifference(table.rows, newId);
      journals := journals[owner := j];
      r := Ok(j);
    }

    /** After a first `InitJournal` for an owner succeeds, a second one for the same
        owner is refused, and the owner keeps the journal the first call made. The
        registry is the stored relation, so this holds when the second call sees the
        first call's journal: the owner's relation must be reloaded in between, since
        the existence check reads the relation the owner model has cached and saving
        the new journal does not refresh that cache. */
    method InitJournalTwice(table: EntryTable, id1: JournalId, id2: JournalId, owner: ModelRef)
      returns (first: Result<Journal>, second: Result<Journal>)
      requires Valid() && owner !in journals && id1 != id2
      requires forall o :: o in journals ==> journals[o].id != id1 && journals[o].id != id2
      requires forall k :: 0 <= k < |table.rows| ==> table.rows[k].journalId != id1 && table.rows[k].journalId != id2
      modifies this
      ensures Valid()
      ensures first.Ok? && second == Err(JournalAlreadyExists)
      ensures journals == old(journals)[owner := first.value]
    {
      first := InitJournal(table, id1, owner);
      second := InitJournal(table, id2, owner);
    }
  }
}
