/** The double-entry staging buffer and its atomic commit (the current revision). */
module Transactions {
  import opened Common
  import opened JournalTransactions
  import opened Journals
  import opened DoubleEntry

  class Transaction {
    var pending: seq<Posting>

    /** Every pending record passed staging's checks; this revision stages no tags. */
    ghost predicate Valid()
      reads this
    {
      forall k :: 0 <= k < |pending| ==> Staged(pending[k]) && pending[k].tags == []
    }

    /** A new group starts with nothing pending. */
    constructor NewDoubleEntryTransactionGroup()
      ensures Valid() && pending == []
    {
      pending := [];
    }

    /** Stage one posting. The method check runs before the amount check; a rejected
        posting leaves the pending list as it was. */
    method AddTransaction(journal: Journal, kind: string, money: Money, memo: Option<string> := None,
                          referencedObject: Option<ModelRef> := None, postdate: Option<Timestamp> := None)
      returns (r: Outcome)
      requires Valid()
      modifies this
      ensures Valid()
      ensures !IsPostingMethod(kind) ==> r == Fail(InvalidJournalMethod) && pending == old(pending)
      ensures IsPostingMethod(kind) && money.amount <= 0 ==>
        r == Fail(InvalidJournalEntryValue) && pending == old(pending)
      ensures IsPostingMethod(kind) && money.amount > 0 ==>
        r == Pass && pending == old(pending) + [Posting(journal, kind, money, memo, referencedObject, postdate, [])]
    {
      if !(kind == "credit" || kind == "debit") {
        return Fail(InvalidJournalMethod);
      }
      if money.amount <= 0 {
        return Fail(InvalidJournalEntryValue);
      }
      pending := pending + [Posting(journal, kind, money, memo, referencedObject, postdate, [])];
      r := Pass;
    }

    /** Stage a whole number of dollars as cents in USD. */
    method AddDollarTransaction(journal: Journal, kind: string, dollars: int, memo: Option<string> := None,
                                referencedObject: Option<ModelRef> := None, postdate: Option<Timestamp> := None)
      returns (r: Outcome)
      requires Valid()
      modifies this
      ensures Valid()
      ensures !IsPostingMethod(kind) ==> r == Fail(InvalidJournalMethod) && pending == old(pending)
      ensures IsPostingMethod(kind) && dollars <= 0 ==>
        r == Fail(InvalidJournalEntryValue) && pending == old(pending)
      ensures IsPostingMethod(kind) && dollars > 0 ==>
        r == Pass
        && pending == old(pending) + [Posting(journal, kind, Money(dollars * 100, "USD"), memo, referencedObject, postdate, [])]
    {
      r := AddTransaction(journal, kind, Money(dollars * 100, "USD"), memo, referencedObject, postdate);
    }

    /** A snapshot of the pending list. */
    function GetTransactionsPending(): (r: seq<Posting>)
      reads this
      ensures r == pending
    {
      pending
    }

    /** The balance check: the credit total against the debit total. */
    method VerifyTransactionCreditsEqualDebits() returns (r: Outcome)
      ensures r == if CreditTotal(pending) == DebitTotal(pending) then Pass
                   else Fail(DebitsAndCreditsDoNotEqual(CreditTotal(pending), DebitTotal(pending)))
    {
      var credits, debits := 0, 0;
      var i := 0;
      while i < |pending|
        invariant 0 <= i <= |pending|
        invariant credits == CreditTotal(pending[..i]) && debits == DebitTotal(pending[..i])
      {
        var p := pending[i];
        if p.kind == "credit" {
          credits := credits + p.money.amount;
        } else {
          debits := debits + p.money.amount;
        }
        assert pending[..i + 1][..i] == pending[..i];
        i := i + 1;
      }
      assert pending[..i] == pending;
      if credits != debits {
        return Fail(DebitsAndCreditsDoNotEqual(credits, debits));
      }
      r := Pass;
    }

    /** Commit the group: check the balance, then inside one atomic scope post every
        pending record on its journal with the group id, attaching its reference when
        one was staged. `groupId` and `entryIds` are the fresh identifiers the
        generator supplies, `now` the clock, and `fault` the failure, if any, that the
        atomic scope meets; on a failure the table is rolled back. The pending list
        is kept. */
    method Commit(table: EntryTable, groupId: Uuid, entryIds: seq<Uuid>, now: Timestamp, fault: Option<Fault>)
      returns (r: Result<Uuid>)
      requires Valid() && table.Valid()
      requires |entryIds| == |pending| && FreshIds(table.rows, entryIds)
      modifies table
      ensures table.Valid()
      ensures r == CommitResult(pending, groupId, fault)
      ensures table.rows == CommitRows(old(table.rows), pending, groupId, entryIds, now, fault)
    {
      var check := VerifyTransactionCreditsEqualDebits();
      if check.Fail? {
        return Err(check.error);
      }
      r := PostAll(table, pending, groupId, entryIds, now, fault);
    }
  }

  /** The atomic scope of a commit: post every record in order, or, when the fault
      strikes at a posting step or at the final database commit, roll the table
      back to where it was. */
  method PostAll(table: EntryTable, ps: seq<Posting>, groupId: Uuid, ids: seq<Uuid>, now: Timestamp,
                fault: Option<Fault>) returns (r: Result<Uuid>)
    requires table.Valid() && |ids| == |ps| && FreshIds(table.rows, ids)
    requires forall k :: 0 <= k < |ps| ==> ps[k].tags == []
    modifies table
    ensures table.Valid()
    ensures FaultStrikes(fault, |ps|) ==>
      r == Err(TransactionCouldNotBeProcessed(RollbackPrefix + fault.value.message)) && table.rows == old(table.rows)
    ensures !FaultStrikes(fault, |ps|) ==> r == Ok(groupId) && table.rows == old(table.rows) + Posted(ps, groupId, ids, now)
  {
    var saved := table.rows;
    var i := 0;
    while i < |ps|
      invariant 0 <= i <= |ps|
      invariant table.Valid()
      invariant table.rows == saved + Posted(ps[..i], groupId, ids[..i], now)
      invariant fault.Some? ==> fault.value.step >= i
    {
      if fault.Some? && fault.value.step == i {
        table.Rollback(saved);
        return Err(TransactionCouldNotBeProcessed(RollbackPrefix + fault.value.message));
      }
      PostStep(table, saved, ps, groupId, ids, now, i);
      i := i + 1;
    }
    assert ps[..i] == ps && ids[..i] == ids;
    if fault.Some? && fault.value.step == |ps| {
      table.Rollback(saved);
      return Err(TransactionCouldNotBeProcessed(RollbackPrefix + fault.value.message));
    }
    r := Ok(groupId);
  }

  /** Post record `i` of the group on top of the `i` already posted. */
  method PostStep(table: EntryTable, saved: seq<Entry>, ps: seq<Posting>, groupId: Uuid, ids: seq<Uuid>,
                now: Timestamp, i: nat)
    requires |ids| == |ps| && i < |ps| && ps[i].tags == [] && IdsDistinct(saved) && FreshIds(saved, ids)
    requires table.rows == saved + Posted(ps[..i], groupId, ids[..i], now)
    modifies table
    ensures table.Valid() && table.rows == saved + Posted(ps[..i + 1], groupId, ids[..i + 1], now)
  {
    PostedIdsFresh(saved, ps, groupId, ids, now, i);
    PostedPrefixStep(ps, groupId, ids, now, i);
    ApplyPosting(table, ps[i], groupId, ids[i], now);
  }

  /** One step of the commit loop: post the record on its journal with the group id,
      then attach its reference when one was staged. */
  method ApplyPosting(table: EntryTable, p: Posting, groupId: Uuid, id: Uuid, now: Timestamp)
    requires table.Valid() && IsFreshId(table.rows, id) && p.tags == []
    modifies table
    ensures table.Valid()
    ensures table.rows == old(table.rows) + [PostedEntry(p, groupId, id, now)]
  {
    var e;
    if p.kind == "credit" {
      e := p.journal.Credit(table, Funds(p.money), p.memo, p.postdate, Some(groupId), id, now);
    } else {
      e := p.journal.Debit(table, Funds(p.money), p.memo, p.postdate, Some(groupId), id, now);
    }
    if p.referencedObject.Some? {
      e := table.ReferencesObject(|table.rows| - 1, p.referencedObject.value);
    }
  }
}
