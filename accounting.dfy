/** The older revision of the staging buffer: the same checks and commit, with an
    optional tag list on each pending record that the commit applies to the row. */
module AccountingService {
  import opened Common
  import opened JournalTransactions
  import opened Journals
  import opened DoubleEntry

  class Accounting {
    var pending: seq<Posting>

    /** Every pending record passed staging's checks. */
    ghost predicate Valid()
      reads this
    {
      forall k :: 0 <= k < |pending| ==> Staged(pending[k])
    }

    constructor NewDoubleEntryTransactionGroup()
      ensures Valid() && pending == []
    {
      pending := [];
    }

    /** Stage one posting with its tags (none by default). The method check runs
        before the amount check; a rejected posting stages nothing. */
    method AddTransaction(journal: Journal, kind: string, money: Money, memo: Option<string> := None,
                          referencedObject: Option<ModelRef> := None, postdate: Option<Timestamp> := None,
                          tags: seq<string> := [])
      returns (r: Outcome)
      requires Valid()
      modifies this
      ensures Valid()
      ensures !IsPostingMethod(kind) ==> r == Fail(InvalidJournalMethod) && pending == old(pending)
      ensures IsPostingMethod(kind) && money.amount <= 0 ==>
        r == Fail(InvalidJournalEntryValue) && pending == old(pending)
      ensures IsPostingMethod(kind) && money.amount > 0 ==>
        r == Pass && pending == old(pending) + [Posting(journal, kind, money, memo, referencedObject, postdate, tags)]
    {
      if !(kind == "credit" || kind == "debit") {
        return Fail(InvalidJournalMethod);
      }
      if money.amount <= 0 {
        return Fail(InvalidJournalEntryValue);
      }
      pending := pending + [Posting(journal, kind, money, memo, referencedObject, postdate, tags)];
      r := Pass;
    }

    /** Stage a whole number of dollars as cents in USD, without tags. */
    method AddDollarTransaction(journal: Journal, kind: string, dollars: int, memo: Option<string> := None,
                                referencedObject: Option<ModelRef> := None, postdate: Option<Timestamp> := None)
      returns (r: Outcome)
      requires Valid()
      modifies this
      ensures Valid()
      ensures !IsPostingMethod(kind) ==> r == Fail(InvalidJournalMethod) && pending == old(pending)
      ensures IsPostingMethod(kind) && dollars <= 0 ==>
        r == Fail(InvalidJournalEntryValue) && pending == old(pending)
      ensures IsPostingMethod(kind) && dollars > 0 ==>
        r == Pass
        && pending == old(pending) + [Posting(journal, kind, Money(dollars * 100, "USD"), memo, referencedObject, postdate, [])]
    {
      r := AddTransaction(journal, kind, Money(dollars * 100, "USD"), memo, referencedObject, postdate);
    }

    /** A snapshot of the pending list. */
    function GetTransactionsPending(): (r: seq<Posting>)
      reads this
      ensures r == pending
    {
      pending
    }

    /** The balance check: a record counts as a credit iff its method is "credit",
        every other record as a debit. */
    method VerifyTransactionCreditsEqualDebits() returns (r: Outcome)
      ensures r == if CreditTotal(pending) == DebitTotal(pending) then Pass
                   else Fail(DebitsAndCreditsDoNotEqual(CreditTotal(pending), DebitTotal(pending)))
    {
      var credits, debits := 0, 0;
      var i := 0;
      while i < |pending|
        invariant 0 <= i <= |pending|
        invariant credits == CreditTotal(pending[..i]) && debits == DebitTotal(pending[..i])
      {
        if pending[i].kind == "credit" {
          credits := credits + pending[i].money.amount;
        } else {
          debits := debits + pending[i].money.amount;
        }
        assert pending[..i + 1][..i] == pending[..i];
        i := i + 1;
      }
      assert pending[..i] == pending;
      if credits != debits {
        return Fail(DebitsAndCreditsDoNotEqual(credits, debits));
      }
      r := Pass;
    }

    /** Commit the group as the current revision does, with the tag step added to
        every posting that staged tags. Parameters as in the current revision. */
    method Commit(table: EntryTable, groupId: Uuid, entryIds: seq<Uuid>, now: Timestamp, fault: Option<Fault>)
      returns (r: Result<Uuid>)
      requires Valid() && table.Valid()
      requires |entryIds| == |pending| && FreshIds(table.rows, entryIds)
      modifies table
      ensures table.Valid()
      ensures r == CommitResult(pending, groupId, fault)
      ensures table.rows == CommitRows(old(table.rows), pending, groupId, entryIds, now, fault)
    {
      var check := VerifyTransactionCreditsEqualDebits();
      if check.Fail? {
        return Err(check.error);
      }
      r := PostAllTagged(table, pending, groupId, entryIds, now, fault);
    }
  }

  /** The atomic scope of a commit: post every record in order, or, when the fault
      strikes at a posting step or at the final database commit, roll the table
      back to where it was. */
  method PostAllTagged(table: EntryTable, ps: seq<Posting>, groupId: Uuid, ids: seq<Uuid>, now: Timestamp,
                fault: Option<Fault>) returns (r: Result<Uuid>)
    requires table.Valid() && |ids| == |ps| && FreshIds(table.rows, ids)
    modifies table
    ensures table.Valid()
    ensures FaultStrikes(fault, |ps|) ==>
      r == Err(TransactionCouldNotBeProcessed(RollbackPrefix + fault.value.message)) && table.rows == old(table.rows)
    ensures !FaultStrikes(fault, |ps|) ==> r == Ok(groupId) && table.rows == old(table.rows) + Posted(ps, groupId, ids, now)
  {
    var saved := table.rows;
    var i := 0;
    while i < |ps|
      invariant 0 <= i <= |ps|
      invariant table.Valid()
      invariant table.rows == saved + Posted(ps[..i], groupId, ids[..i], now)
      invariant fault.Some? ==> fault.value.step >= i
    {
      if fault.Some? && fault.value.step == i {
        table.Rollback(saved);
        return Err(TransactionCouldNotBeProcessed(RollbackPrefix + fault.value.message));
      }
      PostTaggedStep(table, saved, ps, groupId, ids, now, i);
      i := i + 1;
    }
    assert ps[..i] == ps && ids[..i] == ids;
    if fault.Some? && fault.value.step == |ps| {
      table.Rollback(saved);
      return Err(TransactionCouldNotBeProcessed(RollbackPrefix + fault.value.message));
    }
    r := Ok(groupId);
  }

  /** Post record `i` of the group on top of the `i` already posted. */
  method PostTaggedStep(table: EntryTable, saved: seq<Entry>, ps: seq<Posting>, groupId: Uuid, ids: seq<Uuid>,
                now: Timestamp, i: nat)
    requires |ids| == |ps| && i < |ps| && IdsDistinct(saved) && FreshIds(saved, ids)
    requires table.rows == saved + Posted(ps[..i], groupId, ids[..i], now)
    modifies table
    ensures table.Valid() && table.rows == saved + Posted(ps[..i + 1], groupId, ids[..i + 1], now)
  {
    PostedIdsFresh(saved, ps, groupId, ids, now, i);
    PostedPrefixStep(ps, groupId, ids, now, i);
    ApplyTaggedPosting(table, ps[i], groupId, ids[i], now);
  }

  /** One step of the commit loop: post, attach the reference when one was staged,
      then write the tags when the staged list is not empty. */
  method ApplyTaggedPosting(table: EntryTable, p: Posting, groupId: Uuid, id: Uuid, now: Timestamp)
    requires table.Valid() && IsFreshId(table.rows, id)
    modifies table
    ensures table.Valid()
    ensures table.rows == old(table.rows) + [PostedEntry(p, groupId, id, now)]
  {
    var e;
    if p.kind == "credit" {
      e := p.journal.Credit(table, Funds(p.money), p.memo, p.postdate, Some(groupId), id, now);
    } else {
      e := p.journal.Debit(table, Funds(p.money), p.memo, p.postdate, Some(groupId), id, now);
    }
    if p.referencedObject.Some? {
      e := table.ReferencesObject(|table.rows| - 1, p.referencedObject.value);
    }
    if |p.tags| > 0 {
      e := table.UpdateTags(|table.rows| - 1, p.tags);
    }
  }

  // The tag step as written.

  /** The message of the error an `updateTags` call on a line item raises: the
      line-item class defines no such method, so the call falls through to the
      query builder, which rejects it. */
  const UndefinedUpdateTags: string :=
    "Call to undefined method Scottlaurent\\Accounting\\Models\\JournalTransaction::updateTags()"

  /** The fault the code as written meets inside the atomic scope: the first
      posting that staged tags throws at its tag step; a group without tags meets
      none. */
  function UndefinedTagStep(ps: seq<Posting>): (f: Option<Fault>)
    ensures f.None? <==> forall k :: 0 <= k < |ps| ==> ps[k].tags == []
    ensures f.Some? ==>
      && f.value.step < |ps| && ps[f.value.step].tags != [] && f.value.message == UndefinedUpdateTags
      && forall k :: 0 <= k < f.value.step ==> ps[k].tags == []
    decreases |ps|
  {
    if ps == [] then None
    else
      var n := |ps| - 1;
      var f := UndefinedTagStep(ps[..n]);
      assert forall k :: 0 <= k < n ==> ps[..n][k] == ps[k];
      if f.Some? then f
      else if ps[n].tags != [] then Some(Fault(n, UndefinedUpdateTags))
      else None
  }

  /** As written, a balanced group that staged any tags always fails, with the
      undefined-method error wrapped in the rollback message, and leaves the table
      as it was. */
  lemma {:induction false} TaggedCommitAsWrittenRollsBack(rows: seq<Entry>, ps: seq<Posting>, group: Uuid, ids: seq<Uuid>, now: Timestamp)
    requires |ids| == |ps| && CreditTotal(ps) == DebitTotal(ps)
    requires exists k :: 0 <= k < |ps| && ps[k].tags != []
    ensures UndefinedTagStep(ps).Some? && UndefinedTagStep(ps).value.message == UndefinedUpdateTags
    ensures CommitResult(ps, group, UndefinedTagStep(ps))
         == Err(TransactionCouldNotBeProcessed(RollbackPrefix + UndefinedTagStep(ps).value.message))
    ensures CommitRows(rows, ps, group, ids, now, UndefinedTagStep(ps)) == rows
  {
    TaggedGroupFaults(ps);
    FaultedCommitRollsBack(rows, ps, group, ids, now, UndefinedTagStep(ps));
  }

  /** A group that staged any tags meets the undefined-method fault. */
  lemma TaggedGroupFaults(ps: seq<Posting>)
    requires exists k :: 0 <= k < |ps| && ps[k].tags != []
    ensures UndefinedTagStep(ps).Some? && UndefinedTagStep(ps).value.message == UndefinedUpdateTags
  {
  }

  /** With the tag step writing the tags, a balanced group that meets no failure
      commits, and every appended row carries exactly the tags staged with it. */
  lemma TaggedCommitWritesTags(rows: seq<Entry>, ps: seq<Posting>, group: Uuid, ids: seq<Uuid>, now: Timestamp)
    requires |ids| == |ps| && CreditTotal(ps) == DebitTotal(ps)
    ensures CommitResult(ps, group, None) == Ok(group)
    ensures |CommitRows(rows, ps, group, ids, now, None)| == |rows| + |ps|
    ensures forall k :: 0 <= k < |ps| ==> CommitRows(rows, ps, group, ids, now, None)[|rows| + k].tags == ps[k].tags
  {
    forall k | 0 <= k < |ps|
      ensures CommitRows(rows, ps, group, ids, now, None)[|rows| + k].tags == ps[k].tags
    {
      PostedShape(ps, group, ids, now, k);
    }
  }
}
