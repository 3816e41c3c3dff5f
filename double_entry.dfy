/** What a double-entry commit means, shared by both revisions of the staging
    class: the staged postings, the credit and debit totals the balance check
    compares, the rows a successful commit appends, and the result it returns. */
module DoubleEntry {
  import opened Common
  import opened JournalTransactions
  import opened Journals

  /** One staged posting (a pending record); `kind` is its posting method. `tags` is the empty list in the
      revision that does not stage tags. */
  datatype Posting = Posting(
    journal: Journal,
    kind: string,
    money: Money,
    memo: Option<string>,
    referencedObject: Option<ModelRef>,
    postdate: Option<Timestamp>,
    tags: seq<string>)

  /** The only two posting methods a journal has. */
  predicate IsPostingMethod(m: string) {
    m == "credit" || m == "debit"
  }

  /** What staging guarantees of every pending record. */
  predicate Staged(p: Posting) {
    IsPostingMethod(p.kind) && p.money.amount > 0
  }

  /** The column a posting lands in: a record counts as a credit exactly when its
      method is "credit"; every other record counts as a debit. */
  function SideOf(p: Posting): Side {
    if p.kind == "credit" then CreditSide else DebitSide
  }

  /** The amounts of the postings that count as credits (currency is ignored). */
  function CreditTotal(ps: seq<Posting>): int
    decreases |ps|
  {
    if ps == [] then 0
    else CreditTotal(ps[..|ps| - 1]) + (if SideOf(ps[|ps| - 1]) == CreditSide then ps[|ps| - 1].money.amount else 0)
  }

  /** The amounts of the postings that count as debits. */
  function DebitTotal(ps: seq<Posting>): int
    decreases |ps|
  {
    if ps == [] then 0
    else DebitTotal(ps[..|ps| - 1]) + (if SideOf(ps[|ps| - 1]) == DebitSide then ps[|ps| - 1].money.amount else 0)
  }

  /** The change a list of postings makes to journal `j`'s balance (credits minus
      debits of the postings on `j`). */
  function NetFor(ps: seq<Posting>, j: JournalId): int
    decreases |ps|
  {
    if ps == [] then 0
    else
      var p := ps[|ps| - 1];
      NetFor(ps[..|ps| - 1], j)
        + (if p.journal.id != j then 0 else if SideOf(p) == CreditSide then p.money.amount else -p.money.amount)
  }

  /** The row one posting becomes: the journal's posting primitive with the group id
      attached, then the reference when one was staged, then the tags when the
      staged list is not empty. */
  function PostedEntry(p: Posting, group: Uuid, id: Uuid, now: Timestamp): Entry {
    var e := Draft(p.journal.id, SideOf(p), p.money, p.memo, p.postdate, Some(group), now).(id := id);
    var e' := if p.referencedObject.Some? then e.WithReference(p.referencedObject.value) else e;
    if |p.tags| > 0 then e'.WithTags(p.tags) else e'
  }

  /** The rows a successful commit appends, in staging order; `ids` are the fresh
      ids the creation hook stamps on them. */
  function Posted(ps: seq<Posting>, group: Uuid, ids: seq<Uuid>, now: Timestamp): (r: seq<Entry>)
    requires |ids| == |ps|
    ensures |r| == |ps|
    decreases |ps|
  {
    if ps == [] then []
    else Posted(ps[..|ps| - 1], group, ids[..|ids| - 1], now) + [PostedEntry(ps[|ps| - 1], group, ids[|ids| - 1], now)]
  }

  /** A failure injected into the atomic scope: the posting step `step` throws with
      `message`; `step` equal to the number of postings stands for the final
      database commit throwing, and a larger step never happens. */
  datatype Fault = Fault(step: nat, message: string)

  predicate FaultStrikes(fault: Option<Fault>, n: nat) {
    fault.Some? && fault.value.step <= n
  }

  /** What `commit` returns: the balance check first, before any write; then a
      fault inside the atomic scope; otherwise the group id. */
  function CommitResult(ps: seq<Posting>, group: Uuid, fault: Option<Fault>): Result<Uuid> {
    if CreditTotal(ps) != DebitTotal(ps) then Err(DebitsAndCreditsDoNotEqual(CreditTotal(ps), DebitTotal(ps)))
    else if FaultStrikes(fault, |ps|) then Err(TransactionCouldNotBeProcessed(RollbackPrefix + fault.value.message))
    else Ok(group)
  }

  /** The table after `commit`: all the posted rows, or none of them. */
  function CommitRows(rows: seq<Entry>, ps: seq<Posting>, group: Uuid, ids: seq<Uuid>,
                      now: Timestamp, fault: Option<Fault>): seq<Entry>
    requires |ids| == |ps|
  {
    if CommitResult(ps, group, fault).Ok? then rows + Posted(ps, group, ids, now) else rows
  }

  /** The ids a commit stamps are distinct and not already in the table. */
  ghost predicate FreshIds(rows: seq<Entry>, ids: seq<Uuid>) {
    && (forall a, b :: 0 <= a < b < |ids| ==> ids[a] != ids[b])
    && (forall k, m :: 0 <= k < |ids| && 0 <= m < |rows| ==> ids[k] != rows[m].id)
  }

  /** No row of the table carries `group`. */
  ghost predicate GroupUnused(rows: seq<Entry>, group: Uuid) {
    forall m :: 0 <= m < |rows| ==> rows[m].transactionGroup != Some(group)
  }

  function InGroup(group: Uuid): Entry -> bool {
    (e: Entry) => e.transactionGroup == Some(group)
  }

  // Lemmas.

  /** Row `k` of a commit is posting `k` on that posting's journal, with the
      posting's amount on the posting's side, nothing on the other side, the
      group id, and the `k`th fresh id. */
  lemma {:induction false} PostedShape(ps: seq<Posting>, group: Uuid, ids: seq<Uuid>, now: Timestamp, k: nat)
    requires |ids| == |ps| && k < |ps|
    ensures |Posted(ps, group, ids, now)| == |ps|
    ensures Posted(ps, group, ids, now)[k] == PostedEntry(ps[k], group, ids[k], now)
    ensures Posted(ps, group, ids, now)[k].journalId == ps[k].journal.id
    ensures Posted(ps, group, ids, now)[k].id == ids[k]
    ensures Posted(ps, group, ids, now)[k].transactionGroup == Some(group)
    ensures AmountOn(Posted(ps, group, ids, now)[k], SideOf(ps[k])) == ps[k].money.amount
    ensures AmountOn(Posted(ps, group, ids, now)[k], if SideOf(ps[k]) == CreditSide then DebitSide else CreditSide) == 0
    ensures Posted(ps, group, ids, now)[k].currency == ps[k].money.currency
    decreases |ps|
  {
    var n := |ps| - 1;
    if k < n {
      PostedShape(ps[..n], group, ids[..n], now, k);
    } else {
      if n > 0 {
        PostedShape(ps[..n], group, ids[..n], now, 0);
      }
    }
  }

  /** The posted rows carry exactly the staged credit and debit totals. */
  lemma {:induction false} PostedTotals(ps: seq<Posting>, group: Uuid, ids: seq<Uuid>, now: Timestamp)
    requires |ids| == |ps|
    ensures Total(Posted(ps, group, ids, now), CreditSide) == CreditTotal(ps)
    ensures Total(Posted(ps, group, ids, now), DebitSide) == DebitTotal(ps)
    decreases |ps|
  {
    if ps != [] {
      var n := |ps| - 1;
      PostedTotals(ps[..n], group, ids[..n], now);
      PostedShape(ps, group, ids, now, n);
      var init := Posted(ps[..n], group, ids[..n], now);
      var last := PostedEntry(ps[n], group, ids[n], now);
      assert (init + [last])[..|init + [last]| - 1] == init;
    }
  }

  /** The balance check accepts exactly when nothing is injected: a commit
      succeeds iff its credits equal its debits. */
  lemma CommitSucceedsIffBalanced(ps: seq<Posting>, group: Uuid, fault: Option<Fault>)
    requires !FaultStrikes(fault, |ps|)
    ensures CommitResult(ps, group, fault).Ok? <==> CreditTotal(ps) == DebitTotal(ps)
    ensures CommitResult(ps, group, fault).Ok? ==> CommitResult(ps, group, fault).value == group
    ensures CreditTotal(ps) != DebitTotal(ps) ==>
      CommitResult(ps, group, fault) == Err(DebitsAndCreditsDoNotEqual(CreditTotal(ps), DebitTotal(ps)))
  {
  }

  /** A balanced group whose fault strikes inside the atomic scope fails with the
      rollback message and leaves the table as it was. */
  lemma FaultedCommitRollsBack(rows: seq<Entry>, ps: seq<Posting>, group: Uuid, ids: seq<Uuid>,
                               now: Timestamp, fault: Option<Fault>)
    requires |ids| == |ps| && CreditTotal(ps) == DebitTotal(ps) && FaultStrikes(fault, |ps|)
    ensures CommitResult(ps, group, fault) == Err(TransactionCouldNotBeProcessed(RollbackPrefix + fault.value.message))
    ensures CommitRows(rows, ps, group, ids, now, fault) == rows
  {
  }

  /** A commit with nothing staged passes the check and writes nothing. */
  lemma EmptyCommit(rows: seq<Entry>, group: Uuid, now: Timestamp)
    ensures CommitResult([], group, None) == Ok(group)
    ensures CommitRows(rows, [], group, [], now, None) == rows
  {
  }

  /** All or nothing: a failed commit leaves the table as it was; a successful one
      appends exactly one row per posting, and across those rows total credits
      equal total debits, so the table's overall credits-minus-debits is unchanged. */
  lemma CommitAllOrNothing(rows: seq<Entry>, ps: seq<Posting>, group: Uuid, ids: seq<Uuid>,
                           now: Timestamp, fault: Option<Fault>)
    requires |ids| == |ps|
    ensures CommitResult(ps, group, fault).Err? ==> CommitRows(rows, ps, group, ids, now, fault) == rows
    ensures CommitResult(ps, group, fault).Ok? ==>
      && |CommitRows(rows, ps, group, ids, now, fault)| == |rows| + |ps|
      && Total(Posted(ps, group, ids, now), CreditSide) == Total(Posted(ps, group, ids, now), DebitSide)
      && Total(CommitRows(rows, ps, group, ids, now, fault), CreditSide) - Total(CommitRows(rows, ps, group, ids, now, fault), DebitSide)
         == Total(rows, CreditSide) - Total(rows, DebitSide)
  {
    if CommitResult(ps, group, fault).Ok? {
      PostedTotals(ps, group, ids, now);
      TotalAppend(rows, Posted(ps, group, ids, now), CreditSide);
      TotalAppend(rows, Posted(ps, group, ids, now), DebitSide);
      if ps != [] {
        PostedShape(ps, group, ids, now, 0);
      }
    }
  }

  /** With a group id not already in use, the rows carrying the returned group id
      are exactly the rows the commit appended, in staging order. */
  lemma CommitGroupExact(rows: seq<Entry>, ps: seq<Posting>, group: Uuid, ids: seq<Uuid>,
                         now: Timestamp, fault: Option<Fault>)
    requires |ids| == |ps| && GroupUnused(rows, group)
    ensures Select(CommitRows(rows, ps, group, ids, now, fault), InGroup(group))
      == if CommitResult(ps, group, fault).Ok? then Posted(ps, group, ids, now) else []
  {
    SelectNone(rows, InGroup(group));
    if CommitResult(ps, group, fault).Ok? {
      var posted := Posted(ps, group, ids, now);
      SelectAppend(rows, posted, InGroup(group));
      forall k | 0 <= k < |posted| ensures InGroup(group)(posted[k]) {
        PostedShape(ps, group, ids, now, k);
      }
      SelectAll(posted, InGroup(group));
    }
  }

  /** A filter that accepts every row selects them all. */
  lemma {:induction false} SelectAll(rows: seq<Entry>, keep: Entry -> bool)
    requires forall k :: 0 <= k < |rows| ==> keep(rows[k])
    ensures Select(rows, keep) == rows
    decreases |rows|
  {
    if rows != [] {
      var n := |rows| - 1;
      SelectAll(rows[..n], keep);
      assert keep(rows[n]);
      assert rows[..n] + [rows[n]] == rows;
    }
  }

  /** A successful commit moves each journal's balance by exactly the net of the
      postings staged on it. */
  lemma {:induction false} CommitJournalEffect(rows: seq<Entry>, ps: seq<Posting>, group: Uuid, ids: seq<Uuid>,
                                               now: Timestamp, j: JournalId)
    requires |ids| == |ps|
    ensures BalanceOf(rows + Posted(ps, group, ids, now), j) == BalanceOf(rows, j) + NetFor(ps, j)
    decreases |ps|
  {
    if ps == [] {
      assert rows + [] == rows;
    } else {
      var n := |ps| - 1;
      var init := Posted(ps[..n], group, ids[..n], now);
      var last := PostedEntry(ps[n], group, ids[n], now);
      CommitJournalEffect(rows, ps[..n], group, ids[..n], now, j);
      PostedShape(ps, group, ids, now, n);
      assert rows + Posted(ps, group, ids, now) == (rows + init) + [last];
      PostingEffect(rows + init, last, j);
    }
  }

  /** Posting one more record extends the posted rows by that record's row. */
  lemma PostedPrefixStep(ps: seq<Posting>, group: Uuid, ids: seq<Uuid>, now: Timestamp, i: nat)
    requires |ids| == |ps| && i < |ps|
    ensures Posted(ps[..i + 1], group, ids[..i + 1], now)
      == Posted(ps[..i], group, ids[..i], now) + [PostedEntry(ps[i], group, ids[i], now)]
  {
    assert ps[..i + 1][..i] == ps[..i];
    assert ids[..i + 1][..i] == ids[..i];
  }

  /** The ids of the rows after a commit stay distinct, and the id stamped on the
      next posting is fresh. */
  lemma PostedIdsFresh(rows: seq<Entry>, ps: seq<Posting>, group: Uuid, ids: seq<Uuid>, now: Timestamp, i: nat)
    requires |ids| == |ps| && i <= |ps|
    requires IdsDistinct(rows) && FreshIds(rows, ids)
    ensures IdsDistinct(rows + Posted(ps[..i], group, ids[..i], now))
    ensures i < |ps| ==> IsFreshId(rows + Posted(ps[..i], group, ids[..i], now), ids[i])
  {
    var posted := Posted(ps[..i], group, ids[..i], now);
    var all := rows + posted;
    forall k | 0 <= k < |posted| ensures posted[k].id == ids[k] {
      PostedShape(ps[..i], group, ids[..i], now, k);
    }
    if i == 0 {
      assert |posted| == 0;
    } else {
      PostedShape(ps[..i], group, ids[..i], now, 0);
    }
    assert forall k :: |rows| <= k < |all| ==> all[k].id == ids[k - |rows|];
  }
}
