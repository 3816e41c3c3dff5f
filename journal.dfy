/** Accounts ("journals"): posting primitives, the cached balance, and the balance
    queries, which are filtered sums over the table of line items.

    Sign convention: every journal balance here is total credits minus total
    debits, as the journal code computes it. */
module Journals {
  import opened Common
  import opened JournalTransactions

  /** Which of an entry's two amount columns a sum reads. */
  datatype Side = DebitSide | CreditSide

  /** The amount an entry contributes to a column sum; NULL contributes nothing,
      as an SQL SUM ignores it. */
  function AmountOn(e: Entry, side: Side): int {
    match side
    case DebitSide => e.debit.GetOr(0)
    case CreditSide => e.credit.GetOr(0)
  }

  /** The column sum of `side` over `rows`. */
  function Total(rows: seq<Entry>, side: Side): int
    decreases |rows|
  {
    if rows == [] then 0 else Total(rows[..|rows| - 1], side) + AmountOn(rows[|rows| - 1], side)
  }

  /** The rows `keep` accepts, in table order (a `where` query). */
  function Select(rows: seq<Entry>, keep: Entry -> bool): (r: seq<Entry>)
    ensures |r| <= |rows|
    ensures forall e :: e in r ==> e in rows && keep(e)
    ensures forall e :: e in rows && keep(e) ==> e in r
    decreases |rows|
  {
    if rows == [] then []
    else
      var init := Select(rows[..|rows| - 1], keep);
      assert forall e :: e in rows ==> e in rows[..|rows| - 1] || e == rows[|rows| - 1];
      if keep(rows[|rows| - 1]) then init + [rows[|rows| - 1]] else init
  }

  /** `SUM(side)` over the rows `keep` accepts. */
  function Sum(rows: seq<Entry>, keep: Entry -> bool, side: Side): int {
    Total(Select(rows, keep), side)
  }

  // The filters of the journal's queries.

  function InJournal(j: JournalId): Entry -> bool {
    (e: Entry) => e.journalId == j
  }

  /** Rows of journal `j` posted on or before `date`. */
  function PostedBy(j: JournalId, date: Timestamp): Entry -> bool {
    (e: Entry) => e.journalId == j && e.postDate <= date
  }

  /** Rows of journal `j` posted within `[lo, hi]`, both ends included. */
  function PostedWithin(j: JournalId, lo: Timestamp, hi: Timestamp): Entry -> bool {
    (e: Entry) => e.journalId == j && lo <= e.postDate <= hi
  }

  /** Rows of journal `j` whose reference names `o`'s class and key. */
  function ReferencingObject(j: JournalId, o: ModelRef): Entry -> bool {
    (e: Entry) => e.journalId == j && e.refClass == Some(o.cls) && e.refClassId == Some(o.id)
  }

  /** A calendar day as the interval from its first to its last instant. */
  datatype Day = Day(start: Timestamp, end: Timestamp)

  // The balance arithmetic, on the raw table.

  /** The whole-journal balance, including future-dated rows; it is 0 for a
      journal without rows. */
  function BalanceOf(rows: seq<Entry>, j: JournalId): int {
    if |Select(rows, InJournal(j))| > 0 then
      Sum(rows, InJournal(j), CreditSide) - Sum(rows, InJournal(j), DebitSide)
    else 0
  }

  /** The balance over rows posted on or before `date`. */
  function BalanceOn(rows: seq<Entry>, j: JournalId, date: Timestamp): int {
    Sum(rows, PostedBy(j, date), CreditSide) - Sum(rows, PostedBy(j, date), DebitSide)
  }

  /** The line item the private `post` builds before saving it: exactly one side
      set, the money's currency stamped on it, the post date defaulting to the
      clock's `now`. Its id is stamped by the table when it is saved. */
  function Draft(j: JournalId, side: Side, m: Money, memo: Option<string>,
                 postDate: Option<Timestamp>, group: Option<Uuid>, now: Timestamp): (e: Entry)
    ensures e.journalId == j
    ensures e.credit.Some? <==> side == CreditSide
    ensures e.debit.Some? <==> side == DebitSide
    ensures AmountOn(e, side) == m.amount
    ensures AmountOn(e, if side == CreditSide then DebitSide else CreditSide) == 0
    ensures e.currency == m.currency
    ensures e.postDate == (if postDate.Some? then postDate.value else now)
    ensures e.transactionGroup == group && e.memo == memo
    ensures e.tags == [] && e.refClass.None? && e.refClassId.None?
  {
    Entry(
      id := "",
      journalId := j,
      debit := if side == DebitSide then Some(m.amount) else None,
      credit := if side == CreditSide then Some(m.amount) else None,
      currency := m.currency,
      memo := memo,
      postDate := postDate.GetOr(now),
      tags := [],
      refClass := None,
      refClassId := None,
      transactionGroup := group)
  }

  /** What `credit` and `debit` accept: a money value, or a raw integer in the
      journal's own currency. */
  datatype Value = Funds(money: Money) | Cents(cents: int)

  /** An account. Its owner is fixed; its currency, ledger and cached balance are
      fields the code writes. The cached balance is written only by
      `ResetCurrentBalances` and `SetBalance`. */
  class Journal {
    const id: JournalId
    const owner: ModelRef
    var currency: string
    var ledgerId: Option<LedgerId>
    var balance: int

    /** Create the journal; the creation hook resets its cached balance. */
    constructor (id: JournalId, owner: ModelRef, currency: string, ledgerId: Option<LedgerId>, table: EntryTable)
      ensures this.id == id && this.owner == owner
      ensures this.currency == currency && this.ledgerId == ledgerId
      ensures balance == BalanceOf(table.rows, id)
    {
      this.id := id;
      this.owner := owner;
      this.currency := currency;
      this.ledgerId := ledgerId;
      balance := 0;
      new;
      var _ := ResetCurrentBalances(table);
    }

    /** The money a posting value stands for. */
    function Resolve(v: Value): (m: Money)
      reads this
      ensures v.Funds? ==> m == v.money
      ensures v.Cents? ==> m == Money(v.cents, currency)
    {
      match v
      case Funds(money) => money
      case Cents(n) => Money(n, currency)
    }

    /** The cached balance, read through its accessor. */
    function BalanceMoney(): (m: Money)
      reads this
      ensures m.amount == balance && m.currency == currency
    {
      Money(balance, currency)
    }

    /** Write the cached balance through its mutator: only the amount is stored. */
    method SetBalance(v: Value)
      modifies this`balance
      ensures balance == old(Resolve(v)).amount
    {
      balance := Resolve(v).amount;
    }

    method SetCurrency(c: string)
      modifies this`currency
      ensures currency == c
    {
      currency := c;
    }

    method AssignToLedger(l: LedgerId)
      modifies this`ledgerId
      ensures ledgerId == Some(l)
    {
      ledgerId := Some(l);
    }

    /** Recompute the cached balance from the stored rows and return it. */
    method ResetCurrentBalances(table: EntryTable) returns (m: Money)
      modifies this`balance
      ensures balance == BalanceOf(table.rows, id)
      ensures m == Money(balance, currency)
    {
      var b := GetBalance(table);
      balance := b.amount;
      m := BalanceMoney();
    }

    function GetBalance(table: EntryTable): (m: Money)
      reads this, table
      ensures m.amount == Sum(table.rows, InJournal(id), CreditSide) - Sum(table.rows, InJournal(id), DebitSide)
      ensures m.currency == currency
    {
      BalanceIsDifference(table.rows, id);
      Money(BalanceOf(table.rows, id), currency)
    }

    /** The journal's debits posted up to `date`, the date itself included. */
    function GetDebitBalanceOn(table: EntryTable, date: Timestamp): (m: Money)
      reads this, table
      ensures m.amount == Sum(table.rows, PostedBy(id, date), DebitSide)
      ensures m.currency == currency
    {
      Money(Sum(table.rows, PostedBy(id, date), DebitSide), currency)
    }

    /** The journal's credits posted up to `date`, the date itself included. */
    function GetCreditBalanceOn(table: EntryTable, date: Timestamp): (m: Money)
      reads this, table
      ensures m.amount == Sum(table.rows, PostedBy(id, date), CreditSide)
      ensures m.currency == currency
    {
      Money(Sum(table.rows, PostedBy(id, date), CreditSide), currency)
    }

    function GetBalanceOn(table: EntryTable, date: Timestamp): (m: Money)
      reads this, table
      ensures m.amount == GetCreditBalanceOn(table, date).amount - GetDebitBalanceOn(table, date).amount
      ensures m == Money(BalanceOn(table.rows, id, date), currency)
    {
      Money(GetCreditBalanceOn(table, date).amount - GetDebitBalanceOn(table, date).amount, currency)
    }

    /** The balance as of the clock's `now`, leaving out future-dated rows. */
    function GetCurrentBalance(table: EntryTable, now: Timestamp): (m: Money)
      reads this, table
      ensures m == GetBalanceOn(table, now)
    {
      GetBalanceOn(table, now)
    }

    /** Debits posted within `day`, both ends included, in cents: the cumulative
        debit total at the end of the day less the one just before it began. */
    function GetDollarsDebitedOn(table: EntryTable, day: Day): (r: int)
      reads this, table
      ensures day.start <= day.end + 1 ==>
        r == GetDebitBalanceOn(table, day.end).amount - GetDebitBalanceOn(table, day.start - 1).amount
    {
      var r := Sum(table.rows, PostedWithin(id, day.start, day.end), DebitSide);
      if day.start <= day.end + 1 then DayTotalsFromCumulative(table.rows, id, day, DebitSide); r else r
    }

    /** Credits posted within `day`, both ends included, in cents. */
    function GetDollarsCreditedOn(table: EntryTable, day: Day): (r: int)
      reads this, table
      ensures day.start <= day.end + 1 ==>
        r == GetCreditBalanceOn(table, day.end).amount - GetCreditBalanceOn(table, day.start - 1).amount
    {
      var r := Sum(table.rows, PostedWithin(id, day.start, day.end), CreditSide);
      if day.start <= day.end + 1 then DayTotalsFromCumulative(table.rows, id, day, CreditSide); r else r
    }

    /** This journal's rows that reference `o`, in table order. */
    function TransactionsReferencingObjectQuery(table: EntryTable, o: ModelRef): (r: seq<Entry>)
      reads this, table
      ensures forall e :: e in r <==>
        e in table.rows && e.journalId == id && e.refClass == Some(o.cls) && e.refClassId == Some(o.id)
    {
      Select(table.rows, ReferencingObject(id, o))
    }

    /** Post a credit of `v`: exactly one new row on this journal, appended to the
      table; the cached balance is not touched. */
    method Credit(table: EntryTable, v: Value, memo: Option<string>, postDate: Option<Timestamp>,
                  group: Option<Uuid>, freshId: Uuid, now: Timestamp) returns (e: Entry)
      requires table.Valid() && IsFreshId(table.rows, freshId)
      modifies table
      ensures table.Valid()
      ensures e == Draft(id, CreditSide, Resolve(v), memo, postDate, group, now).(id := freshId)
      ensures table.rows == old(table.rows) + [e]
    {
      e := table.Create(Draft(id, CreditSide, Resolve(v), memo, postDate, group, now), freshId);
    }

    /** Post a debit of `v`, symmetric to `Credit`. */
    method Debit(table: EntryTable, v: Value, memo: Option<string>, postDate: Option<Timestamp>,
                 group: Option<Uuid>, freshId: Uuid, now: Timestamp) returns (e: Entry)
      requires table.Valid() && IsFreshId(table.rows, freshId)
      modifies table
      ensures table.Valid()
      ensures e == Draft(id, DebitSide, Resolve(v), memo, postDate, group, now).(id := freshId)
      ensures table.rows == old(table.rows) + [e]
    {
      e := table.Create(Draft(id, DebitSide, Resolve(v), memo, postDate, group, now), freshId);
    }

    /** Credit a whole number of dollars (the integer input of the dollar helper). */
    method CreditDollars(table: EntryTable, dollars: int, memo: Option<string>, postDate: Option<Timestamp>,
                         freshId: Uuid, now: Timestamp) returns (e: Entry)
      requires table.Valid() && IsFreshId(table.rows, freshId)
      modifies table
      ensures table.Valid()
      ensures e == Draft(id, CreditSide, Money(dollars * 100, currency), memo, postDate, None, now).(id := freshId)
      ensures table.rows == old(table.rows) + [e]
    {
      e := Credit(table, Cents(dollars * 100), memo, postDate, None, freshId, now);
    }

    /** Debit a whole number of dollars. */
    method DebitDollars(table: EntryTable, dollars: int, memo: Option<string>, postDate: Option<Timestamp>,
                        freshId: Uuid, now: Timestamp) returns (e: Entry)
      requires table.Valid() && IsFreshId(table.rows, freshId)
      modifies table
      ensures table.Valid()
      ensures e == Draft(id, DebitSide, Money(dollars * 100, currency), memo, postDate, None, now).(id := freshId)
      ensures table.rows == old(table.rows) + [e]
    {
      e := Debit(table, Cents(dollars * 100), memo, postDate, None, freshId, now);
    }
  }

  /** Delete row `k`; the deletion hook makes the owning journal, when it exists,
      recompute its cached balance from the remaining rows. */
  method DeleteEntry(table: EntryTable, k: nat, owner: Journal?)
    requires table.Valid() && k < |table.rows|
    requires owner != null ==> owner.id == table.rows[k].journalId
    modifies table, owner
    ensures table.Valid()
    ensures table.rows == old(table.rows)[..k] + old(table.rows)[k + 1..]
    ensures owner != null ==> owner.balance == BalanceOf(table.rows, owner.id)
    ensures owner != null ==>
      owner.balance == old(BalanceOf(table.rows, owner.id))
        - (old(AmountOn(table.rows[k], CreditSide)) - old(AmountOn(table.rows[k], DebitSide)))
    ensures owner != null ==> owner.currency == old(owner.currency) && owner.ledgerId == old(owner.ledgerId)
  {
    ghost var before := table.rows;
    table.Delete(k);
    if owner != null {
      var _ := owner.ResetCurrentBalances(table);
      DeletionEffect(before, k, owner.id);
    }
  }

  // Lemmas about the sums.

  lemma {:induction false} TotalAppend(a: seq<Entry>, b: seq<Entry>, side: Side)
    ensures Total(a + b, side) == Total(a, side) + Total(b, side)
    decreases |b|
  {
    if b != [] {
      assert (a + b)[..|a + b| - 1] == a + b[..|b| - 1];
      TotalAppend(a, b[..|b| - 1], side);
    } else {
      assert a + b == a;
    }
  }

  lemma {:induction false} SelectAppend(a: seq<Entry>, b: seq<Entry>, keep: Entry -> bool)
    ensures Select(a + b, keep) == Select(a, keep) + Select(b, keep)
    decreases |b|
  {
    if b != [] {
      assert (a + b)[..|a + b| - 1] == a + b[..|b| - 1];
      SelectAppend(a, b[..|b| - 1], keep);
    } else {
      assert a + b == a;
    }
  }

  /** A query over two stretches of rows sums to the sum of the two. */
  lemma SumAppend(a: seq<Entry>, b: seq<Entry>, keep: Entry -> bool, side: Side)
    ensures Sum(a + b, keep, side) == Sum(a, keep, side) + Sum(b, keep, side)
  {
    SelectAppend(a, b, keep);
    TotalAppend(Select(a, keep), Select(b, keep), side);
  }

  /** Peeling the last row off a sum. */
  lemma SumLast(rows: seq<Entry>, keep: Entry -> bool, side: Side)
    requires rows != []
    ensures Sum(rows, keep, side) ==
      Sum(rows[..|rows| - 1], keep, side) + (if keep(rows[|rows| - 1]) then AmountOn(rows[|rows| - 1], side) else 0)
  {
    var init := Select(rows[..|rows| - 1], keep);
    var x := rows[|rows| - 1];
    if keep(x) {
      assert (init + [x])[..|init + [x]| - 1] == init;
    }
  }

  /** A weaker filter selects a sub-multiset of the rows a stronger one selects. */
  lemma {:induction false} SelectMonotone(rows: seq<Entry>, p: Entry -> bool, q: Entry -> bool)
    requires forall e :: p(e) ==> q(e)
    ensures multiset(Select(rows, p)) <= multiset(Select(rows, q))
    decreases |rows|
  {
    if rows != [] {
      SelectMonotone(rows[..|rows| - 1], p, q);
    }
  }

  /** A filter that is the disjoint union of two others sums to their sum. */
  lemma {:induction false} SumSplit(rows: seq<Entry>, p: Entry -> bool, r: Entry -> bool, q: Entry -> bool, side: Side)
    requires forall e :: q(e) <==> p(e) || r(e)
    requires forall e :: !(p(e) && r(e))
    ensures Sum(rows, q, side) == Sum(rows, p, side) + Sum(rows, r, side)
    decreases |rows|
  {
    if rows != [] {
      SumSplit(rows[..|rows| - 1], p, r, q, side);
      SumLast(rows, p, side);
      SumLast(rows, r, side);
      SumLast(rows, q, side);
    }
  }

  // Lemmas about the journal queries.

  /** The row-count branch of the whole-journal balance is redundant: the balance is
      always credits minus debits over the journal's rows, and 0 without rows. */
  lemma BalanceIsDifference(rows: seq<Entry>, j: JournalId)
    ensures BalanceOf(rows, j) == Sum(rows, InJournal(j), CreditSide) - Sum(rows, InJournal(j), DebitSide)
    ensures (forall k :: 0 <= k < |rows| ==> rows[k].journalId != j) ==> BalanceOf(rows, j) == 0
  {
    if forall k :: 0 <= k < |rows| ==> rows[k].journalId != j {
      SelectNone(rows, InJournal(j));
    }
  }

  /** A filter that accepts no row selects nothing. */
  lemma {:induction false} SelectNone(rows: seq<Entry>, keep: Entry -> bool)
    requires forall k :: 0 <= k < |rows| ==> !keep(rows[k])
    ensures Select(rows, keep) == []
    decreases |rows|
  {
    if rows != [] {
      SelectNone(rows[..|rows| - 1], keep);
    }
  }

  /** Moving the query date forward never un-posts a row: the rows counted at `d1`
      are among those counted at `d2`, and the difference of the two balances is
      the balance of the rows posted within `(d1, d2]`. */
  lemma BalanceOnMonotone(rows: seq<Entry>, j: JournalId, d1: Timestamp, d2: Timestamp)
    requires d1 <= d2
    ensures multiset(Select(rows, PostedBy(j, d1))) <= multiset(Select(rows, PostedBy(j, d2)))
    ensures BalanceOn(rows, j, d2) == BalanceOn(rows, j, d1)
      + Sum(rows, PostedWithin(j, d1 + 1, d2), CreditSide) - Sum(rows, PostedWithin(j, d1 + 1, d2), DebitSide)
  {
    SelectMonotone(rows, PostedBy(j, d1), PostedBy(j, d2));
    SumSplit(rows, PostedBy(j, d1), PostedWithin(j, d1 + 1, d2), PostedBy(j, d2), CreditSide);
    SumSplit(rows, PostedBy(j, d1), PostedWithin(j, d1 + 1, d2), PostedBy(j, d2), DebitSide);
  }

  /** A day's debit (or credit) total is the cumulative total at the day's last
      instant less the cumulative total just before its first instant; both ends
      of the day are counted. */
  lemma DayTotalsFromCumulative(rows: seq<Entry>, j: JournalId, day: Day, side: Side)
    requires day.start <= day.end + 1
    ensures Sum(rows, PostedWithin(j, day.start, day.end), side)
      == Sum(rows, PostedBy(j, day.end), side) - Sum(rows, PostedBy(j, day.start - 1), side)
  {
    SumSplit(rows, PostedBy(j, day.start - 1), PostedWithin(j, day.start, day.end), PostedBy(j, day.end), side);
  }

  /** When no row of the journal is dated after `date`, the balance on `date` is the
      whole-journal balance. */
  lemma BalanceOnCoversAll(rows: seq<Entry>, j: JournalId, date: Timestamp)
    requires forall k :: 0 <= k < |rows| && rows[k].journalId == j ==> rows[k].postDate <= date
    ensures BalanceOn(rows, j, date) == BalanceOf(rows, j)
  {
    BalanceIsDifference(rows, j);
    SelectOnRowsAgree(rows, PostedBy(j, date), InJournal(j));
  }

  /** Two filters that agree on every row select the same rows. */
  lemma {:induction false} SelectOnRowsAgree(rows: seq<Entry>, p: Entry -> bool, q: Entry -> bool)
    requires forall k :: 0 <= k < |rows| ==> p(rows[k]) == q(rows[k])
    ensures Select(rows, p) == Select(rows, q)
    decreases |rows|
  {
    if rows != [] {
      SelectOnRowsAgree(rows[..|rows| - 1], p, q);
    }
  }

  /** Appending a row changes only its own journal's balance, by its credit less
      its debit. */
  lemma PostingEffect(rows: seq<Entry>, e: Entry, j: JournalId)
    ensures BalanceOf(rows + [e], j) == BalanceOf(rows, j)
      + (if e.journalId == j then AmountOn(e, CreditSide) - AmountOn(e, DebitSide) else 0)
  {
    BalanceIsDifference(rows, j);
    BalanceIsDifference(rows + [e], j);
    SumAppend(rows, [e], InJournal(j), CreditSide);
    SumAppend(rows, [e], InJournal(j), DebitSide);
    assert [e][..0] == [];
  }

  /** Removing row `k` changes only its own journal's balance, by minus its credit
      less its debit. */
  lemma DeletionEffect(rows: seq<Entry>, k: nat, j: JournalId)
    requires k < |rows|
    ensures BalanceOf(rows[..k] + rows[k + 1..], j) == BalanceOf(rows, j)
      - (if rows[k].journalId == j then AmountOn(rows[k], CreditSide) - AmountOn(rows[k], DebitSide) else 0)
  {
    assert rows == rows[..k] + [rows[k]] + rows[k + 1..];
    BalanceIsDifference(rows, j);
    BalanceIsDifference(rows[..k] + rows[k + 1..], j);
    forall side: Side
      ensures Sum(rows, InJournal(j), side) == Sum(rows[..k] + rows[k + 1..], InJournal(j), side)
        + (if rows[k].journalId == j then AmountOn(rows[k], side) else 0)
    {
      SumAppend(rows[..k] + [rows[k]], rows[k + 1..], InJournal(j), side);
      SumAppend(rows[..k], [rows[k]], InJournal(j), side);
      SumAppend(rows[..k], rows[k + 1..], InJournal(j), side);
      assert [rows[k]][..0] == [];
    }
  }
}
