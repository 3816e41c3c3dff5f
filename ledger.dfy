/** Ledgers: named groups of journals whose balance aggregates every line item of
    every member journal, signed by the ledger's type. */
module Ledgers {
  import opened Common
  import opened LedgerTypes
  import opened JournalTransactions
  import opened Journals

  /** A ledger row. Its type is a free string column (the enum is not enforced). */
  datatype Ledger = Ledger(id: LedgerId, name: string, ledgerType: string)

  /** Which ledger, if any, each journal belongs to (the journals' `ledger_id`). */
  type Assignment = map<JournalId, Option<LedgerId>>

  /** No two of the journals share an id (the journals' primary key). */
  ghost predicate JournalIdsDistinct(js: seq<Journal>)
    reads js
  {
    forall a, b :: 0 <= a < b < |js| ==> js[a].id != js[b].id
  }

  /** The assignment the journals' own `ledger_id` fields make: each journal's id
      maps to its ledger, and no other id is assigned. */
  function AssignmentOf(js: seq<Journal>): (m: Assignment)
    requires JournalIdsDistinct(js)
    reads js
    ensures forall k :: 0 <= k < |js| ==> js[k].id in m && m[js[k].id] == js[k].ledgerId
    ensures forall j :: j in m ==> exists k :: 0 <= k < |js| && js[k].id == j
    decreases |js|
  {
    if js == [] then map[]
    else
      var n := |js| - 1;
      assert forall k :: 0 <= k < n ==> js[..n][k] == js[k];
      AssignmentOf(js[..n])[js[n].id := js[n].ledgerId]
  }

  /** Rows of journals that belong to ledger `l`. */
  function InLedger(ledgerOf: Assignment, l: LedgerId): Entry -> bool {
    (e: Entry) => e.journalId in ledgerOf && ledgerOf[e.journalId] == Some(l)
  }

  /** The ledger's line items through its journals, in table order: a row is among
      them exactly when its journal is assigned to this ledger. */
  function LedgerEntries(l: Ledger, ledgerOf: Assignment, rows: seq<Entry>): (r: seq<Entry>)
    ensures forall e :: e in r <==> e in rows && e.journalId in ledgerOf && ledgerOf[e.journalId] == Some(l.id)
    ensures |r| <= |rows|
  {
    Select(rows, InLedger(ledgerOf, l.id))
  }

  /** Over the assignment the journals make, a ledger's line items are the rows of
      the journals whose `ledger_id` is this ledger: assigning a journal to the
      ledger (or away from it) is what moves its rows in (or out). */
  lemma LedgerSeesJournalLedgerIds(l: Ledger, js: seq<Journal>, rows: seq<Entry>, e: Entry)
    requires JournalIdsDistinct(js)
    ensures e in LedgerEntries(l, AssignmentOf(js), rows) <==>
      e in rows && exists k :: 0 <= k < |js| && js[k].id == e.journalId && js[k].ledgerId == Some(l.id)
  {
    var m := AssignmentOf(js);
    if e in rows && e.journalId in m && m[e.journalId] == Some(l.id) {
      var k :| 0 <= k < |js| && js[k].id == e.journalId;
      assert js[k].ledgerId == Some(l.id);
    }
  }

  /** Total debits less total credits. */
  function DebitsLessCredits(rs: seq<Entry>): int {
    Total(rs, DebitSide) - Total(rs, CreditSide)
  }

  /** The ledger balance as the code computes it: only the type strings "asset" and
      "expense" are signed debit-minus-credit; every other string, "loss" included,
      is signed credit-minus-debit. The result carries the requested currency. */
  function CurrentBalance(l: Ledger, ledgerOf: Assignment, rows: seq<Entry>, currency: string): (m: Money)
    ensures m.currency == currency
  {
    var rs := LedgerEntries(l, ledgerOf, rows);
    var amount := if l.ledgerType == "asset" || l.ledgerType == "expense" then DebitsLessCredits(rs)
                  else -DebitsLessCredits(rs);
    Money(amount, currency)
  }

  /** The balance signed by the type's normal side, as the ledger type defines it:
      debit-normal types are debits minus credits, credit-normal ones the reverse. */
  function NormalBalance(t: LedgerType, l: Ledger, ledgerOf: Assignment, rows: seq<Entry>, currency: string): (m: Money)
    ensures m.currency == currency
    ensures IsDebitNormal(t) ==> m.amount == DebitsLessCredits(LedgerEntries(l, ledgerOf, rows))
    ensures IsCreditNormal(t) ==> m.amount == -DebitsLessCredits(LedgerEntries(l, ledgerOf, rows))
  {
    NormalSidesPartition(t);
    var rs := LedgerEntries(l, ledgerOf, rows);
    Money(if IsDebitNormal(t) then DebitsLessCredits(rs) else -DebitsLessCredits(rs), currency)
  }

  /** The corrected ledger balance: a type string naming a ledger type is signed by
      that type's normal side; any other string keeps the credit-minus-debit default. */
  function CorrectedCurrentBalance(l: Ledger, ledgerOf: Assignment, rows: seq<Entry>, currency: string): (m: Money)
    ensures m.currency == currency
    ensures TryFrom(l.ledgerType).Some? ==> m == NormalBalance(TryFrom(l.ledgerType).value, l, ledgerOf, rows, currency)
    ensures TryFrom(l.ledgerType).None? ==> m.amount == -DebitsLessCredits(LedgerEntries(l, ledgerOf, rows))
  {
    match TryFrom(l.ledgerType)
    case Some(t) => NormalBalance(t, l, ledgerOf, rows, currency)
    case None => Money(-DebitsLessCredits(LedgerEntries(l, ledgerOf, rows)), currency)
  }

  /** A lower-case word with its first letter made upper-case. */
  function Capitalized(w: string): (c: string)
    requires |w| > 0 && 'a' <= w[0] <= 'z'
    ensures |c| == |w| && 'A' <= c[0] <= 'Z' && c[1..] == w[1..]
  {
    [(w[0] as int - 32) as char] + w[1..]
  }

  /** The options list the ledger offers for its type, in display order: each key
      with its label, the key capitalised. */
  function TypeOptions(): (opts: seq<(string, string)>)
    ensures |opts| == 5
    ensures forall i :: 0 <= i < |opts| ==>
      |opts[i].0| > 0 && 'a' <= opts[i].0[0] <= 'z' && opts[i].1 == Capitalized(opts[i].0)
    ensures forall i, j :: 0 <= i < j < |opts| ==> opts[i].0 != opts[j].0
  {
    [("asset", "Asset"), ("liability", "Liability"), ("equity", "Equity"),
     ("income", "Income"), ("expense", "Expense")]
  }

  /** The keys of an options list, in order. */
  function OptionKeys(opts: seq<(string, string)>): (ks: seq<string>)
    ensures |ks| == |opts| && forall i :: 0 <= i < |opts| ==> ks[i] == opts[i].0
  {
    seq(|opts|, i requires 0 <= i < |opts| => opts[i].0)
  }

  // Lemmas about ledger balances.

  /** Over the same rows, an asset ledger's balance is minus a liability ledger's. */
  lemma AssetIsNegatedLiability(id: LedgerId, n1: string, n2: string, ledgerOf: Assignment, rows: seq<Entry>,
                                currency: string)
    ensures CurrentBalance(Ledger(id, n1, "asset"), ledgerOf, rows, currency).amount
         == -CurrentBalance(Ledger(id, n2, "liability"), ledgerOf, rows, currency).amount
  {
  }

  /** The code's sign agrees with the type's normal side for every ledger type but
      one: for "loss" it is the opposite. */
  lemma PolarityMatchesNormalSideExceptLoss(t: LedgerType, l: Ledger, ledgerOf: Assignment, rows: seq<Entry>,
                                            currency: string)
    requires l.ledgerType == LedgerTypes.Value(t)
    ensures t != LOSS ==> CurrentBalance(l, ledgerOf, rows, currency) == NormalBalance(t, l, ledgerOf, rows, currency)
    ensures t == LOSS ==>
      CurrentBalance(l, ledgerOf, rows, currency).amount == -NormalBalance(t, l, ledgerOf, rows, currency).amount
  {
  }

  /** The correction changes the balance of "loss" ledgers only, and there it flips
      the sign. */
  lemma CorrectionOnlyAffectsLoss(l: Ledger, ledgerOf: Assignment, rows: seq<Entry>, currency: string)
    ensures l.ledgerType != "loss" ==>
      CorrectedCurrentBalance(l, ledgerOf, rows, currency) == CurrentBalance(l, ledgerOf, rows, currency)
    ensures l.ledgerType == "loss" ==>
      CorrectedCurrentBalance(l, ledgerOf, rows, currency).amount == -CurrentBalance(l, ledgerOf, rows, currency).amount
  {
    var vs := Values();
    match TryFrom(l.ledgerType)
    case Some(t) =>
      PolarityMatchesNormalSideExceptLoss(t, l, ledgerOf, rows, currency);
    case None =>
      assert l.ledgerType !in vs;
  }

  /** A debit of 500 cents on the only journal of a "loss" ledger: the code reports
      -500, while a debit-normal loss account stands at 500. */
  lemma LossLedgerCounterexample()
    ensures var rows := [Draft(1, DebitSide, Money(500, "USD"), None, None, None, 0)];
            var l := Ledger(7, "Losses", "loss");
            CurrentBalance(l, map[1 := Some(7)], rows, "USD").amount == -500
            && CorrectedCurrentBalance(l, map[1 := Some(7)], rows, "USD").amount == 500
  {
    var row := Draft(1, DebitSide, Money(500, "USD"), None, None, None, 0);
    var rows := [row];
    var l := Ledger(7, "Losses", "loss");
    var keep := InLedger(map[1 := Some(7)], 7);
    assert keep(row);
    assert rows[..0] == [];
    assert Select([], keep) == [];
    assert LedgerEntries(l, map[1 := Some(7)], rows) == rows;
    assert Total([], DebitSide) == 0 && Total([], CreditSide) == 0;
    assert Total(rows, DebitSide) == 500 && Total(rows, CreditSide) == 0;
    assert DebitsLessCredits(LedgerEntries(l, map[1 := Some(7)], rows)) == 500;
    assert TryFrom("loss") == Some(LOSS);
  }

  /** The corrected balance rises by the amount of a new line item on the type's
      normal side, posted to one of the ledger's journals. */
  lemma {:induction false} CorrectedRisesOnNormalSide(t: LedgerType, l: Ledger, ledgerOf: Assignment,
                                                      rows: seq<Entry>, currency: string, e: Entry, a: int)
    requires l.ledgerType == LedgerTypes.Value(t)
    requires e.journalId in ledgerOf && ledgerOf[e.journalId] == Some(l.id)
    requires IsDebitNormal(t) ==> e.debit == Some(a) && e.credit.None?
    requires IsCreditNormal(t) ==> e.credit == Some(a) && e.debit.None?
    ensures CorrectedCurrentBalance(l, ledgerOf, rows + [e], currency).amount
         == CorrectedCurrentBalance(l, ledgerOf, rows, currency).amount + a
  {
    ValueRoundTrip(t);
    NormalSidesPartition(t);
    SumAppend(rows, [e], InLedger(ledgerOf, l.id), DebitSide);
    SumAppend(rows, [e], InLedger(ledgerOf, l.id), CreditSide);
    assert [e][..0] == [];
  }

  // Decomposition into member journals.

  /** Rows of any journal in `js`. */
  function InJournals(js: seq<JournalId>): Entry -> bool {
    (e: Entry) => e.journalId in js
  }

  /** The sum of the whole-journal balances of the journals `js`. */
  function JournalsBalance(rows: seq<Entry>, js: seq<JournalId>): int
    decreases |js|
  {
    if js == [] then 0 else JournalsBalance(rows, js[..|js| - 1]) + BalanceOf(rows, js[|js| - 1])
  }

  ghost predicate Distinct(js: seq<JournalId>) {
    forall a, b :: 0 <= a < b < |js| ==> js[a] != js[b]
  }

  /** Credits less debits over the rows of distinct journals `js` is the sum of
      their balances. */
  lemma {:induction false} SumOverJournals(rows: seq<Entry>, js: seq<JournalId>)
    requires Distinct(js)
    ensures Sum(rows, InJournals(js), CreditSide) - Sum(rows, InJournals(js), DebitSide) == JournalsBalance(rows, js)
    decreases |js|
  {
    if js == [] {
      SelectNone(rows, InJournals(js));
    } else {
      var n := |js| - 1;
      SumOverJournals(rows, js[..n]);
      assert js == js[..n] + [js[n]];
      assert js[n] !in js[..n];
      SumSplit(rows, InJournals(js[..n]), InJournal(js[n]), InJournals(js), CreditSide);
      SumSplit(rows, InJournals(js[..n]), InJournal(js[n]), InJournals(js), DebitSide);
      BalanceIsDifference(rows, js[n]);
    }
  }

  /** A ledger's balance is the sum of its member journals' balances, negated for
      the "asset" and "expense" types: the ledger sees exactly the rows of its
      journals, each once. */
  lemma LedgerBalanceIsSumOfJournals(l: Ledger, ledgerOf: Assignment, rows: seq<Entry>, currency: string,
                                     js: seq<JournalId>)
    requires Distinct(js)
    requires forall j :: j in js <==> j in ledgerOf && ledgerOf[j] == Some(l.id)
    ensures l.ledgerType == "asset" || l.ledgerType == "expense" ==>
      CurrentBalance(l, ledgerOf, rows, currency).amount == -JournalsBalance(rows, js)
    ensures l.ledgerType != "asset" && l.ledgerType != "expense" ==>
      CurrentBalance(l, ledgerOf, rows, currency).amount == JournalsBalance(rows, js)
  {
    forall k | 0 <= k < |rows|
      ensures InLedger(ledgerOf, l.id)(rows[k]) == InJournals(js)(rows[k])
    {
      assert rows[k].journalId in js <==> rows[k].journalId in ledgerOf && ledgerOf[rows[k].journalId] == Some(l.id);
    }
    SelectOnRowsAgree(rows, InLedger(ledgerOf, l.id), InJournals(js));
    SumOverJournals(rows, js);
  }

  /** The type options offer exactly four of the seven ledger types, in the order
      asset, liability, equity, expense, with "income" fourth, which names no ledger
      type ("revenue", "gain" and "loss" are not offered). */
  lemma TypeOptionsDisagreeWithLedgerTypes(t: LedgerType)
    ensures LedgerTypes.Value(t) in OptionKeys(TypeOptions()) <==> t in {ASSET, LIABILITY, EQUITY, EXPENSE}
    ensures OptionKeys(TypeOptions()) == ["asset", "liability", "equity", "income", "expense"]
    ensures "income" !in Values()
  {
    assert OptionKeys(TypeOptions()) == ["asset", "liability", "equity", "income", "expense"];
  }
}
