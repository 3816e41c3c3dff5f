/** The closed set of account classifications and their normal-balance sides. */
module LedgerTypes {
  import opened Common

  datatype LedgerType = ASSET | LIABILITY | EQUITY | REVENUE | EXPENSE | GAIN | LOSS

  /** The backing string of each case: a non-empty lower-case word, the spelling
      the ledger's type column is compared against. */
  function Value(t: LedgerType): (s: string)
    ensures |s| > 0 && forall i :: 0 <= i < |s| ==> 'a' <= s[i] <= 'z'
  {
    match t
    case ASSET => "asset"
    case LIABILITY => "liability"
    case EQUITY => "equity"
    case REVENUE => "revenue"
    case EXPENSE => "expense"
    case GAIN => "gain"
    case LOSS => "loss"
  }

  /** The cases in declaration order. */
  const Cases: seq<LedgerType> := [ASSET, LIABILITY, EQUITY, REVENUE, EXPENSE, GAIN, LOSS]

  /** The backing value of every case, in declaration order. */
  function Values(): (vs: seq<string>)
    ensures |vs| == |Cases| == 7
    ensures forall i :: 0 <= i < |vs| ==> vs[i] == Value(Cases[i])
    ensures forall i, j :: 0 <= i < j < |vs| ==> vs[i] != vs[j]
    ensures vs == ["asset", "liability", "equity", "revenue", "expense", "gain", "loss"]
  {
    seq(|Cases|, i requires 0 <= i < |Cases| => Value(Cases[i]))
  }

  /** The case whose backing value is `s`, if there is one (the enum's `tryFrom`). */
  function TryFrom(s: string): (r: Option<LedgerType>)
    ensures r.Some? ==> Value(r.value) == s
    ensures r.None? ==> s !in Values()
  {
    if s == "asset" then Some(ASSET)
    else if s == "liability" then Some(LIABILITY)
    else if s == "equity" then Some(EQUITY)
    else if s == "revenue" then Some(REVENUE)
    else if s == "expense" then Some(EXPENSE)
    else if s == "gain" then Some(GAIN)
    else if s == "loss" then Some(LOSS)
    else None
  }

  /** Every case is listed by `Cases`, and reading a case's value back gives the case. */
  lemma ValueRoundTrip(t: LedgerType)
    ensures t in Cases
    ensures TryFrom(Value(t)) == Some(t)
  {
  }

  /** The case-to-value mapping is injective. */
  lemma ValueInjective(a: LedgerType, b: LedgerType)
    ensures Value(a) == Value(b) <==> a == b
  {
  }

  /** Whether the type's balance normally sits on the debit side. */
  predicate IsDebitNormal(t: LedgerType): (b: bool)
    ensures b <==> t == ASSET || t == EXPENSE || t == LOSS
  {
    t in [ASSET, EXPENSE, LOSS]
  }

  /** Whether the type's balance normally sits on the credit side. */
  predicate IsCreditNormal(t: LedgerType): (b: bool)
    ensures b <==> t == LIABILITY || t == EQUITY || t == REVENUE || t == GAIN
  {
    t in [LIABILITY, EQUITY, REVENUE, GAIN]
  }

  /** The two sides partition the cases: each case is normal on exactly one side. */
  lemma NormalSidesPartition(t: LedgerType)
    ensures IsDebitNormal(t) != IsCreditNormal(t)
  {
  }
}
