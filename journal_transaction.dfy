/** One line item of a journal (a journal transaction) and the table that stores them. */
module JournalTransactions {
  import opened Common

  /** A stored line item. `debit`, `credit` and `refClassId` are integers or NULL;
      `tags` is a list of strings, empty when unset; `postDate` is a timestamp. */
  datatype Entry = Entry(
    id: Uuid,
    journalId: JournalId,
    debit: Option<int>,
    credit: Option<int>,
    currency: string,
    memo: Option<string>,
    postDate: Timestamp,
    tags: seq<string>,
    refClass: Option<string>,
    refClassId: Option<int>,
    transactionGroup: Option<Uuid>)
  {
    /** Attach a weak reference to `o`, overwriting any earlier one. */
    function WithReference(o: ModelRef): (r: Entry)
      ensures r.refClass == Some(o.cls) && r.refClassId == Some(o.id)
      ensures r.(refClass := refClass, refClassId := refClassId) == this
    {
      this.(refClass := Some(o.cls), refClassId := Some(o.id))
    }

    /** Change the currency label and nothing else. */
    function WithCurrency(c: string): (r: Entry)
      ensures r.currency == c && r.(currency := currency) == this
    {
      this.(currency := c)
    }

    /** Replace the tag list and nothing else. */
    function WithTags(ts: seq<string>): (r: Entry)
      ensures r.tags == ts && r.(tags := tags) == this
    {
      this.(tags := ts)
    }
  }

  /** A reference is set when the class name is not a PHP-falsy value
      (NULL, the empty string or "0"). */
  predicate HasReference(e: Entry) {
    e.refClass.Some? && e.refClass.value != "" && e.refClass.value != "0"
  }

  /** Resolve the entry's reference through `models`, which maps each loadable class
      name to that class's models by key. No reference gives no object; a class
      the lookup does not know is an error; an unknown key gives no object. */
  function GetReferencedObject<O>(e: Entry, models: map<string, map<int, O>>): (r: Result<Option<O>>)
    ensures !HasReference(e) ==> r == Ok(None)
    ensures r.Err? <==> HasReference(e) && e.refClass.value !in models
    ensures r.Err? ==> r.error == ReferenceResolutionFailure(e.refClass.value)
    ensures r.Ok? && r.value.Some? <==>
      HasReference(e) && e.refClass.value in models && e.refClassId.Some? && e.refClassId.value in models[e.refClass.value]
    ensures r.Ok? && r.value.Some? ==> r.value.value == models[e.refClass.value][e.refClassId.value]
  {
    if !HasReference(e) then Ok(None)
    else if e.refClass.value !in models then Err(ReferenceResolutionFailure(e.refClass.value))
    else if e.refClassId.Some? && e.refClassId.value in models[e.refClass.value] then
      Ok(Some(models[e.refClass.value][e.refClassId.value]))
    else Ok(None)
  }

  /** Setting a reference and reading it back yields the object with that class
      and key; an entry without a reference yields nothing. */
  lemma ReferenceRoundTrip<O>(e: Entry, o: ModelRef, models: map<string, map<int, O>>)
    requires o.cls != "" && o.cls != "0"
    ensures o.cls in models && o.id in models[o.cls] ==>
      GetReferencedObject(e.WithReference(o), models) == Ok(Some(models[o.cls][o.id]))
    ensures o.cls in models && o.id !in models[o.cls] ==>
      GetReferencedObject(e.WithReference(o), models) == Ok(None)
    ensures o.cls !in models ==>
      GetReferencedObject(e.WithReference(o), models) == Err(ReferenceResolutionFailure(o.cls))
    ensures e.refClass.None? ==> GetReferencedObject(e, models) == Ok(None)
  {
  }

  /** A second reference replaces the first. */
  lemma ReferenceOverwrites(e: Entry, a: ModelRef, b: ModelRef)
    ensures e.WithReference(a).WithReference(b) == e.WithReference(b)
  {
  }

  /** No two rows share an id. */
  ghost predicate IdsDistinct(rows: seq<Entry>) {
    forall a, b :: 0 <= a < b < |rows| ==> rows[a].id != rows[b].id
  }

  /** `id` is not the id of any row. */
  ghost predicate IsFreshId(rows: seq<Entry>, id: Uuid) {
    forall k :: 0 <= k < |rows| ==> rows[k].id != id
  }

  /** The table of line items, in insertion order. */
  class EntryTable {
    var rows: seq<Entry>

    ghost predicate Valid()
      reads this
    {
      IdsDistinct(rows)
    }

    constructor ()
      ensures Valid() && rows == []
    {
      rows := [];
    }

    /** Save a new line item; the creation hook stamps it with the fresh id. */
    method Create(draft: Entry, freshId: Uuid) returns (e: Entry)
      requires Valid() && IsFreshId(rows, freshId)
      modifies this
      ensures Valid()
      ensures e == draft.(id := freshId)
      ensures rows == old(rows) + [e]
    {
      e := draft.(id := freshId);
      rows := rows + [e];
    }

    /** Persist a reference to `o` on row `k`. */
    method ReferencesObject(k: nat, o: ModelRef) returns (e: Entry)
      requires Valid() && k < |rows|
      modifies this
      ensures Valid()
      ensures e == old(rows)[k].WithReference(o)
      ensures rows == old(rows)[k := e]
    {
      e := rows[k].WithReference(o);
      rows := rows[k := e];
    }

    /** Persist a tag list on row `k`. */
    method UpdateTags(k: nat, ts: seq<string>) returns (e: Entry)
      requires Valid() && k < |rows|
      modifies this
      ensures Valid()
      ensures e == old(rows)[k].WithTags(ts)
      ensures rows == old(rows)[k := e]
    {
      e := rows[k].WithTags(ts);
      rows := rows[k := e];
    }

    /** Remove row `k`. */
    method Delete(k: nat)
      requires Valid() && k < |rows|
      modifies this
      ensures Valid()
      ensures rows == old(rows)[..k] + old(rows)[k + 1..]
    {
      rows := rows[..k] + rows[k + 1..];
    }

    /** Undo every write since `snapshot` was taken. */
    method Rollback(snapshot: seq<Entry>)
      requires IdsDistinct(snapshot)
      modifies this
      ensures Valid() && rows == snapshot
    {
      rows := snapshot;
    }
  }
}
