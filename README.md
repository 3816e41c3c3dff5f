# Double-entry bookkeeping engine, modelled in Dafny

This project models the core of a double-entry bookkeeping engine for PHP applications.

- **Journal.** An account. It belongs to one owning model of the application and optionally to a ledger, and it caches a balance.
- **Journal transaction.** A line item of a journal, shortened to "entry" below. It has a debit XOR a credit amount, a currency label, a memo, a post date, tags, an optional weak reference to another model, and a group id.
- **Staging class.** A caller stages postings against journals ("credit" or "debit" plus a positive amount). `commit` checks that the staged credit total equals the staged debit total. Then, inside one atomic scope, it turns every staged posting into an entry carrying a shared group id. If anything fails inside the scope, it rolls back.
  - Two revisions of the staging class exist: `Transaction` (current) and `Accounting` (older). The older one also stages tags and is meant to write them onto the posted entries (see Findings for the code as written).
- **Ledger.** A ledger groups journals. Its balance aggregates every entry of every member journal, signed by the ledger's type.
- **Ledger type.** A closed set of seven cases, each normal on the debit or on the credit side.

Modules, one per source file:

| module | file | models |
|---|---|---|
| `Common` | common.dfy | options, money as (amount in cents, currency code), weak model references, the error kinds |
| `LedgerTypes` | ledger_type.dfy | `src/Enums/LedgerType.php` |
| `JournalTransactions` | journal_transaction.dfy | `src/Models/JournalTransaction.php`; the entry table as the class `EntryTable` |
| `Journals` | journal.dfy | `src/Models/Journal.php`; balance queries as sums over the entry table |
| `DoubleEntry` | double_entry.dfy | what a commit means, shared by both staging revisions: totals, posted rows, result, table after the commit |
| `Transactions` | transaction.dfy | `src/Transaction.php` |
| `AccountingService` | accounting.dfy | `src/Services/Accounting.php` |
| `Ledgers` | ledger.dfy | `src/Models/Ledger.php` |
| `AccountingJournals` | accounting_journal.dfy | `src/ModelTraits/AccountingJournal.php` |

How the model represents the engine:

- **Storage.**
  - The entries table is an object, `JournalTransactions.EntryTable`, holding a sequence of `Entry` values.
  - A journal is an object, `Journals.Journal`. Its id and owner never change; its currency, ledger and cached balance are fields.
  - Posting changes the table only. So a commit, successful or not, leaves every journal's cached balance unchanged. The frame (`modifies table`) states this.
- **Atomic scope.**
  - The commit methods implement rollback on a saved snapshot of the table.
  - A failure inside the scope is a parameter `fault`: the posting step that throws, and its message. A step equal to the number of postings stands for the final database commit throwing.
- **Non-determinism.** The fresh group id, the fresh entry ids and the clock's `now` are parameters too.

Sign convention:

- A journal's balance is credits minus debits, as `src/Models/Journal.php:130` and `src/Models/Journal.php:147` compute it.
- The comment at tests/Unit/Services/TransactionTest.php:173-175 contradicts itself. Line 174 says credits increase the balance, which is credits minus debits. Line 175 claims the balance is `sum('debit') - sum('credit')`. The assertions at lines 176-177 expect credits minus debits.
- Ledger balances are signed by type (see Findings).

Posting and the cached balance:

- `post` only saves the entry (`src/Models/Journal.php:275-294`). The cache is recomputed when the journal is created, when an entry is deleted, and by `resetCurrentBalances`.
- tests/Unit/Services/TransactionTest.php:168-176 expects the cached balances to have moved after a commit. No hook among the modelled files writes them on posting, so the model follows the code.

## Model

| member | source | states |
|---|---|---|
| LedgerTypes.Value | src/Enums/LedgerType.php:18-60 | each case's backing value is a non-empty lower-case word |
| LedgerTypes.Values | src/Enums/LedgerType.php:67-70 | exactly seven values, in declaration order, pairwise distinct, the i-th being the backing value of the i-th case |
| LedgerTypes.TryFrom | src/Enums/LedgerType.php:18-60 | a found case has exactly that backing value; no case is found only for a string that is not among the values |
| LedgerTypes.ValueRoundTrip | src/Enums/LedgerType.php:18-60 | every case is listed, and looking up its backing value gives the case back |
| LedgerTypes.ValueInjective | src/Enums/LedgerType.php:18-60 | two cases have the same backing value iff they are the same case |
| LedgerTypes.IsDebitNormal | src/Enums/LedgerType.php:77-84 | a type is debit-normal iff it is asset, expense or loss |
| LedgerTypes.IsCreditNormal | src/Enums/LedgerType.php:91-99 | a type is credit-normal iff it is liability, equity, revenue or gain |
| LedgerTypes.NormalSidesPartition | src/Enums/LedgerType.php:77-99 | every case is normal on exactly one side: never on both, never on neither |
| JournalTransactions.Entry.WithReference | src/Models/JournalTransaction.php:58-66 | the reference gets the object's class and key, and every other field is unchanged |
| JournalTransactions.Entry.WithCurrency | src/Models/JournalTransaction.php:78-81 | the currency label is replaced and nothing else changes |
| JournalTransactions.Entry.WithTags | src/Services/Accounting.php:113-116 | the tag list is replaced and nothing else changes |
| JournalTransactions.GetReferencedObject | src/Models/JournalTransaction.php:68-76 | a row without a reference class resolves to nothing; an unknown class is a resolution error naming it; otherwise the object is found iff the lookup holds the stored key, and it is the object stored under that key |
| JournalTransactions.ReferenceRoundTrip | src/Models/JournalTransaction.php:68-76 | reading back a reference just set gives that object when the lookup knows the class and key, nothing for an unknown key, and a resolution error for an unknown class; no reference reads back as nothing |
| JournalTransactions.ReferenceOverwrites | src/Models/JournalTransaction.php:58-66 | a second reference replaces the first |
| JournalTransactions.EntryTable.constructor | src/Models/JournalTransaction.php:13 | the entries table starts empty |
| JournalTransactions.EntryTable.Create | src/Models/JournalTransaction.php:44-46 | saving appends exactly the draft stamped with a fresh id, and ids stay distinct |
| JournalTransactions.EntryTable.ReferencesObject | src/Models/JournalTransaction.php:58-66 | only the chosen row changes, and it gets the reference |
| JournalTransactions.EntryTable.UpdateTags | src/Services/Accounting.php:113-116 | only the chosen row changes, and it gets the tags |
| JournalTransactions.EntryTable.Delete | src/Models/JournalTransaction.php:48-50 | deleting a row removes exactly that row, keeping the others in order, and ids stay distinct |
| JournalTransactions.EntryTable.Rollback | src/Transaction.php:97-98 | the table is restored to the snapshot taken before the atomic scope |
| Journals.Draft | src/Models/Journal.php:275-294 | the new entry has exactly one side set, to the amount; the other side is zero; it carries the money's currency, the memo and group id, and the post date or else the clock's now; it has no tags and no reference |
| Journals.Journal.constructor | src/Models/Journal.php:47-55 | a new journal has the given id, owner, currency and ledger, and the creation hook sets its cached balance to the balance of the stored rows |
| Journals.Journal.Resolve | src/Models/Journal.php:179-181 | a money value is used as is; a raw integer is taken in the journal's own currency |
| Journals.Journal.BalanceMoney | src/Models/Journal.php:82-85 | the cached balance is read as money in the journal's currency |
| Journals.Journal.SetBalance | src/Models/Journal.php:90-96 | only the amount of the given value is stored as the cached balance |
| Journals.Journal.SetCurrency | src/Models/Journal.php:57-60 | the currency becomes the given one, and no other field changes |
| Journals.Journal.AssignToLedger | src/Models/Journal.php:62-65 | the journal's ledger becomes the given one, and no other field changes |
| Journals.Journal.ResetCurrentBalances | src/Models/Journal.php:72-77 | the cached balance becomes the balance of the stored rows (so recomputing twice equals recomputing once); the value returned is the new balance |
| Journals.Journal.GetBalance | src/Models/Journal.php:144-153 | the balance is credits minus debits over the journal's rows, in the journal's currency |
| Journals.BalanceIsDifference | src/Models/Journal.php:144-153 | the row-count branch is redundant: the balance is always credits minus debits, and 0 for a journal without rows |
| Journals.Journal.GetDebitBalanceOn | src/Models/Journal.php:101-106 | the amount is the sum of the debits of this journal's rows posted at or before the date, the date included, in the journal's currency |
| Journals.Journal.GetCreditBalanceOn | src/Models/Journal.php:119-123 | the amount is the sum of the credits of this journal's rows posted at or before the date, the date included, in the journal's currency |
| Journals.Journal.GetBalanceOn | src/Models/Journal.php:128-131 | the balance on a date is the credit total up to the date minus the debit total up to the date |
| Journals.BalanceOnMonotone | src/Models/Journal.php:119-131 | moving the date forward never drops a row from the balance, and the change is the balance of the rows posted in between |
| Journals.BalanceOnCoversAll | src/Models/Journal.php:128-153 | without future-dated rows, the balance on a date equals the whole-journal balance |
| Journals.Journal.GetCurrentBalance | src/Models/Journal.php:136-139 | the current balance is the balance on the clock's now |
| Journals.Journal.GetDollarsDebitedOn | src/Models/Journal.php:248-257 | a day's debits, both ends of the day counted, equal the cumulative debits at its end less those just before its start |
| Journals.Journal.GetDollarsCreditedOn | src/Models/Journal.php:264-273 | the same for credits |
| Journals.DayTotalsFromCumulative | src/Models/Journal.php:248-273 | a day's total is the difference of two cumulative totals |
| Journals.Journal.TransactionsReferencingObjectQuery | src/Models/Journal.php:108-114 | a row is returned iff it belongs to this journal and references the object's class and key |
| Journals.Journal.Credit | src/Models/Journal.php:173-183 | appends exactly one credit row for this journal, and changes nothing else in the table |
| Journals.Journal.Debit | src/Models/Journal.php:185-195 | appends exactly one debit row for this journal, and changes nothing else in the table |
| Journals.Journal.CreditDollars | src/Models/Journal.php:204-208 | a whole number of dollars is credited as that many hundred cents in the journal's currency, with no group |
| Journals.Journal.DebitDollars | src/Models/Journal.php:217-221 | a whole number of dollars is debited as that many hundred cents in the journal's currency, with no group |
| Journals.PostingEffect | src/Models/Journal.php:275-294 | a new row moves only its own journal's balance, by its credit less its debit |
| Journals.DeleteEntry | src/Models/JournalTransaction.php:48-50 | deleting a row removes exactly that row; the owning journal's cached balance becomes the balance of the remaining rows, which is the old balance less the row's credit minus debit |
| Journals.DeletionEffect | src/Models/JournalTransaction.php:48-50 | removing a row moves only its own journal's balance, by minus its credit less its debit |
| DoubleEntry.PostedShape | src/Transaction.php:81-91 | row k of a commit is posting k on its journal: the amount on the posting's side, nothing on the other side, the posting's currency, the group id, the k-th fresh id |
| DoubleEntry.PostedTotals | src/Transaction.php:81-92 | the posted rows carry exactly the staged credit and debit totals |
| DoubleEntry.CommitSucceedsIffBalanced | src/Transaction.php:73-103 | without a storage failure, a commit succeeds iff staged credits equal staged debits; on success it returns the group id; otherwise it fails and reports both totals |
| DoubleEntry.EmptyCommit | src/Transaction.php:105-123 | a commit with nothing staged passes the balance check, returns the group id and writes nothing |
| DoubleEntry.FaultedCommitRollsBack | src/Transaction.php:97-101 | a balanced group whose fault strikes fails with the rollback prefix followed by the cause's message, and leaves the table as it was |
| DoubleEntry.CommitAllOrNothing | src/Transaction.php:77-102 | a failed commit leaves the table exactly as it was; a successful one appends one row per posting, with equal credit and debit totals, so the table's credits-minus-debits is unchanged |
| DoubleEntry.CommitGroupExact | src/Transaction.php:78-95 | with an unused group id, the rows carrying the returned id are exactly the rows the commit posted, in staging order |
| DoubleEntry.CommitJournalEffect | src/Transaction.php:81-92 | a successful commit moves each journal's balance by exactly the net of the postings staged on it |
| Transactions.Transaction.NewDoubleEntryTransactionGroup | src/Transaction.php:24-27 | a new group has nothing pending |
| Transactions.Transaction.AddTransaction | src/Transaction.php:29-53 | a method other than "credit"/"debit" is rejected first; then an amount of zero or less is rejected; a rejected posting stages nothing; an accepted one is appended as given |
| Transactions.Transaction.AddDollarTransaction | src/Transaction.php:55-66 | whole dollars are staged as that many hundred cents in USD, with the same checks |
| Transactions.Transaction.GetTransactionsPending | src/Transaction.php:68-71 | the pending list, exactly as staged |
| Transactions.Transaction.VerifyTransactionCreditsEqualDebits | src/Transaction.php:105-123 | passes iff the loop's credit total (records whose method is "credit") equals its debit total (all other records); otherwise fails with both totals |
| Transactions.Transaction.Commit | src/Transaction.php:73-103 | the balance check runs before any write and an unbalanced group writes nothing; the result and the table afterwards are those of the commit specification above; the ids stay distinct; the pending list is kept |
| Transactions.PostAll | src/Transaction.php:77-102 | inside the atomic scope: when the fault strikes, at a posting step or at the final database commit, the result is the rollback error with the cause's message and the table is as before; otherwise the group id is returned and exactly the posted rows are appended, in staging order |
| Transactions.PostStep | src/Transaction.php:81-91 | one loop iteration extends the posted prefix by exactly the next posting's row, keeping ids distinct |
| Transactions.ApplyPosting | src/Transaction.php:81-91 | one loop step appends exactly the row the specification assigns to the posting |
| AccountingService.Accounting.NewDoubleEntryTransactionGroup | src/Services/Accounting.php:25-28 | a new group has nothing pending |
| AccountingService.Accounting.AddTransaction | src/Services/Accounting.php:42-69 | the same checks in the same order; an accepted posting is appended with its tags |
| AccountingService.Accounting.AddDollarTransaction | src/Services/Accounting.php:81-92 | whole dollars are staged as that many hundred cents in USD, without tags |
| AccountingService.Accounting.GetTransactionsPending | src/Services/Accounting.php:94-97 | the pending list, exactly as staged |
| AccountingService.Accounting.VerifyTransactionCreditsEqualDebits | src/Services/Accounting.php:132-148 | passes iff the credit total equals the debit total; otherwise fails with both totals |
| AccountingService.Accounting.Commit | src/Services/Accounting.php:99-127 | the balance check runs before any write; the result and the table afterwards follow the commit specification, including the tags written on every row whose posting staged some |
| AccountingService.PostAllTagged | src/Services/Accounting.php:102-126 | the atomic scope as in the current revision: all of the posted rows, tags included, or on a fault the rollback error and the table as before |
| AccountingService.PostTaggedStep | src/Services/Accounting.php:107-116 | one loop iteration extends the posted prefix by exactly the next posting's row, keeping ids distinct |
| AccountingService.ApplyTaggedPosting | src/Services/Accounting.php:107-117 | one loop step appends exactly the posting's row, with its reference and its tags |
| AccountingService.UndefinedTagStep | src/Services/Accounting.php:113-116 | as written, the tag step throws at the first posting whose tag list is not empty, with the undefined-method message; a group without tags meets no such fault |
| AccountingService.TaggedGroupFaults | src/Services/Accounting.php:113-116 | any group that staged a tag meets the undefined-method fault |
| AccountingService.TaggedCommitAsWrittenRollsBack | src/Services/Accounting.php:107-126 | as written, a balanced group with any tagged posting fails with the rollback error wrapping the undefined-method message, and the table is left as it was |
| AccountingService.TaggedCommitWritesTags | src/Services/Accounting.php:107-117 | with a tag step that writes the tags, a balanced group commits, and every appended row carries exactly the tags staged with it |
| Ledgers.AssignmentOf | src/Models/Journal.php:62-65 | the assignment the journals' own ledger fields make: each journal's id is assigned to that journal's ledger, and no other id is assigned |
| Ledgers.LedgerSeesJournalLedgerIds | src/Models/Ledger.php:32-35 | over that assignment, a row is among a ledger's entries iff it belongs to a journal whose ledger field names this ledger |
| Ledgers.LedgerEntries | src/Models/Ledger.php:32-35 | a row is among the ledger's entries iff its journal is assigned to this ledger |
| Ledgers.LedgerBalanceIsSumOfJournals | src/Models/Ledger.php:32-45 | the ledger balance is the sum of its member journals' balances, negated for "asset" and "expense" ledgers: each member journal's rows are counted once |
| Ledgers.CurrentBalance | src/Models/Ledger.php:37-45 | the result carries the requested currency whatever the member journals' currencies are |
| Ledgers.AssetIsNegatedLiability | src/Models/Ledger.php:39-42 | over the same rows, an asset ledger's balance is minus a liability ledger's |
| Ledgers.PolarityMatchesNormalSideExceptLoss | src/Models/Ledger.php:39-41 | for every ledger type except loss, the code's sign is the type's normal side; for loss it is the opposite |
| Ledgers.LossLedgerCounterexample | src/Models/Ledger.php:39-41 | a loss ledger whose journal holds one debit of 500 cents reports -500, where the corrected balance is 500 |
| Ledgers.NormalBalance | src/Enums/LedgerType.php:77-99 | a debit-normal type gives debits minus credits; a credit-normal type gives credits minus debits |
| Ledgers.CorrectedCurrentBalance | src/Models/Ledger.php:37-45 | a type string naming a ledger type is signed by that type's normal side; any other string keeps the code's credit-minus-debit default |
| Ledgers.CorrectionOnlyAffectsLoss | src/Models/Ledger.php:39-41 | the correction agrees with the code for every type string but "loss", and flips the sign for "loss" |
| Ledgers.CorrectedRisesOnNormalSide | src/Enums/LedgerType.php:77-99 | under the correction, a new entry on the type's normal side raises the ledger balance by its amount |
| Ledgers.TypeOptions | src/Models/Ledger.php:52-61 | five options in display order, with distinct lower-case keys, each labelled with its key capitalised |
| Ledgers.TypeOptionsDisagreeWithLedgerTypes | src/Models/Ledger.php:52-61 | the keys are asset, liability, equity, income, expense, in that order; a ledger type is offered iff it is asset, liability, equity or expense; "income" is offered but is no ledger type |
| AccountingJournals.JournalRegistry.constructor | src/ModelTraits/AccountingJournal.php:13-16 | no model owns a journal yet |
| AccountingJournals.JournalRegistry.JournalOf | src/ModelTraits/AccountingJournal.php:13-16 | an owner has a journal iff one is stored under it, and that one is returned |
| AccountingJournals.JournalRegistry.InitJournal | src/ModelTraits/AccountingJournal.php:26-36 | an owner with a journal is refused and nothing changes; otherwise exactly one new journal is stored under the owner, with the owner, the given currency (default USD), the given ledger (default none) and balance 0 |
| AccountingJournals.JournalRegistry.InitJournalTwice | src/ModelTraits/AccountingJournal.php:28-35 | after a first init succeeds, a second init on the same owner is refused and the first journal stays, when the second call sees the stored relation (see Left out) |

## Left out

- Transactions.Transaction.AddDollarTransaction: takes a whole number of dollars. The float and string inputs and the truncating `(int)($value * 100)` are not modelled, because PHP float arithmetic is outside the model.
- AccountingService.Accounting.AddDollarTransaction: takes whole dollars, for the same reason.
- Journals.Journal.CreditDollars: takes whole dollars, for the same reason.
- Journals.Journal.DebitDollars: takes whole dollars, for the same reason.
- Journals.Journal.GetDollarsDebitedOn: returns cents. The final `/ 100` into a float is left out.
- Journals.Journal.GetDollarsCreditedOn: returns cents, for the same reason.
- `getCurrentBalanceInDollars` and `getBalanceInDollars` (journal), and `getCurrentBalanceInDollars` (ledger): left out. They are only the `/ 100` float conversions.
- `getDollarsDebitedToday` and `getDollarsCreditedToday`: left out. They are the day queries applied to the clock's day.
- Days are given as their first and last instant. Carbon's start-of-day and end-of-day, and time zones, are not modelled.
- The clock is the parameter `now`. The commit methods use one `now` for all the postings of a group. The code reads the clock anew for each entry without a post date.
- Group ids and entry ids are fresh-id parameters. UUID generation itself is not modelled.
- The database transaction is modelled by a table snapshot and the `fault` parameter. Which storage or driver errors can occur is not modelled.
- The messages of DebitsAndCreditsDoNotEqual and TransactionCouldNotBeProcessed:
  - DebitsAndCreditsDoNotEqual carries both totals instead of the English sentence that prints them. The exception class also puts its own fixed text, 'Double Entry requires that debits equal credits.', in front of that sentence.
  - TransactionCouldNotBeProcessed carries the commit's prefix followed by the cause's message. The exception class also puts its own fixed text, 'Double Entry Transaction could not be processed. ', in front of it. That text is not part of the modelled message.
- `updateTags`: the journal-transaction class does not define it, so as written every commit with a tagged posting throws `BadMethodCallException` at that posting and rolls back (see Findings). The model's older commit writes the tag list on the row, which is what the call evidently intends.
- Resolving a referenced object: `new $ref_class` and `find` are modelled as a lookup map from class name to models by key. An unknown class is a resolution error.
- The staging code's loose comparisons: `Accounting::addTransaction` uses a loose `in_array` (src/Services/Accounting.php:52), and `Accounting::verifyTransactionCreditsEqualDebits` uses a loose `==` (src/Services/Accounting.php:138). `Transaction` uses strict ones. Both are modelled as string equality. They agree for the string parameter these methods take.
- Balance sums are over the amount columns only. Currency labels are not compared, which matches the code: it sums raw columns.
- The moneyphp `Money` type is an (amount, currency) pair. Its string amounts and its currency checks are not modelled.
- Journals.Journal.SetBalance: the `$value ? ... : null` branch is not modelled. A money object is always truthy, so the stored value is never null.
- AccountingJournals.JournalRegistry.InitJournal: the existence check reads the relation the owner model has cached, and saving the new journal does not refresh it. The model's registry is the stored relation, so the check always sees the stored journals. A stale cache, or two concurrent calls, can store a second journal for one owner: the owner index is not unique.
- AccountingJournals.JournalRegistry.InitJournalTwice: the refusal of the second call assumes the owner's relation is reloaded between the two calls. On one owner object whose cache still says "no journal", the second call stores a second journal instead.
- Transactions.Transaction.VerifyTransactionCreditsEqualDebits: amounts and their sums are assumed to fit in a signed 64-bit integer. PHP turns an overflowing `+=` into a float, and `!==` then compares rounded floats; this is not modelled.
- AccountingService.Accounting.VerifyTransactionCreditsEqualDebits: the same 64-bit assumption.
- DoubleEntry.CreditTotal: the same 64-bit assumption. The amount columns are 64-bit (`bigInteger`).
- DoubleEntry.DebitTotal: the same 64-bit assumption.
- DoubleEntry.CommitResult: the same 64-bit assumption, for the balance check it starts with.
- AccountingJournals.JournalRegistry.InitJournal: takes the currency code as a string and the ledger id as an optional integer. A null currency code and a ledger id given as a string are not modelled.
- The Eloquent relations (`journal`, `transactions`, `journals`, `journalTransactions`) are modelled by the journal id on each entry and by a map from journal to ledger. The map can be derived from the journals' own ledger fields (`Ledgers.AssignmentOf`). Saving, refreshing and query builders are not modelled.
- Ledgers.CurrentBalance: reads the current table. The code reads the `journalTransactions` relation property, which Eloquent loads once per ledger instance. So a second call on the same instance does not see rows posted after the first call, unless the relation is reloaded.
- Ledgers.CurrentBalance: the type is a string. A ledger created with an enum case as its type keeps that case in memory, because the type attribute has no cast (src/Models/Ledger.php:22-25). The strict `match` then sends every type to the credits-minus-debits default, asset and expense included. That case is not modelled. tests/ComplexUseCases/CompanyFinancialScenarioTest.php:30-62 creates its ledgers that way and never reloads them, so it never hands the string "loss" to the match.
- Transactions.Transaction.AddTransaction: a staged referenced object is a model reference. The code accepts any value (`mixed`).
- Transactions.Transaction.Commit: any truthy value that is not a model reaches `referencesObject(Model $object)` and throws a TypeError. TypeError is an `Error`, not an `Exception`, so `catch (\Exception $e)` does not catch it. Then there is no rollback and no TransactionCouldNotBeProcessed, and the rows already posted stay in an open database transaction. This path is not modelled.
- AccountingService.Accounting.AddTransaction: a staged referenced object is a model reference. The code's parameter is untyped.
- AccountingService.Accounting.Commit: the uncaught TypeError path for a staged non-model reference is not modelled, as for the current revision.
- Migrations, the service provider, configuration and the exception classes are framework glue. Their behaviour is not part of this model.
- Concurrency: the code has none.

## Findings

| source | as written | input that shows it | evidently intended | confidence | as-written member | corrected member |
|---|---|---|---|---|---|---|
| src/Models/Ledger.php:39-41 | only the type strings "asset" and "expense" are signed debits minus credits; "loss" falls into the credits-minus-debits default | a "loss" ledger whose only journal holds one debit of 500 cents reports a balance of -500 | loss is debit-normal (src/Enums/LedgerType.php:77-84), so the ledger should report 500; tests/ComplexUseCases/CompanyFinancialScenarioTest.php:198 likewise expects a positive balance on the loss ledger debited at :151, though that test's ledgers hold enum cases rather than strings (see Left out) | high; not executed | Ledgers.CurrentBalance, Ledgers.LossLedgerCounterexample | Ledgers.CorrectedCurrentBalance, Ledgers.CorrectedRisesOnNormalSide |
| src/Services/Accounting.php:113-116 | the commit calls `updateTags` on the posted line item, and the line-item class defines no such method, so the call throws inside the atomic scope | any balanced group with a posting staged with a non-empty tag list: the commit fails with the rollback error and writes nothing | the tags are written onto the posted row and the commit succeeds | medium; not executed | AccountingService.UndefinedTagStep, AccountingService.TaggedCommitAsWrittenRollsBack | AccountingService.ApplyTaggedPosting, AccountingService.TaggedCommitWritesTags |
