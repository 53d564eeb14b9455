# Lychee routing, bookkeeping, catalog and task generation: a verified model

This project models the stateful core of the repository in Dafny and proves what it is meant to keep. Run
`dafny verify dfyconfig.toml` to check everything.

## What is modelled

**Test and production routing (`LycheeQuery`, `LycheeStore`, `LycheeCommands`, `LycheePhone`, `LycheeWebhook`,
`LycheeServed`).** The routing store is a state machine over its database steps: take a connection, `GET_LOCK`, look
up the key, read the latest commands, insert, `RELEASE_LOCK`, then pool or destroy the connection. Any number of calls
interleave; every query may fail, the replies of an insert and of a release may be lost, and a session may die at any
step. On top of it the webhook handler forwards events: deliveries and retries arrive at any time and in any order.
Theorems speak about every run.

**The journal (`JournalTypes`, `ManualEntry`, `ManualLines`, `JournalSpec`, `JournalRuns`, `JournalEffects`,
`JournalCounter`, `Ledger`).** `Ledger.BookkeepingService` is the service with its tables, transactions and faults at
every stage; its methods are proved against the functions of `JournalSpec`, over which `JournalRuns` proves the
invariants of all runs. Amounts are agorot; rates and percents are reals, and `toFixed(2)` is exact rounding to the
nearest agora. `JournalCounter` interleaves creates step by step around the entry counter, which the code reads
without a lock.

**The catalog (`Precedence`, `AccountCodes`, `CodeDigits`, `SectionCodes`, `CatalogSpec`, `CatalogRuns`,
`CatalogEffects`, `Catalog`).** Merging CLIENT, ACCOUNTANT and SYSTEM charts, allocating codes and section blocks,
creating sub-categories and cards by law, and repointing.

**Accountant tasks (`Calendar`, `TaskPeriods`, `TaskRows`, `TaskRuns`, `TaskGenerator`).** A Gregorian calendar of day
numbers, the enumeration of reporting periods, and the three generators over their two tables with unique keys.

**Three algorithms.** The two-pass catalog migration (`MigrationSpec`, `MigrationRules`, `MigrationPlan`,
`MigrationCommit`, `Migration`), the CSV parser (`Csv`, `CsvQuotes`, section 2 of RFC 4180) and the incremental line
splitter (`LineReader`).

For every main operation one theorem says what it does without its own functions: in the columns, words, chart names or
rows that it reads and writes. Those are in `LycheeCommands`, `LycheeServed`, `JournalEffects`, `ManualLines`,
`CatalogEffects`, `CodeDigits`, `MigrationRules` and `CsvQuotes`, and in `Precedence` and `TaskRuns`.

## Assumptions

- SHA-256 digests are injective, timestamps are integers, a `GET_LOCK` that fails leaves the lock free, and prompt rows
  are only ever added. Rows of the intake table under other keys do not carry routing statuses, so the journal is the
  table's routing rows. The event id is that table's primary key.
- Ids grow and are not reused; MySQL does not roll back auto-increment.
- A business number has one owner where a lemma says so (`TaskRuns.OwnersUnique`, `JournalRuns.FoundIsUnique`).
- Journal operations in `JournalSpec`, `JournalRuns` and `Ledger` are made one after another, each transaction seeing all
  the ones before it. Only `JournalCounter` drops this, for the counter: the row is locked from its write to the end of
  the transaction; the transaction's view is fixed when it begins to read; the first read of the counter sees that view
  or the present value, and the read before the write any value committed since the time the first one saw. That
  covers REPEATABLE READ, MySQL's default, and READ COMMITTED.
- The database refuses numbers that are not finite, which a recognised percent that makes a divisor zero would give.
- Saving a row that was loaded with its card keeps that card, whatever `accountId` was assigned to it, as
  `backend/src/expenses/expenses.service.ts:1857-1858` says of TypeORM; a row without a card takes the assigned one.
- Sub-categories point at existing categories (a foreign key).
- Category and sub-category names are compared exactly; collation is left out.
- Days are UTC calendar days, and years have four digits.

## Where the code and its documentation differ

- `backend/src/accountant-tasks/tasks-generator.service.ts:30` allows five years of annual reports, but the lower bound
  of line 494 never reaches back more than twelve months, so only last year's report is ever created
  (`TaskPeriods.OnlyLastYear`).
- `backend/scripts/migrations/2026-07-12_catalog_migration.ts:5-6` promises that a reviewed plan cannot drift from what
  is applied. Both passes resolve rows alike, but the review checks parents of CLIENT rows only and no card ids, so a
  clean review can be followed by an apply that stops (`MigrationPlan.CleanReviewMayFail`); the exact condition, said of
  the legacy rows, is `MigrationCommit.CommitsExactlyWhen`.
- `backend/src/bookkeeping/bookkeeping.service.ts:472-484` drops percents and `amountForTax` when it replaces lines;
  `JournalRuns.ReplaceMatchesCreateIff` says exactly when the result is still what a create would store.
- `backend/src/bookkeeping/account-code-allocator.service.ts:80-85` allocates within a section, while codes are unique in
  the whole chart. `SectionCodes.SectionCodeTakenIff` says when the next code is taken: not while the section owns its
  block and its top is at most 89 past its own code, and past that exactly when a card elsewhere bears the number.
  `SectionCodes.TenCardsThenTheNeighbours`: nine automatic cards fit the block, the tenth has the next section's code,
  the eleventh that section's first one. Once that is taken, every automatic card of the section fails
  (`SectionCodes.StuckUntilMoved`) until a manual card, a variant card with a code of the whole range
  (`SectionCodes.RangeCardMovesTop`) or an edit moves its top or the card in the way.
- `backend/src/bookkeeping/bookkeeping.service.ts:40-51` calls creating an entry collision-free. Keys are, but the running
  number is read without a lock and written back later (`backend/src/shared/shared.service.ts:352-410`): numbers are
  distinct exactly when no two creates overlap between the time whose value they read and committing
  (`JournalCounter.NumbersDistinctIffApart`). Two that read before either commits post one number
  (`JournalCounter.OverlappingCreatesRepeat`), and so does one that reads the counter after the other's commit but whose
  view is older, fixed by the account lookup of lines 98-101 (`JournalCounter.OlderViewRepeats`).
- `backend/src/bookkeeping/catalog.service.ts:708-712` says that a law update points the row at the card of the new law.
  Its one caller (`backend/src/expenses/expenses.service.ts:2364-2391`) loads the row with its card, which the save
  keeps: the update takes hold exactly for a row without a card or with a card of that law already
  (`CatalogRuns.UpdateLawKeeps`), and is lost on any other (`CatalogRuns.LawUpdateIsLost`).
- `backend/src/bookkeeping/catalog.service.ts:708-712` says percents are never edited in place, but `updateAccountFields`
  (lines 1450-1512) does so; `CatalogRuns.CardEditKeepsLawsIff` says when sub-categories keep the law given to them, and
  `CatalogRuns.CardEditBreaksLaw` gives one that does not.
- `backend/scripts/profile-startup.js:123-133` takes an unended last line as a line but does not ask whether it completes
  the run (`LineReader.UnendedLineDoesNotComplete`).
- A record of one empty bare field prints as an empty line, which `loadCsvRows` skips: loading undoes printing exactly
  when there is no such record (`Csv.LoadUndoesPrint`).
- `backend/src/bookkeeping/dto/manual-journal-entry.dto.ts:93-95` says an income entry needs a VAT reporting period; the
  code asks for one only when a VAT line was added. Line 16 of the same file names account 4000 where the code posts to
  40000.
- `backend/src/bookkeeping/bookkeeping.service.ts:265-266` says exempt income carries no VAT at all. An amount typed as
  half an agora below zero gets one agora of it, the rounding error of its net (`ManualLines.AcceptedLines`).
- `backend/scripts/migrations/2026-07-12_catalog_migration.ts:151-156` puts the override table first; the code asks merge
  groups, annual names and private rules before it. `MigrationPlan.OverrideTakesEffectIff` says exactly when an override
  takes effect, and `MigrationPlan.OverrideMayLose` gives the rows that lose it under any rules.

## Model

| member | source | states |
|---|---|---|
| LycheeQuery.CommandByWords | proxy/lychee-routing-store.js:24-28 | A text is a switching command exactly when its words are the command's words, whatever the spacing. |
| LycheeQuery.QueryDecides | proxy/lychee-routing-store.js:90-102 | Every legal answer of the two-row query leads to the decision of the latest commands at or before the event: their status, prod without any, an error on a tie of both. |
| LycheeQuery.TopTwoExists | proxy/lychee-routing-store.js:92-97 | The query always has a legal answer. |
| LycheeStore.StepKeepsInv | proxy/lychee-routing-store.js:75-119 | Every database step of every call keeps the protocol invariant, with failures anywhere. |
| LycheeStore.EveryRunIsSerial | proxy/lychee-routing-store.js:75-119 | In every interleaving the journal is one that serial resolves write, with at most one row per key, and every answer given is the journal's. |
| LycheeStore.RetriesAgree | proxy/lychee-routing-store.js:82-89 | Two successful calls for one event, at any times and with any commands in between, return the same environment and command flag. |
| LycheeStore.JournalGrows | proxy/lychee-routing-store.js:103-107 | The journal is append-only over any run. |
| LycheeStore.ConnectionsAreCleanedUp | proxy/lychee-routing-store.js:109-119 | A finished call pooled its connection without the lock or destroyed it, never both, and never answers over a destroyed one. |
| LycheeStore.InsertIsUpToDate | proxy/lychee-routing-store.js:79-107 | A call about to insert holds a decision that the journal still supports and finds no row under its key. |
| LycheeStore.ArrivalOrderIsIrrelevant | proxy/lychee-routing-store.js:90-102 | The decision depends only on the set of commands at or before the event's time; prod if none, an error exactly on a tie. |
| LycheeStore.UndisturbedCallIsSerial | proxy/lychee-routing-store.js:62-120 | A call nobody disturbs ends with the serial result, the lock free and the connection pooled. |
| LycheeStore.CommandsTakeEffect | proxy/lychee-routing-store.js:90-107 | In every run, once a command is acknowledged, an event of its sender first resolved later and not older gets the command's environment, unless the sender gave the other command from that instant up to the event's. |
| LycheeCommands.AnswersFollowTheWords | proxy/lychee-routing-store.js:24-28 | In every run an answer is a command of an environment exactly when the event is an unquoted text message without media that says that command's words; media and other types never are. |
| LycheeCommands.RefusedUnlessAdmissible | proxy/lychee-routing-store.js:62-74 | A call takes a connection exactly for a listed sender, the configured channel, three ids of 1 to 255 characters, a text of at most 8192, media flag and type, no quote and a time of at most 64 characters; any other is refused with nothing changed. |
| LycheeCommands.FirstResolve | proxy/lychee-routing-store.js:62-120 | An undisturbed first resolve journals the start and stop words as commands of dev and prod; any other event with the environment of the sender's latest commands at its time, prod without any, and nothing on a tie. |
| LycheeCommands.RepeatedResolve | proxy/lychee-routing-store.js:82-89 | An undisturbed repeated resolve answers the journalled status, and refuses another event under the key. |
| LycheePhone.PhoneExactly | proxy/lychee-webhook.js:5-10 | Exactly which spellings normalise to a number, and to which. |
| LycheePhone.PhoneIsStable | proxy/lychee-webhook.js:5-10 | Normalising twice is normalising once. |
| LycheeWebhook.NextKeepsInv | proxy/lychee-webhook.js:111-203 | Every handler step keeps the invariant that ties deliveries to journal, prompts and calls. |
| LycheeWebhook.TestEventsFollowTheJournal | proxy/lychee-webhook.js:144-163 | A test sender's unquoted event goes only where its journal row says; a switching command is never forwarded. |
| LycheeWebhook.RetriesReachOneEnvironment | proxy/lychee-webhook.js:144-163 | All deliveries of one event reach one environment. |
| LycheeWebhook.DevRepliesNeverContactProd | proxy/lychee-webhook.js:116-143 | A reply to a development question contacts development only. |
| LycheeWebhook.OthersNeverReachDev | proxy/lychee-webhook.js:111-144 | Senders outside the test list never reach development. |
| LycheeWebhook.NoFallback | proxy/lychee-webhook.js:168-203 | A delivery contacts one environment, forwards at most once, and is acknowledged only with cause. |
| LycheeWebhook.StoreAnswersAreValid | proxy/lychee-webhook.js:149-155 | The handler's check of the store's answer never rejects what the store returns. |
| LycheeWebhook.UndisturbedDeliveryIsServed | proxy/lychee-webhook.js:144-180 | An undisturbed delivery of a tester's unquoted event ends acknowledged, after one forward to the environment of the serial resolve; a command is acknowledged without a forward. |
| LycheeServed.RefusedIff | proxy/lychee-webhook.js:96-122 | A delivery is refused at once with 400, without a request to a backend or a change elsewhere, exactly when kind, event id, channel, contact or sender field do not name one number, or the quote is no id of at most 255 characters. |
| LycheeServed.OutsiderIsServed | proxy/lychee-webhook.js:168-180 | A message of an unlisted number without a quote is forwarded once to production and answered 200 or 502 as production accepts it. |
| LycheeServed.OutsiderReplyIsServed | proxy/lychee-webhook.js:133-143 | An unlisted number's quoted reply is probed: forwarded to production and answered as it accepts if production owns the question, refused with 409 if not, failed with 502 if it does not say. |
| LycheeServed.TesterReplyToDev | proxy/lychee-webhook.js:123-136 | A tester's reply that exactly one development prompt owns is forwarded to development; one that several own, or without a time, fails without a request. |
| LycheeServed.TesterReplyToProd | proxy/lychee-webhook.js:123-143 | A tester's reply that no development prompt owns is refused without a request in dev mode; in prod mode it is probed, and forwarded to production exactly if production owns the question. |
| LycheeServed.TesterIsServed | proxy/lychee-webhook.js:144-180 | An undisturbed first delivery of a tester's unquoted event: a command is journalled and acknowledged without a request, any other event journalled and forwarded once to the sender's mode. |
| LycheeServed.ForwardedOnlyIfOwned | proxy/lychee-webhook.js:133-143 | In every run a quoted reply is forwarded to production only after production said that it owns the question, and a probed one refused with 409 only after it said that it does not. |
| ManualEntry.ExtractUndoesAddOn | backend/src/bookkeeping/bookkeeping.service.ts:272-286 | Extracting at 100 percent from net plus VAT gives back net and VAT, for every positive rate. |
| ManualEntry.ExtractSplits | backend/src/bookkeeping/bookkeeping.service.ts:283-286 | For a recognised percent from 0 to 100 net and VAT add up to the gross, with 0 <= net <= gross. |
| ManualEntry.ExtractIsMonotone | backend/src/bookkeeping/bookkeeping.service.ts:283-286 | The net rises with the gross and falls with the percent. |
| ManualEntry.BuildManualEntry | backend/src/bookkeeping/bookkeeping.service.ts:226-391 | The loop over typed lines builds the input the specification describes, or refuses as it does; ManualLines says column by column which input that is, and when it is refused. |
| ManualEntry.AcceptedEntryBalances | backend/src/bookkeeping/bookkeeping.service.ts:326-348 | For any lines, an accepted entry has total debits, total credits and documentTotal equal. |
| ManualEntry.DocumentTotalIsTyped | backend/src/bookkeeping/bookkeeping.service.ts:226-330 | With positive whole amounts documentTotal is the sum of grosses typed, or of nets plus rounded VAT for liable income. |
| ManualLines.AcceptedLines | backend/src/bookkeeping/bookkeeping.service.ts:226-348 | An accepted entry's lines: for each typed line that counts, in order, an expense debits its card with the extracted net and 2410 with the VAT; liable income credits 40000 with the typed net and 2400 with the VAT on top; exempt income credits 40000 with the rounded gross, and one agora on 2400 exactly if half an agora below zero was typed; then 1100 with the total on the other side. Tax share, percents, equipment flag and sub-category are those typed or their defaults. |
| ManualLines.AcceptedIff | backend/src/bookkeeping/bookkeeping.service.ts:201-370 | An entry is accepted exactly when the caller owns the business, the rate is known, some line counts, all that count have a card of the right type with a section, a visible sub-category if any and no zero divisor, and a period is typed if VAT is due. |
| ManualLines.AcceptedHeader | backend/src/bookkeeping/bookkeeping.service.ts:349-391 | The header takes the typed dates with the entry's own for absent ones, the trimmed period, and as description the typed one, else the first picked sub-category with its category, else the reference. |
| ManualLines.SharesAreNearest | backend/src/bookkeeping/bookkeeping.service.ts:279-287 | VAT on top and tax share are the whole numbers nearest to their products. |
| ManualLines.NetIsNearest | backend/src/bookkeeping/bookkeeping.service.ts:283-285 | The net is the whole number nearest to the gross over 1 + rate * percent / 100. |
| Ledger.BookkeepingService.ResolveLines | backend/src/bookkeeping/bookkeeping.service.ts:98-127 | Lines get numbers 1 to n and their cards in order; an unknown card stops the entry. |
| Ledger.BookkeepingService.PersistJournalEntry | backend/src/bookkeeping/bookkeeping.service.ts:71-160 | Inside its transaction, header, lines and counter become those of a posted entry. |
| Ledger.BookkeepingService.CreateJournalEntry | backend/src/bookkeeping/bookkeeping.service.ts:52-69 | Posts the entry, or fails and leaves headers, lines and counters as they were. |
| Ledger.BookkeepingService.CreateManualJournalEntries | backend/src/bookkeeping/bookkeeping.service.ts:393-408 | Posts all typed entries in order with the results of single creates, or none; without faults it succeeds exactly when there are entries, all are accepted, and each can be posted after the ones before it. |
| Ledger.BookkeepingService.ReplaceJournalEntryLines | backend/src/bookkeeping/bookkeeping.service.ts:449-523 | Replaces the lines of the referenced entry, or changes nothing. |
| Ledger.BookkeepingService.UpdateJournalEntryFull | backend/src/bookkeeping/bookkeeping.service.ts:589-660 | Updates header and lines of the numbered entry, or changes nothing. |
| Ledger.BookkeepingService.DeleteJournalEntry | backend/src/bookkeeping/bookkeeping.service.ts:525-560 | True exactly if a header had the number and business; then the first such header and all its lines are gone and all other headers and lines are there in order; otherwise, and on a fault, nothing changes. |
| Ledger.ManualBatchBalances | backend/src/bookkeeping/bookkeeping.service.ts:393-408 | Whatever is typed, every entry of an accepted batch balances. |
| Ledger.AllAccepted | backend/src/bookkeeping/bookkeeping.service.ts:393-408 | A list of typed entries is accepted exactly if each is, with the inputs each gives, in order. |
| JournalRuns.LinesBelong | backend/src/bookkeeping/bookkeeping.service.ts:98-153 | After any run each line belongs to a live entry of its owner and business, and an entry's lines are numbered 1 to n. |
| JournalRuns.NumbersNeverReused | backend/src/bookkeeping/bookkeeping.service.ts:71-97 | Over any run of operations made one after another no counter hands out a number twice, deletions included; live numbers differ and lie below the counter. |
| JournalCounter.StepKeepsInv | backend/src/shared/shared.service.ts:352-410 | Every step of interleaved creates, failures included, keeps what each call holds tied to the counter it read. |
| JournalCounter.NumbersDistinctIffApart | backend/src/bookkeeping/bookkeeping.service.ts:71-160 | In any interleaving of creates and batches, at either isolation level, numbers of a counter are distinct exactly when no two committed calls overlap between the time whose value they read and committing; then they are those of the calls made one after another. |
| JournalCounter.OverlappingCreatesRepeat | backend/src/shared/shared.service.ts:352-410 | Two creates that both read the counter before either commits post the same number. |
| JournalCounter.OlderViewRepeats | backend/src/bookkeeping/bookkeeping.service.ts:98-126 | A create that reads the counter after another has committed, in a view fixed before, posts the same number. |
| JournalRuns.FoundIsUnique | backend/src/bookkeeping/bookkeeping.service.ts:597-603 | With one owner per business, the entry found by number and business is the only one. |
| JournalEffects.PostedIsRead | backend/src/bookkeeping/bookkeeping.service.ts:71-160 | A create succeeds exactly when every account is known; the new header and lines can be read back column by column under the counter's next number, from 10000000 on; all other entries and counters stay. |
| JournalEffects.BatchSucceedsIff | backend/src/bookkeeping/bookkeeping.service.ts:393-408 | A batch fails exactly on an unknown account of one of its entries. |
| JournalEffects.ReplacedIsRead | backend/src/bookkeeping/bookkeeping.service.ts:449-500 | A replace rewrites the lines of the first entry of the reference, percents at 100 and amountForTax at 0, and no header; it fails exactly on an unknown account of an entry that is there. |
| JournalEffects.UpdatedIsRead | backend/src/bookkeeping/bookkeeping.service.ts:589-647 | A full update sets each mutable column of the first entry of the number, keeps the others, and rewrites its lines; other headers and lines and the counters stay. |
| JournalEffects.DeletedIsGone | backend/src/bookkeeping/bookkeeping.service.ts:525-545 | After any run, a delete in a business of one owner leaves no header and no line with the deleted id and no entry under the number, and every other entry with its lines. |
| JournalRuns.TrialBalanceIsZero | backend/src/bookkeeping/bookkeeping.service.ts:98-153 | If every input balances, every entry and every business balances in every reachable state. |
| JournalRuns.UpdateStoresWhatCreateWould | backend/src/bookkeeping/bookkeeping.service.ts:589-647 | A full update stores a fresh create's line values, keeps id, number and owner, leaves other entries alone, and moves each total by new minus old. |
| JournalRuns.ReplaceMatchesCreateIff | backend/src/bookkeeping/bookkeeping.service.ts:466-500 | Replacing stores what a create would exactly when percents and amountForTax are at their defaults. |
| JournalRuns.BatchIsItsSingles | backend/src/bookkeeping/bookkeeping.service.ts:393-408 | A batch is its single creates in sequence, or nothing. |
| JournalRuns.BatchNumbersAreConsecutive | backend/src/bookkeeping/bookkeeping.service.ts:393-408 | The entries of a batch have consecutive numbers. |
| JournalSpec.SumWithout | backend/src/bookkeeping/bookkeeping.service.ts:525-560 | Removing an entry's lines takes exactly its share out of any total. |
| Precedence.PickIsBest | backend/src/bookkeeping/catalog.service.ts:437-443 | The single lookup picks the first row of the best chart, and finds one whenever there is one. |
| Precedence.PickComesFirst | backend/src/bookkeeping/catalog.service.ts:160-168 | The lookup finds a row exactly if the context sees one: the first of the client's chart if it has one, else of the first accountant's in the context's order that has one, else the context's own accountant's, else SYSTEM's. |
| Precedence.KeysAreSeen | backend/src/bookkeeping/catalog.service.ts:160-168 | The charts in scope are the client's, its accountants' and SYSTEM. |
| Precedence.MergeByName | backend/src/bookkeeping/catalog.service.ts:420-435 | The one-pass merge keeps exactly one row per name, the one the single lookup picks. |
| Precedence.MergeIgnoresOrder | backend/src/bookkeeping/catalog.service.ts:420-435 | With unique names per chart the merge does not depend on row order. |
| Precedence.EffectiveAccounts | backend/src/bookkeeping/catalog.service.ts:229-248 | The card of a code is the client's if it has a visible active one, else that of the first accountant that has one, else SYSTEM's; every code with one in scope has it, so a hidden override shadows nothing. |
| AccountCodes.NextCodeIsFresh | backend/src/bookkeeping/account-code-allocator.service.ts:48-78 | An allocated code is new, in range and above every in-range code; allocation fails exactly near the ceiling. |
| AccountCodes.CodesStayDistinct | backend/src/bookkeeping/account-code-allocator.service.ts:48-78 | Over any run of manual and automatic codes no code is taken twice and automatic ones rise. |
| CodeDigits.CodesByOwner | backend/src/bookkeeping/account-code-allocator.service.ts:20-78 | An allocated code has five digits: 4 and 6 first for SYSTEM's income and expenses, 5 and 7 for accountants, 5 and 8 for clients; a chart without such a code gets that digit and four zeros. |
| CodeDigits.KindsApart | backend/src/bookkeeping/account-code-allocator.service.ts:20-24 | Income and expense codes of one owner never meet, nor do SYSTEM's and others'. |
| SectionCodes.SectionCodeTakenIff | backend/src/bookkeeping/account-code-allocator.service.ts:86-117 | A section has a next code exactly up to a jump below the ceiling; it is taken exactly when a card outside the section bears the number a jump above the section's top; a section owning its block is safe while its top is at most 89 past its own code. |
| SectionCodes.SectionCodeExistsIff | backend/src/bookkeeping/account-code-allocator.service.ts:86-117 | A section gets a next code exactly if its own code is a number of the kind's range and its top is at least a jump below the ceiling. |
| SectionCodes.SectionCodesCanCollide | backend/src/bookkeeping/account-code-allocator.service.ts:101-108 | A case of such a clash. |
| SectionCodes.AutomaticRun | backend/src/bookkeeping/account-code-allocator.service.ts:86-117 | Automatic cards of a fresh section get the codes ten apart from the section's own code on. |
| SectionCodes.TenCardsThenTheNeighbours | backend/src/bookkeeping/account-code-allocator.service.ts:86-117 | Nine of them stay in the section's block, the tenth has the next section's code, the eleventh would have that section's first automatic code. |
| SectionCodes.StuckUntilMoved | backend/src/bookkeeping/catalog.service.ts:910-967 | Once a section's next code is taken, every automatic card of it fails, whatever is created or edited, as long as its top and the card in the way are left alone. |
| SectionCodes.ManualCardMovesTop | backend/src/bookkeeping/account-code-allocator.service.ts:101-108 | A manual card above the top becomes the top that the section's next code counts from. |
| SectionCodes.RangeCardMovesTop | backend/src/expenses/expenses.service.ts:1912-1928 | A variant card made with a default sub-category moves it too: its code of the whole range is the new top, at least two jumps past the old one. |
| AccountCodes.PreviewSection | backend/src/bookkeeping/catalog.service.ts:778-793 | The preview finds a block exactly when one of the 100 is free, past all blocks if it can. |
| AccountCodes.CreatedSectionOwnsItsBlock | backend/src/bookkeeping/catalog.service.ts:795-834 | Creation accepts whole free blocks only: no other section or card shares the block. |
| AccountCodes.PreviewThenCreate | backend/src/bookkeeping/catalog.service.ts:778-834 | What the preview offers, creation accepts. |
| CodeDigits.BlockTakenIff | backend/src/bookkeeping/catalog.service.ts:768-776 | A block counts as occupied exactly if some SYSTEM code lies in its hundred. |
| CodeDigits.CreatedIff | backend/src/bookkeeping/catalog.service.ts:795-834 | A section is created exactly under a code of 6, two digits and two zeros in whose hundred there is no section and no card. |
| CatalogRuns.VariantCarriesLaw | backend/src/bookkeeping/catalog.service.ts:578-630 | The card for a law carries exactly it; one is created only if the chart has no active one, under a fresh code and never without a section. |
| CatalogRuns.CreateSubKeeps | backend/src/bookkeeping/catalog.service.ts:661-706 | A sub-category created by law resolves to it or is marked, a private one gets no card; no other one is touched. |
| CatalogRuns.UpdateLawKeeps | backend/src/bookkeeping/catalog.service.ts:713-721 | After a law update the sub-category carries the law exactly if it had no card or one of that law; otherwise it keeps its card and law. No other one is touched. |
| CatalogRuns.LawUpdateIsLost | backend/src/expenses/expenses.service.ts:2364-2391 | A row created by one law with a card, then updated to another law, still resolves to the first. |
| CatalogRuns.LawsHold | backend/src/bookkeeping/catalog.service.ts:578-738 | Over any run, soft deletes included, tables stay well formed, sub-categories keep the last law that took hold on them or are marked, and no card changes. |
| CatalogRuns.DifferentLawsDifferentCards | backend/src/bookkeeping/catalog.service.ts:578-630 | Sub-categories on which different laws took hold never share a card. |
| CatalogRuns.CardEditKeepsLawsIff | backend/src/bookkeeping/catalog.service.ts:1450-1512 | Editing a card's percents in place keeps the laws given exactly when every sub-category pointing at it was given the new law. |
| CatalogRuns.CardEditBreaksLaw | backend/src/bookkeeping/catalog.service.ts:1450-1512 | A row created by a law, whose card is then edited to another, no longer carries it. |
| CatalogRuns.RepointStaysInChart | backend/src/bookkeeping/catalog.service.ts:1074-1121 | Repointing a foreign sub-category, successful or not, changes no row outside the client's chart. |
| CatalogRuns.RepointInvisibleToOthers | backend/src/bookkeeping/catalog.service.ts:488-511 | For every context of another business, every pair of names resolves to the same row with the same card before and after a repoint. |
| CatalogRuns.RepointWritesOverride | backend/src/bookkeeping/catalog.service.ts:1093-1117 | On success the client has an active row of that name under its own category of that name and type, pointing at the card, which is active and in scope. |
| CatalogRuns.RepointResolves | backend/src/bookkeeping/catalog.service.ts:488-511 | After a repoint the names resolve to the chosen card, if the client has no active category of that name with the other type. |
| CatalogRuns.RepointSucceedsIff | backend/src/bookkeeping/catalog.service.ts:1074-1121 | A repoint succeeds exactly for a visible row that is not private, an active card in scope and a business, when the row is the client's own or no inactive or reserved row of the client is in the way. |
| CatalogEffects.MayRepointIff | backend/src/bookkeeping/catalog.service.ts:1074-1092 | A repoint may go ahead exactly for a business, a row it sees that is not private and an active card it sees. |
| CatalogEffects.OwnRowIsPointed | backend/src/bookkeeping/catalog.service.ts:1093-1100 | Repointing the client's own row changes only its card and approval. |
| CatalogEffects.ResolvesToShown | backend/src/bookkeeping/catalog.service.ts:488-511 | A pair of names resolves to exactly the active row shown by owner: the category of the client, else of the first accountant that has it, else of SYSTEM, and under it the sub-category in the same order. |
| CatalogEffects.CreatedIs | backend/src/bookkeeping/catalog.service.ts:661-706 | A sub-category is created exactly if its name may be used, its category and card are there, its place and key are vacant and a card for its law can be had; it is added with the columns asked for, and at most one card with it, of its law, in the base card's section or the one named like the category. |
| CatalogEffects.UpdatedIs | backend/src/bookkeeping/catalog.service.ts:713-724 | A law update succeeds exactly for a row without a key if a card can be had; it changes no other row, and adds at most one card, in the section of the row's own card or of the SYSTEM one of its name, else the one named like the category. |
| CatalogEffects.RemovedSubIsGone | backend/src/bookkeeping/catalog.service.ts:734-738 | Removal succeeds exactly for a row without a key; no names resolve to it then in any context, and names that resolved to another row still do. |
| CatalogEffects.RemovedCategoryIsGone | backend/src/bookkeeping/catalog.service.ts:726-732 | Removal succeeds exactly if the category holds no fixed row; no names resolve to a row under it then, and names that resolved elsewhere still do. |
| Catalog.CatalogService.FindOrCreateCategory | backend/src/bookkeeping/catalog.service.ts:535-563 | Returns the chart's active category of the trimmed name and type, else adds one; an inactive one with the same key makes it fail without a change. |
| Catalog.CatalogService.FindOrCreateVariantAccount | backend/src/bookkeeping/catalog.service.ts:578-648 | Reuses the chart's active card of exactly this law, else adds one in its base card's section or in the SYSTEM section of the category's name; without a section it adds nothing. |
| Catalog.CatalogService.CreateSubCategory | backend/src/bookkeeping/catalog.service.ts:661-706 | Adds one row at most, refuses reserved and taken names, and keeps a card made before a later failure; CreateSubKeeps says what the new row resolves to. |
| Catalog.CatalogService.UpdateSubCategoryLaw | backend/src/bookkeeping/catalog.service.ts:713-724 | Finds or makes the law's card, edits none, and saves the row, which keeps a card it was loaded with; fixed system rows are refused. UpdateLawKeeps says when the law takes hold. |
| Catalog.CatalogService.RepointSubCategoryAccount | backend/src/bookkeeping/catalog.service.ts:1074-1121 | Points the client's own row, or a client override it adds or reuses, at the card; a category made before a later failure stays. RepointResolves and RepointSucceedsIff say what follows. |
| Catalog.CatalogService.RemoveCategory | backend/src/bookkeeping/catalog.service.ts:726-732 | Deactivates the category unless it holds the fixed system sub-category; its rows stay. |
| Catalog.CatalogService.RemoveSubCategory | backend/src/bookkeeping/catalog.service.ts:734-738 | Deactivates the row unless it is a fixed system one. |
| Calendar.YearStart | backend/src/shared/shared.service.ts:92-99 | Month lengths add up to the Gregorian calendar's day numbers. |
| Calendar.UtcOfParts | backend/src/accountant-tasks/tasks-generator.service.ts:565-570 | A date is rebuilt from its year, month and day. |
| TaskPeriods.LabelParses | backend/src/shared/shared.service.ts:128-161 | Taking a period label apart gives back its year and first month. |
| TaskPeriods.EnumeratePeriods | backend/src/accountant-tasks/tasks-generator.service.ts:516-587 | The cursor walk lists exactly the periods from the lower bound's on that end before today, up to 60 steps. |
| TaskPeriods.ExactlyTheEndedPeriods | backend/src/accountant-tasks/tasks-generator.service.ts:494-587 | A period is listed exactly when it ends on or after the lower bound and before today, in order; there are at most 12, so the guard never cuts. |
| TaskPeriods.PeriodShape | backend/src/accountant-tasks/tasks-generator.service.ts:558-576 | Periods follow each other without gap or overlap; each is due on the fifteenth of the next month and visible from its first day. |
| TaskPeriods.LowerBoundMonth | backend/src/accountant-tasks/tasks-generator.service.ts:494-504 | The lower bound is the later of creation, or today if unknown, and twelve months back. |
| TaskPeriods.EnumerateAnnual | backend/src/accountant-tasks/tasks-generator.service.ts:594-609 | The loop lists each year from the first one allowed up to last year; none is skipped. |
| TaskPeriods.OnlyLastYear | backend/src/accountant-tasks/tasks-generator.service.ts:494-609 | Only last year's report is ever listed, exactly for businesses created before this year. |
| TaskGenerator.GroupBusinessesByUser | backend/src/accountant-tasks/tasks-generator.service.ts:623-632 | Each user's group is their numbered businesses in order. |
| TaskGenerator.Generator.InsertTaskOrIgnore | backend/src/accountant-tasks/tasks-generator.service.ts:641-651 | A new key is inserted and counted, a taken one leaves the table as it is. |
| TaskGenerator.Generator.UpsertWorkflow | backend/src/accountant-tasks/tasks-generator.service.ts:653-677 | A new key is inserted with its status, a taken one keeps the row it has. |
| TaskGenerator.Generator.ResolveInitialStatus | backend/src/accountant-tasks/tasks-generator.service.ts:686-701 | The memoised answer is whether the client has an active delegation. |
| TaskGenerator.Generator.ProcessBusinessWorkflows | backend/src/accountant-tasks/tasks-generator.service.ts:214-284 | Tries and tallies exactly the workflows of one business. |
| TaskGenerator.Generator.ProcessBusinessForDelegation | backend/src/accountant-tasks/tasks-generator.service.ts:290-384 | Tries and tallies exactly the tasks of one business, with or without workflows. |
| TaskGenerator.Generator.Generate | backend/src/accountant-tasks/tasks-generator.service.ts:75-162 | Each entry point tries exactly its rows, and returns how many it created. |
| TaskRows.PutAllIs | backend/src/accountant-tasks/tasks-generator.service.ts:641-677 | Inserting keeps every row and adds exactly the keys tried. |
| TaskRuns.RunsOnlyAdd | backend/src/accountant-tasks/tasks-generator.service.ts:641-677 | No run, on this or any later day, changes or removes a row. |
| TaskRuns.RunIsSound | backend/src/accountant-tasks/tasks-generator.service.ts:388-481 | What a new row says, status, client, due and visible day, follows from its key. |
| TaskRuns.TasksGoToAccountants | backend/src/accountant-tasks/tasks-generator.service.ts:388-481 | A new task goes to an accountant with an active delegation of the task's client: the one whose page was opened, or any in the full run. |
| TaskRuns.AnyOrderEndsAlike | backend/src/accountant-tasks/tasks-generator.service.ts:75-162 | Any order and repetition of the same calls ends with the same workflows and tasks, up to which of several accountants a task went to. |
| TaskRuns.RerunCreatesNothing | backend/src/accountant-tasks/tasks-generator.service.ts:75-162 | A call made again the same day creates nothing. |
| TaskRuns.InterruptedRunRecovers | backend/src/accountant-tasks/tasks-generator.service.ts:75-162 | A run that broke off and is started again ends as an undisturbed one. |
| TaskRuns.FullRunIsComplete | backend/src/accountant-tasks/tasks-generator.service.ts:130-162 | After the full run a workflow or task is there exactly if it was before or is needed. |
| TaskRuns.FullRunCoversAll | backend/src/accountant-tasks/tasks-generator.service.ts:130-162 | After the full run no page opened the same day creates anything. |
| TaskRuns.UserRunIsComplete | backend/src/accountant-tasks/tasks-generator.service.ts:75-100 | After a user's run a workflow is there exactly if it was before or a business of the user needs it; tasks stay. |
| TaskRuns.AccountantRunIsComplete | backend/src/accountant-tasks/tasks-generator.service.ts:101-129 | After an accountant's run a task or workflow is there exactly if it was before or is needed by a business whose owner has an active delegation to the accountant. |
| TaskRuns.CreatedCounts | backend/src/accountant-tasks/tasks-generator.service.ts:75-162 | The created count is the number of new workflows of a user's run, of new tasks of an accountant's, and of both of the full run. |
| TaskRuns.NeedMeans | backend/src/accountant-tasks/tasks-generator.service.ts:214-284 | A report is needed for exactly the periods that end between the business's lower bound and yesterday, at its VAT cadence for VAT and its tax cadence for advances. |
| TaskRuns.AnnualNeedMeans | backend/src/accountant-tasks/tasks-generator.service.ts:388-481 | An annual report is needed for last year alone, January 1 to December 31, by a numbered business known to be created before this year. |
| MigrationPlan.OverrideTakesEffectIff | backend/scripts/migrations/2026-07-12_catalog_migration.ts:157-186 | An override takes effect exactly when no merge group, annual name or private rule claims the row. |
| MigrationPlan.OverrideMayLose | backend/scripts/migrations/2026-07-12_catalog_migration.ts:151-156 | Under any rules, a row an override names loses it to a merge group, an annual name or a private rule. |
| MigrationRules.ResolvedAs | backend/scripts/migrations/2026-07-12_catalog_migration.ts:157-186 | A row goes to the first merge group with its name, else is annual or private by the tables; else its card is the first covering override's, else the last chart card's of its name, else its old code renumbered or as it is if the chart still has it, and without any it is unresolved. |
| MigrationRules.VariantIs | backend/scripts/migrations/2026-07-12_catalog_migration.ts:646-665 | A row is a variant exactly if the last chart card of its code has percents that differ from its own. |
| MigrationRules.AppliedAdds | backend/scripts/migrations/2026-07-12_catalog_migration.ts:503-564 | An apply adds one category for each default one not excluded and each of a business, in order, with name, type and chart, and the technical cards that were missing. |
| MigrationPlan.OneInsertEach | backend/scripts/migrations/2026-07-12_catalog_migration.ts:570-697 | The plan has exactly one insert per CLIENT row, per SYSTEM row neither excluded nor merged, and per merge group that has a row. |
| MigrationPlan.InsertedCount | backend/scripts/migrations/2026-07-12_catalog_migration.ts:570-697 | After an apply the table has grown by that many rows and kept the ones before. |
| MigrationPlan.ParentFoundIff | backend/scripts/migrations/2026-07-12_catalog_migration.ts:333-338 | The apply pass finds a parent by key exactly when the review's own check does. |
| MigrationCommit.CommitsExactlyWhen | backend/scripts/migrations/2026-07-12_catalog_migration.ts:498-697 | The apply pass commits exactly when the review is clean, default rows have their default category, cards are there, and categories and rows are distinct where the unique indexes ask it, all said of the data before the call. |
| MigrationCommit.CommitNeedsCleanReview | backend/scripts/migrations/2026-07-12_catalog_migration.ts:288-385 | A committed apply had no unresolved SYSTEM row, no percent variant and no unmatched parent. |
| MigrationPlan.CleanReviewMayFail | backend/scripts/migrations/2026-07-12_catalog_migration.ts:601-602 | Under any rules, one default row of a private category without its default category passes the review and stops the apply pass. |
| MigrationPlan.ClientRowsKeepTheirPlace | backend/scripts/migrations/2026-07-12_catalog_migration.ts:637-697 | Each CLIENT row is inserted under its business and parent category, private, annual, carded or marked as resolved. |
| MigrationPlan.SystemRowsKeepTheirPlace | backend/scripts/migrations/2026-07-12_catalog_migration.ts:601-630 | Each kept default row is inserted under the default category of its old one's name, as the rules resolve it. |
| MigrationPlan.MergeGroupsHaveTheirRow | backend/scripts/migrations/2026-07-12_catalog_migration.ts:579-599 | Each merge group in use has its one annual row under the groups' category. |
| Migration.Review | backend/scripts/migrations/2026-07-12_catalog_migration.ts:288-378 | The review reports exactly the rows of each kind, in order. |
| Migration.Script.Apply | backend/scripts/migrations/2026-07-12_catalog_migration.ts:498-697 | Goes through exactly when applicable, with the planned tables, and otherwise leaves all as it was. |
| Migration.Script.Run | backend/scripts/migrations/2026-07-12_catalog_migration.ts:217-489 | Stops before reviewing on excluded usage or names, writes nothing unless asked to apply. |
| Csv.ParseCsvLine | backend/scripts/migrations/2026-08-11_import-6111-reference-cards.js:52-80 | The loop with its look-ahead returns the fields of the character-by-character reading that ParseUndoesPrint shows to invert printing. |
| CsvQuotes.ParsedByParity | backend/scripts/migrations/2026-08-11_import-6111-reference-cards.js:52-80 | Any line, well formed or not: a comma with an even number of quotes before it ends a field; a quote is text exactly with an odd number before it and another quote after it; every other character is text. |
| Csv.ParseUndoesPrint | backend/scripts/migrations/2026-08-11_import-6111-reference-cards.js:52-80 | Parsing undoes printing, whichever fields are quoted. |
| Csv.PrintIsUnambiguous | backend/scripts/migrations/2026-08-11_import-6111-reference-cards.js:49-51 | Equal printed lines hold equal fields. |
| Csv.LoadUndoesPrint | backend/scripts/migrations/2026-08-11_import-6111-reference-cards.js:82-98 | For fields without breaks, with either line ending, loading undoes printing exactly when no record is one empty bare field. |
| Csv.EmptyLines | backend/scripts/migrations/2026-08-11_import-6111-reference-cards.js:84 | A record prints as an empty line exactly when it is one empty bare field. |
| Csv.LoadGivesSurviving | backend/scripts/migrations/2026-08-11_import-6111-reference-cards.js:82-98 | Loading a printed file gives back all records but those, in order. |
| LineReader.ScanIsSplit | backend/scripts/profile-startup.js:102 | Splitting at optional carriage return and line feed, scanned from the left, is cutting at line feeds and dropping one carriage return. |
| LineReader.Reader.Consume | backend/scripts/profile-startup.js:100-112 | The loop adds the ended lines, keeps the rest, and notes the first line waited for. |
| LineReader.Reader.Close | backend/scripts/profile-startup.js:123-133 | The rest becomes a last line; the lines are the result exactly if the run completed. |
| LineReader.CutsDoNotMatter | backend/scripts/profile-startup.js:100-112 | However the output is cut into chunks, lines, rest and outcome are those of the whole text. |
| LineReader.UnendedLineDoesNotComplete | backend/scripts/profile-startup.js:123-133 | A line waited for that nothing ends does not complete the run. |
| LineReader.EndedLineCompletes | backend/scripts/profile-startup.js:106-110 | Ended, it does. |

## Left out

- HTTP, signatures, audit logging, request bodies and the transport of forwarded events: an event is taken as authentic and parsed.
- SQL text, connection settings and pools as such: a query is a step that succeeds with its answer or fails.
- Floating point, the rounding of decimal columns, and dates outside four-digit years: rates are reals, days are integers.
- LycheeStore.EveryRunIsSerial: two retries that both time out on the lock are only failures; how long a lock wait takes is not modelled.
- ManualEntry.DocumentTotalIsTyped: does not cover negative recognised percents, for which the code drops the VAT line.
- ManualEntry.BuildManualEntry: of infinite amounts only the signs are kept, as such an entry is never stored.
- Precedence.EffectiveAccounts: the order of the result, which the code sorts by code, is not modelled.
- AccountCodes.NextCodeIsFresh: codes that are not digit strings count as no number; JavaScript would also read forms such as 1e4 as numbers.
- CatalogRuns.LawsHold: edits and deactivation of cards are not part of the runs; `CardEditKeepsLawsIff` says what one edit does.
- Catalog.CatalogService.CreateSubCategory: necessity, visibility scope and creator columns are not modelled.
- `createAccountWithSubCategory`, admin listings, overviews and approvals of the catalog: transactions around the same inserts.
- TaskPeriods.EnumeratePeriods: the label text is parsed as the code does but not kept in the period; titles are not modelled.
- TaskRuns.AnyOrderEndsAlike: row ids depend on insertion order and are not modelled, nor is the skipped count.
- Notifications, `backfillWorkflows` and manual tasks of the task tables.
- MigrationPlan.SystemRowsKeepTheirPlace: necessity, code 6111, display order and the review document's text are not modelled.
- Csv.LoadUndoesPrint: header columns and the checks on each row's values are not modelled.
- LineReader.Reader.Consume: chunks are text; a character whose bytes are cut between chunks is not modelled, nor are the line callbacks.
- Seed tables, NestJS modules, guards, billing, reports and PDF rendering: plumbing or finite data.
