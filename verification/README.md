# Monster Paws: a verified model of four protocols

This project models the four stateful parts of the Monster Paws application and proves what each of them promises:

- **The painting email**: a sweeper that claims a row, sends and writes the outcome, and may die between any two of these, beside the
  provider's webhook events, address corrections, unsubscribes and the erasing of abandoned addresses.
- **The donation webhook**: deliveries stored, spooled to files, replayed by a sweep and decided, so that one gift is recorded once.
- **The ingest corpus**: content hash, raw store, claim merge by trust, canonical writer, presence lifecycle with its disappearance
  gate, and replay; the in-memory stages and the Postgres ones.
- **Browse**: keyset pages walked both ways over two group reads, and the filter menus counted from one grid.

Each SQL transaction is one atomic step. Code that updates tables, files or maps in place is a class or a method with a loop, proved
against a function of the old state; the protocols' promises are then lemmas about every run of those functions. Digests and the
HMACs of addresses are taken to be injective, instants are integers, and `Date` parsing, ISO printing, JSON text, string collation and
the order a `Map` or an unordered query lists its rows in are parameters or left open.

## How the files fit together

| part | files |
|---|---|
| shared | `Prelude.dfy` (options, filters), `Sorting.dfy` (stable sort and why its answer is unique) |
| painting email | `Addresses.dfy`, `MailTables.dfy` (the transactions as functions), `MailBodies.dfy`, `MailStore.dfy` (the tables as a class), `MailProtocol.dfy` (runs and the invariant), `MailSafety.dfy`, `MailHazard.dfy`, `MailReach.dfy`, `MailEvents.dfy`, `MailAgreement.dfy`, `MailWalk.dfy`, `MailStops.dfy` |
| donation webhook | `GiftBodies.dfy`, `Gifts.dfy`, `GiftRuns.dfy`, `GiftStore.dfy`, `Spool.dfy`, `SpoolDirectory.dfy`, `SpoolProtocol.dfy`, `SweepRuns.dfy` |
| ingest corpus | `Json.dfy`, `Canonical.dfy`, `CanonicalProof.dfy`, `CanonicalOrder.dfy`, `Sidecar.dfy`, `SidecarOrder.dfy`, `Claims.dfy`, `ClaimOrder.dfy`, `RawStore.dfy`, `Corpus.dfy`, `CorpusReplay.dfy`, `CorpusStore.dfy`, `PgStages.dfy`, `PgRefinement.dfy`, `PgWitness.dfy`, `Lifecycle.dfy`, `LifecycleStores.dfy`, `ReconcileOrder.dfy`, `PresenceHistory.dfy`, `Gate.dfy`, `GateRuns.dfy` |
| browse | `Browse.dfy`, `BrowsePages.dfy`, `Facets.dfy`, `Settling.dfy` |

`dafny verify dfyconfig.toml` checks everything.

## Where the code and its own promise part

Each of these is proved: an input or a run on which the promise fails, and the exact condition under which it holds.

- *At most one mail per gift and address* is false in general. The owed list is read before the claim: if a donor corrects `a` to `b` in
  between, the answer to `a`'s mail is lost, `b`'s mail bounces, and the donor returns to `a`, then a day later `a` is mailed again.
  Such a claim is four steps from empty tables (`MailReach.StaleClaimIsReached`), so some run mails an address twice
  (`MailReach.SomeRunMailsTwice`). It is safe to take a claim exactly when the gift still has the address read, or has none, or either
  address is on the stop list (`MailHazard.ClaimGuardIsExactOnRuns`).
- *Early and late events agree* fails for a hard bounce when the address was corrected while the mail was out, as a run from empty
  tables does (`MailReach.CorrectedMailIsReached`): heard early the row is kept as bounced, so the new address is never mailed; heard
  late the row is cleared and it is. All interleavings of a mail's deliveries agree exactly when the address was not corrected or none of
  them is a hard bounce (`MailAgreement.OrderMattersExactly`).
- *Every event is acted on in the end* fails when a crash skips the settling after the sent write. It loses something exactly when a hard
  bounce came early, or a delivery did and the gift still holds the address mailed without an account
  (`MailEvents.SettlingMattersExactly`); no retry of those events repairs it (`MailEvents.SkippedSettlingIsFinal`).
- *An inbox's normal form is normal* fails for a Gmail address whose local part starts with dots and then a space, and only there
  (`Addresses.NormalFormStaysExactly`, `Addresses.DotHidesSpace`).
- *Postgres matches the in-memory reference* fails in two places. On a repeat it normalizes the payload just fetched, not the stored one,
  so two payloads of one hash can name an animal differently (`PgWitness.PayloadsPart`); and it dates a new identity by the newest
  sighting of any of its rows, not of its newest row, so a clock that stepped back shows (`PgWitness.SightingsPart`). The two corpora are
  equal at every point of a history exactly when no repeat read differently to any effect and at no founding had an earlier row been
  seen later (`PgRefinement.PgAgreesExactly`). The first failure also makes what Postgres holds impossible to rebuild from its rows, and
  is the only thing that does (`PgRefinement.PgRebuildsExactly`).
- *Replay is silent* fails when a first row was refused for want of a name and asserts something the rows applied since do not outdo
  (`CorpusReplay.RefusedRowSpeaksOnReplay`). It holds exactly when every row refused before its animal was founded adds nothing:
  each claim it asserts is beaten, and its display and upkeep, if any, are given by an applied row as well
  (`CorpusReplay.ReplayIsSilentExactly`).
- *Both stores tell the same event sequence* fails for two animals of one source whose ids `localeCompare` ties, as it must tie
  canonically equivalent ones (`ReconcileOrder.EquivalentIdsLeaveOrderOpen`). The sequence is settled exactly when the gate refuses or no
  two events of one kind tie (`ReconcileOrder.ReconcileIsDeterminedExactly`); everything else agrees always
  (`Lifecycle.ReconcilesAgree`).
- *The order a fetch lists resources in never shows in the hash* fails for the same reason, and holds exactly when no two resources the
  animal refers to have refs that tie (`SidecarOrder.FetchOrderNeverShowsExactly`).
- *Two passing losses pass as one* fails when either gap is under a day, because each run is given at least a day
  (`GateRuns.ComposesExactly`), and the floor of 100 excuses losses of any share (`GateRuns.FloorExcuses`).
- *A menu's count is a promise* for every value but the empty string, which filters nothing once picked (`Facets.CountsArePromises`).
- The comment on `settle` says a pick clears *another* menu's choice, and that one clearing can empty a third. It clears in menu order,
  so the pick just made can go first (`Settling.NewPickMayGo`), and a clearing only widens, so one round is always enough
  (`Settling.OneRoundRests`).

## Assumptions

- Mail: one sweeper at a time; the provider mails nothing new under a key for 24 hours after it first accepted it, gives every mail an
  id of its own, and answers "not sent" only when it did not send; a tick ends within the hour its 23-hour window leaves; a bounce event
  carries the address mailed; share tokens are unique; no provider refusal is named `bounced`; the owed list and the tick's `now` are taken
  at one instant. Two steps are taken as one though no transaction holds them together: the reads and updates of `settleEarlyEvent`
  (src/core/email/resend-webhook.ts:142-169), and the insert and select of `claimSend` (src/core/email/painting-sweep.ts:118-129).
- Gifts: a newly minted intent's id was named by no delivery decided before; raw rows, donations and decisions are never deleted.
- Spool: file names are unique; what was synced survives a crash, and nothing else need.
- Corpus: the normalizer is deterministic; a collation is total and transitive, and may tie strings that differ.
- Browse: rows are dated, and an id belongs to one row.

## Model

| member | source | states |
|---|---|---|
| Addresses.ReadAlike | src/core/email/suppression.ts:17-42 | two spellings read as one address exactly when they agree without case and margins: the inbox form never tells them apart |
| Addresses.SharesInboxExactly | src/core/email/suppression.ts:17-25 | two spellings share an inbox exactly when they name one mailbox, tag and at Gmail dots aside, at one domain, Gmail's two being one |
| Addresses.TagsAreDropped | src/core/email/suppression.ts:23 | whatever follows a plus sign in the local part leads to the same inbox |
| Addresses.GmailDotsAreDropped | src/core/email/suppression.ts:22-24 | two spellings of a Gmail address that differ in dots, or in which of its domains, share an inbox |
| Addresses.NormalFormStaysExactly | src/core/email/suppression.ts:17-25 | normalising a normal form changes nothing if and only if the mailbox does not start with a space |
| Addresses.DotHidesSpace | src/core/email/suppression.ts:18-24 | every Gmail address typed with a dot and a space in front is such a form |
| MailStore.Store.FindIntent | src/core/email/resend-webhook.ts:45-53 | the gift of a mail is found through the provider id on its send row, and there is none when no row carries it |
| MailStore.Store.ClaimSendRow | src/core/email/painting-sweep.ts:118-129 | a claim inserts once and otherwise reports sent, held, stale past 23 hours or retry, changing nothing |
| MailStore.Store.ReceiveResendEvent | src/core/email/resend-webhook.ts:76-135 | the whole effect of one event on events, gifts, send rows and stop list, once per svix id |
| MailStore.Store.ReceiveBody | src/core/email/resend-webhook.ts:62-135 | the same from a parsed body: an unreadable one changes nothing, and otherwise its kind, mail id and first address are the event |
| MailBodies.PermanentMeans | src/core/email/resend-webhook.ts:80-104 | of all bodies, only a suppression or a bounce that says it is permanent can write a permanent stop |
| MailStore.Store.SettleEarlyEvent | src/core/email/resend-webhook.ts:142-169 | what early events of a mail do once its id is written, bounce before delivery |
| MailStore.Store.PaintingMailState | src/core/email/painting-state.ts:10-21 | the state address correction reads from the send row |
| MailStore.Store.CorrectDonorEmail | src/core/donate/intent.ts:238-257 | a correction is refused or replaces the address and clears a bounced row, and nothing else |
| MailStore.Store.SendOwedPaintings | src/core/email/painting-sweep.ts:136-199 | the loop over owed gifts leaves the tables and report of its turns in order, and keeps one row per mail id |
| MailStore.Store.SendOne | src/core/email/painting-sweep.ts:141-196 | one gift: stopped, nameless, its art unreadable, unclaimable, sent and settled, refused, or its own fresh claim withdrawn |
| MailHazard.TurnIsRun | src/core/email/painting-sweep.ts:141-196 | one turn of the loop, uninterrupted, leaves exactly the tables the protocol's separate steps leave |
| MailStore.Store.StopInbox | src/core/email/suppression.ts:75-104 | a token this key never made changes nothing; otherwise the stop list grows by its inbox, every gift of that inbox loses its address, and they are counted |
| MailStore.Store.EraseAbandonedAddresses | src/core/donate/intent.ts:261-275 | only open gifts past thirty days lose their address, and they are counted |
| MailStops.StoppedIsNeverMailed | src/core/email/suppression.ts:43-52 | once an address is stopped no run mails it again, but for at most the one gift already in hand |
| MailStops.UnsubscribeStopsInbox | src/core/email/suppression.ts:83-104 | an unsubscribe stops every spelling of the inbox and leaves no gift holding one, and no other gift changed |
| MailStops.CorrectionMeans | src/core/donate/intent.ts:228-257 | a correction takes hold exactly after a bounce, or before any claim while an address is held; the gift is then owed to the new address, and otherwise nothing changes |
| MailSafety.StepKeepsInv | src/core/email/painting-sweep.ts:136-199 | every step of sweeper, provider, webhook, correction, stop, abandonment and crash keeps the protocol's invariant when claims are guarded |
| MailSafety.KeyStillHeld | src/core/email/painting-sweep.ts:48-52 | under an open claim within its hour, the provider still holds the key of any mail that left for this gift and address |
| MailSafety.RunKeepsInv | src/core/email/painting-sweep.ts:136-199 | the invariant holds after every guarded run |
| MailSafety.GuardedRunsMailOnce | src/core/email/painting-sweep.ts:131-199 | on every run from empty tables whose claims are for an address the gift still had, no painting reaches one address twice |
| MailHazard.StaleClaimMailsTwice | src/core/email/painting-sweep.ts:69-129 | from any state of the invariant with a stale claim in hand there is a run, guarded from then on, that mails one address twice |
| MailReach.StaleClaimIsReached | src/core/email/painting-sweep.ts:131-170 | a gift, the owed list read, its address checked and then corrected: a run from empty tables with a stale claim in hand |
| MailReach.SomeRunMailsTwice | src/core/email/painting-sweep.ts:131-199 | for every clock and every two addresses some run from empty tables mails one of them twice for one gift |
| MailReach.CorrectedMailIsReached | src/core/email/resend-webhook.ts:111-118 | a run from empty tables leaves a mail out whose gift's address was corrected, so early and late hard bounces can part |
| MailHazard.ClaimGuardIsExact | src/core/email/painting-sweep.ts:118-129 | in any state of the invariant, taking the claim is safe for every continuation if and only if the guard holds |
| MailHazard.ClaimGuardIsExactOnRuns | src/core/email/painting-sweep.ts:118-129 | the same after any guarded run from empty tables |
| MailEvents.EveryInterleavingSettles | src/core/email/resend-webhook.ts:62-169 | wherever the sent write and the settling fall among a mail's events, address, send row and stop list end at one outcome, a hard bounce beating a delivery |
| MailEvents.EarlyAndLateAgree | src/core/email/resend-webhook.ts:137-169 | two interleavings of the same deliveries, repeats included, end in the same tables |
| MailEvents.HardBounceAgreesExactly | src/core/email/resend-webhook.ts:101-118 | one hard bounce alone, early and late, ends alike if and only if the address was not corrected |
| MailAgreement.OrderMattersExactly | src/core/email/resend-webhook.ts:62-169 | for any deliveries of a mail, all their interleavings with write and settling, in every order and with repeats, end alike if and only if the address was not corrected or none is a hard bounce |
| MailEvents.CorrectedBounceParts | src/core/email/resend-webhook.ts:111-118 | with a corrected address the early path keeps a bounced row and the late path clears it |
| MailEvents.EarlyBounceNeedsSettling | src/core/email/resend-webhook.ts:137-142 | without the settling, an early bounce leaves the row sent and the gift's address in place |
| MailEvents.SettlingMattersExactly | src/core/email/resend-webhook.ts:137-169 | whatever events came early, a skipped settling loses something if and only if one was a hard bounce, or a delivery to an address the gift still holds without an account |
| MailEvents.SkippedSettlingIsFinal | src/core/email/resend-webhook.ts:79-89 | and no retry of those events changes the tables any more |
| MailWalk.BatchIs | src/core/email/painting-sweep.ts:69-90 | a tick's batch is ascending, owed, past the cursor, and full before any owed id is left out |
| MailWalk.OwedIsTaken | src/core/email/painting-sweep.ts:60-113 | a keepsake owed throughout a cycle is taken after at most floor(k/10) other completed ticks, k being how many smaller ids were ever owed, however many ticks an error cuts off |
| MailWalk.TakenOnce | src/core/email/painting-sweep.ts:208-219 | and by one completed tick only, after which no tick of the cycle, cut off or not, reads it again |
| MailWalk.CutOffIsReadAgain | src/worker/index.ts:196-205 | a tick an error cuts off leaves the next to read the same batch |
| GiftBodies.KeepShaped | src/core/donate/webhook.ts:88-95 | the loop keeps exactly the fields that fit their shape, in order, and names the rest |
| GiftBodies.StorableBody | src/core/donate/webhook.ts:105-121 | the stored form: shaped fields, the shaped nonprofit, and the sorted names of what was dropped |
| GiftBodies.StoredDecidesAlike | src/core/donate/webhook.ts:183-232 | for every body, the verdict read from the stored form is the whole body's |
| GiftBodies.EventAlike | src/core/donate/webhook.ts:70-81 | the completed-gift test gives the same answer on the stored form |
| GiftBodies.FieldsAlike | src/core/donate/webhook.ts:138-157 | the donation's fields read back the same from the stored form, or are missing from both |
| GiftBodies.RowsHoldOnlyShaped | src/core/donate/webhook.ts:97-104 | whatever fields a body gains, a readable body's row holds only shaped fields and safe key names |
| Gifts.PreparedReadsAsBody | src/core/donate/webhook.ts:183-212 | a prepared row, through text and back, is judged as the whole body |
| GiftStore.Tables.StoreDelivery | src/core/donate/webhook.ts:200-203 | a delivery becomes one new row under a new id |
| GiftStore.Tables.DecideLocked | src/core/donate/webhook.ts:289-344 | the outcome under the row lock, and donation, stat and closed intent written together or not at all |
| GiftStore.Tables.DecideStored | src/core/donate/webhook.ts:209-232 | a row's verdict, its writes and its decision row, the first decision standing |
| Gifts.StepConserves | src/core/donate/webhook.ts:279-344 | minting, storing and deciding keep every conservation law |
| Gifts.RunConserves | src/db/schema.ts:431-467 | on every run: an intent is closed exactly when it has its one donation, charges are unique, each donation has its stat, a decision is recorded exactly when a donation references its payload, and a decided body can record no more |
| Gifts.ReadingConserves | src/core/donate/webhook.ts:209-232 | the same with rows read as the platform reads them, whatever its parsers answer |
| Gifts.OutcomesMean | src/core/donate/webhook.ts:289-325 | in any reachable state each outcome is an exact fact about the donations: repeated when this charge is on this intent, closed when another is, and so on |
| Gifts.SpentStays | src/core/donate/webhook.ts:301-325 | a decided body stays unable to record, whatever else happens, unless the very intent it names is minted later |
| Gifts.TotalsAgree | src/core/donate/webhook.ts:328-341 | the statistics' total per animal and currency is the donations' total |
| GiftRuns.DuplicatesAreHarmless | src/core/donate/webhook.ts:248-276 | donations, stats and closed intents of any run are those of the run keeping only the first committed decision of each equal body |
| GiftRuns.ReadingDuplicatesAreHarmless | src/core/donate/webhook.ts:209-276 | the same with rows read as the platform reads them |
| GiftStore.Tables.ReplayFiles | src/core/donate/webhook-replay.ts:31-48 | the sweep stores rows and deletes their files until the first failing insert, counts stale files, and touches nothing after |
| GiftStore.Tables.DecideWaiting | src/core/donate/webhook-replay.ts:50-64 | if the query listing them answers in time, the oldest hundred settled undecided rows are decided in id order until a clock expires; otherwise none is |
| GiftStore.Tables.Sweep | src/core/donate/webhook-replay.ts:29-69 | both halves, whichever query fails: no decision is tried after a failing insert or a failing list |
| GiftStore.DeletedFilesHaveRows | src/core/donate/webhook-replay.ts:24-42 | whatever fails, a file the sweep deletes has its raw row |
| GiftStore.SweepConserves | src/core/donate/webhook-replay.ts:50-64 | however its queries fare, a sweep keeps every conservation law |
| GiftStore.SweepMovesOn | src/core/donate/webhook-replay.ts:50-64 | when its queries commit, exactly the batch stops waiting |
| Spool.SpooledReadsBack | src/core/donate/webhook-spool.ts:52-64 | a spooled row reads back as itself |
| SpoolDirectory.Directory.SpoolDelivery | src/core/donate/webhook-spool.ts:33-50 | the finished file holds the row, no unfinished one is left, and a name in use is refused |
| SpoolDirectory.Directory.ReadSpool | src/core/donate/webhook-spool.ts:67-85 | exactly the directory's finished files, each once and in name order, and every hour-old unfinished file cleared and no other |
| SpoolDirectory.SpooledIsListed | src/core/donate/webhook-spool.ts:67-85 | a spooled delivery is listed as the very row it was, and is never cleared as abandoned |
| SpoolProtocol.StepKeepsInv | src/core/donate/webhook.ts:253-276 | every step of requests, late inserts, spooling, sweep and crash keeps the spool's invariant |
| SpoolProtocol.UnlinkKeepsInv | src/core/donate/webhook-replay.ts:36-42 | a file goes only once its row is stored |
| SpoolProtocol.CrashKeepsInv | src/core/donate/webhook-spool.ts:29-50 | a crash that loses, reverts or tears everything unsynced loses no accepted delivery |
| SpoolProtocol.NothingAcceptedIsLost | src/core/donate/webhook.ts:248-276 | on every run an answered delivery has its raw row or a durable file that reads back as it, no visible file is half a delivery, and every row is a delivery |
| SweepRuns.SweepIsRun | src/core/donate/webhook-replay.ts:29-49 | the loop over the spooled files, whichever queries fail or run out, is a run of the protocol's steps storing and deleting what the loop does |
| SweepRuns.SameFilesGo | src/core/donate/webhook-replay.ts:36-42 | the files that run deletes are those the loop deletes by name |
| SweepRuns.SweepLosesNothing | src/core/donate/webhook-replay.ts:24-49 | after a whole loop, every answered delivery has a row, or a file not deleted that reads back as it |
| SweepRuns.SweepDrains | src/core/donate/webhook-replay.ts:29-49 | when the loop lists every readable file and its inserts commit, no readable file is left and every answered delivery has its raw row |
| Json.QuotedReadsBack | src/core/ingest/hash.ts:40 | a quoted string, escapes and lone surrogates included, reads back as itself |
| Canonical.CanonicalText | src/core/ingest/hash.ts:12-41 | the recursion with its loops computes the canonical text |
| CanonicalProof.PrintUnique | src/core/ingest/hash.ts:12-41 | a printed value shows where it ends and what it was |
| CanonicalOrder.SameTextMeansSameKept | src/core/ingest/hash.ts:24-32 | with any exclusions, two payloads share a text if and only if what is kept of them is one value |
| CanonicalOrder.CanonicalTextIsExact | src/core/ingest/hash.ts:44-46 | with none, they share a text if and only if they are the same JSON up to key order |
| Sidecar.RefsOf | src/core/ingest/rescuegroups.ts:52-60 | the refs of all relationships, one or a list each, read from the animal's own JSON in order |
| Sidecar.WantedSame | src/core/ingest/rescuegroups.ts:52-73 | the set of refs an animal wants does not depend on the order of its JSON's keys |
| SidecarOrder.FetchOrderNeverShowsExactly | src/core/ingest/rescuegroups.ts:62-76 | fetches that differ only in key order and in the order of a duplicate-free `included` all hash the same if and only if no two wanted resources have refs that tie under the collation |
| Claims.MergeClaims | src/core/ingest/merge.ts:35-66 | the loop's claims, changed, touched and conflicted fields and date are the per-field merge's |
| ClaimOrder.FoldIsBest | src/core/trust.ts:20-39 | folding merges over any observations holds, per field, the non-null claim best by tier, fetch time and raw id |
| ClaimOrder.FoldForgetsOrder | src/core/trust.ts:20-39 | in whatever order they came |
| ClaimOrder.RemergeIsSilent | src/core/ingest/merge.ts:46-63 | merging any earlier observation again changes and touches nothing |
| ClaimOrder.MergeTwiceIsSilent | src/core/ingest/merge.ts:46-63 | as does merging one row twice on any claims at all |
| ClaimOrder.TouchedFieldsSuffice | src/core/ingest/merge.ts:57-62 | writing only the touched fields stores the whole merge |
| RawStore.RowsAreStretches | src/core/ingest/memory.ts:94-129 | one identity's rows are its observations with consecutive repeats removed, each with its stretch's first and last fetch |
| RawStore.StretchesAlternate | src/core/ingest/pg.ts:35-50 | neighbouring stretches differ, so a payload that reverts is a third row |
| RawStore.RowsNumbered | src/core/ingest/memory.ts:117-126 | raw ids number the rows in the order they were written |
| Corpus.NewestRowIsSettled | src/core/ingest/pipeline.ts:596-606 | deriving again an identity's newest row changes nothing and tells nothing |
| Corpus.RebuildIsFaithful | src/core/ingest/pipeline.ts:590-606 | at every point of any history, replaying the corpus from empty rebuilds the same claims, display, upkeep, ids and events |
| ClaimOrder.FoldOfMore | src/core/trust.ts:20-39 | folding more observations over the same ones holds the same claims if and only if each is held or beaten already |
| CorpusReplay.ReplayIsSilentExactly | src/core/ingest/memory.ts:139-204 | after any history, replaying its corpus changes nothing and tells nothing if and only if, for every identity, the rows refused before it was founded add nothing |
| CorpusReplay.ReplayShows | src/core/ingest/pipeline.ts:596-606 | a replay leaves each identity showing the fold, display and upkeep of what it held and the rows applied since |
| CorpusReplay.RefusedRowSpeaksOnReplay | src/core/ingest/memory.ts:142-146 | a first row refused for want of a name adds a claim on replay |
| CorpusStore.MemoryStages.PersistRow | src/core/ingest/memory.ts:95-128 | the in-memory store persists or touches, and hands on the stored row |
| CorpusStore.MemoryStages.ApplyCandidate | src/core/ingest/memory.ts:139-204 | the in-memory writer's whole effect, and that it refuses only a new identity it cannot show |
| CorpusStore.MemoryStages.DeriveOne | src/core/ingest/pipeline.ts:453-513 | one stored observation through normalize, resolve and write |
| CorpusStore.MemoryStages.ReplayRows | src/core/ingest/pipeline.ts:596-606 | the replay loop is the replay of the rows |
| CorpusStore.MemoryStages.RunIngest | src/core/ingest/pipeline.ts:521-588 | a run polls and derives each observation, and reconciles exactly when the feed ended, was complete and showed something |
| CorpusStore.PollsKeepPresence | src/core/ingest/pipeline.ts:554-560 | a partial, empty, failed or refused run moves no known identity's presence |
| PgStages.PgTables.PersistRow | src/core/ingest/pg.ts:33-83 | compares with the newest row only, touches or inserts, and hands on the fetched payload under the row's own stamps |
| PgStages.PgTables.WriteAnimal | src/core/ingest/pg.ts:153-190 | storing touched columns only, the animal's row holds the very merge the reference holds |
| PgStages.PgTables.ApplyCandidate | src/core/ingest/pg.ts:153-280 | the transaction's whole effect on animals, identities, display and events, and its refusal of a first row it can't show |
| PgStages.PgTables.ObserveOne | src/core/ingest/pg.ts:33-280 | one observation through persist, normalize and write |
| PgRefinement.PollAgreesExactly | src/core/ingest/pg.ts:33-225 | in any corpus caught up with its rows, a poll does the same in both stores if and only if a repeat reads to no other effect and a founding comes in order |
| PgRefinement.PgAgreesExactly | src/core/ingest/pg.ts:25-31 | over every history of polls and reconciles, the two corpora are equal throughout if and only if every poll is such a one |
| PgRefinement.SamePayloadReadsAlike | src/core/ingest/pg.ts:58-63 | a repeat whose fetched payload normalizes as the stored one reads to no other effect |
| PgRefinement.PgRebuildsExactly | src/core/ingest/pg.ts:58-63 | what Postgres holds is what a replay from its rows rebuilds, throughout a history, if and only if no repeat read to another effect |
| PgWitness.PayloadsPart | src/core/ingest/pg.ts:58-63 | two polls of one hash and two payloads after which the stores name the animal differently and Postgres cannot be rebuilt |
| PgWitness.SightingsPart | src/core/ingest/pg.ts:192-211 | a poor row, then a founding dated before it: the stores date the new identity differently |
| LifecycleStores.MemoryLifecycle.Reconcile | src/core/ingest/memory.ts:206-255 | the in-memory loop reconciles: clock, tally, refusal, identities and ordered events |
| LifecycleStores.PgLifecycle.Reconcile | src/core/ingest/pg.ts:294-387 | the set-based statements reconcile by the same promise |
| LifecycleStores.MedianDate | src/core/ingest/memory.ts:71-76 | sorting and taking the element at ceil(n/2)-1 gives the discrete median |
| LifecycleStores.PgLifecycle.PercentileDisc | src/core/ingest/pg.ts:318-326 | down the rows in date order, the first whose position over their count reaches a half gives the median the reference's middle element does |
| LifecycleStores.MiddleIsMedian | src/core/ingest/memory.ts:71-76 | the middle of the sorted dates is the first value whose share reaches a half |
| LifecycleStores.TwoUpdatesReconcile | src/core/ingest/pg.ts:350-363 | the two set updates together are the loop's effect |
| Lifecycle.ReconcilesAgree | src/core/ingest/pipeline.ts:314-324 | both stores always give the same clock, tally, refusal, identities and events, up to the order of events |
| ReconcileOrder.ReconcileIsDeterminedExactly | src/core/ingest/pipeline.ts:314-324 | the event sequence is settled if and only if the gate refuses or no two events of one kind tie under the collation |
| ReconcileOrder.EquivalentIdsLeaveOrderOpen | src/core/ingest/pipeline.ts:322 | under any collation that ties the two spellings of an accented letter, two animals under them leave the order open |
| PresenceHistory.HistoriesAlternate | src/core/ingest/memory.ts:239-250 | on every run, at every point, each identity's events and state agree |
| PresenceHistory.ToldMeans | src/core/ingest/pipeline.ts:293-305 | that is: they alternate from a disappearance, the last one is the state, and a gone identity's disappearance is never dated before its sighting |
| PresenceHistory.SightingsOnlyMoveOn | src/core/ingest/pipeline.ts:306-312 | last sightings never decrease and told events are never taken back, even when the clock steps back |
| PresenceHistory.RefusalChangesNothing | src/core/ingest/memory.ts:232-238 | a refused reconcile changes no presence and tells nothing |
| Gate.ExceedsExactly | src/core/ingest/pipeline.ts:255-266 | the compounding rate exceeds r if and only if survivors are fewer than (1-r)^days leaves |
| Gate.RateIsOne | src/core/ingest/pipeline.ts:262-266 | there is only one such rate |
| Gate.NeverBelowPlainRate | src/core/ingest/pipeline.ts:255-259 | it is never below share over days |
| Gate.RisesWithLosses | src/core/ingest/pipeline.ts:262-266 | it rises with losses |
| Gate.FallsWithDays | src/core/ingest/pipeline.ts:262-266 | it falls, or stays, with days |
| GateRuns.WithinMeansRate | src/core/ingest/pipeline.ts:274-282 | a loss is within r a day exactly when its rate is at most r |
| GateRuns.TwoLossesAsOne | src/core/ingest/pipeline.ts:262-266 | in a closed population two consecutive losses within r, over whole days, are within r as one |
| GateRuns.ComposesExactly | src/core/ingest/pipeline.ts:258-266 | and that holds for every loss and rate if and only if both gaps are at least a day |
| GateRuns.TwoRunsInOneDay | src/core/ingest/pipeline.ts:258-266 | a concrete pair of runs minutes apart that pass where their sum would not |
| GateRuns.TwoLossesAtTheGate | src/core/ingest/pipeline.ts:274-291 | two losses the gate lets through, of everyone even, are refused as one only if the floor excused one of them |
| GateRuns.FloorExcuses | src/core/ingest/pipeline.ts:250-251 | 99 of 300 passes at any rate |
| Browse.WalkIsSlice | src/core/browse.ts:294-328 | the two reads return the slice one sort on group, date and id would, for either side and any cursor |
| BrowsePages.PageBelow | src/core/browse.ts:330-364 | a page below a cursor or at the top is a window of the one listing, cursors and teaser included |
| BrowsePages.PageAbove | src/core/browse.ts:330-364 | so is a page above a cursor, flipped back into display order |
| BrowsePages.PreviousUndoesNext | src/core/browse.ts:330-364 | on a table that stands still, Next then Previous gives back the whole page that was left |
| BrowsePages.PageCovers | src/core/browse.ts:103-109 | a page leaves out no row between its cursor and the next |
| BrowsePages.FollowingNextShowsOnce | src/core/browse.ts:102-121 | following Next to the end while the table changes shows rows in display order, and each row present throughout exactly once |
| Facets.GridWeighs | src/core/browse.ts:403-422 | any group of cells weighs as many visible animals as it stands for |
| Facets.Tally | src/core/facets.ts:55-63 | the loop's counts are the menu's options |
| Facets.ListedWhenHeld | src/core/facets.ts:75-92 | a value is offered if and only if some visible animal has it under the other picks |
| Facets.CountsArePromises | src/core/facets.ts:70-92 | an option's count is the size of the page its pick opens if and only if the value is not empty or every such animal has it |
| Settling.Settle | src/ui/browse-filters.tsx:90-105 | the loop ends, with no picks or with some cell meeting all that remain, and changes nothing exactly when that already held |
| Settling.OneRoundRests | src/ui/browse-filters.tsx:85-105 | one round over the menus reaches the fixpoint |
| Settling.OfferedWhenPossible | src/ui/browse-filters.tsx:96-101 | a pick is offered beside the others exactly when some cell meets them all and a state looks like one |
| Settling.SettleClearsFromTheFront | src/ui/browse-filters.tsx:92-103 | the picks given up are the first in menu order, as few as leave something to show; a state that is no code goes in any case, alone when some cell meets every pick |
| Settling.NewPickMayGo | src/ui/browse-filters.tsx:85-89 | a concrete grid where the pick just made is the one cleared |

## Left out

- MailSafety.GuardedRunsMailOnce: two sweepers at once, rows a person deletes by hand and a provider that forgets a key within the day are outside its runs.
- MailStore.Store.ReceiveBody: signature checks and the JSON parser itself are not modelled; a body is what it parsed to.
- MailStore.Store.SettleEarlyEvent: one step, though its reads and updates are separate statements.
- MailStore.Store.StopInbox: the check of the token's keyed digest is a parameter.
- MailStore.Store.SendOwedPaintings: rendering, reading and encoding the paintings are not modelled; whether a gift has a name and readable art comes with the owed list.
- Addresses.ReadAlike: trims and folds ASCII only, not Unicode case or space.
- GiftBodies.StorableBody: the size and hash kept of an unreadable body, and the redaction of headers, are not modelled; text counts characters as the regular expressions count code units.
- GiftStore.Tables.DecideLocked: an amount too large for its column fails the query in the source and is recorded here; the instant an intent closes is not kept.
- Gifts.RunConserves: the deletion of a donor's rows is not among its steps.
- SpoolProtocol.NothingAcceptedIsLost: says nothing of when a sweep runs; a full disk or a missing directory is a request that fails, and so is not accepted.
- CorpusStore.MemoryStages.RunIngest: report counters, run records and a database that fails mid-run are not modelled, and the gate's verdict is a parameter.
- PgStages.PgTables.ApplyCandidate: the serial ids a rolled-back insert burns are not modelled, nor two pollers of one source at once.
- Sidecar.RefsOf: a ref whose type or id is not a string is read as none, and a null in a list of refs, on which the source throws, likewise.
- Gate.ExceedsExactly: whole days and exact reals only; the fractional days and floating point of `**` are not modelled.
- CanonicalOrder.CanonicalTextIsExact: a number is the literal it prints as, so the printing of doubles and the refusal of non-finite numbers are not modelled.
- Browse.WalkIsSlice: undated rows, which no cursor can reach, and the filters themselves are not modelled; a table is the rows the filters let through.
- BrowsePages.PageAbove: the page is reversed as a value, not in place.
- Facets.Tally: a menu is a map from value to count; the order it lists its options in is not modelled.
- Cursor text, `sortWhere`, `pickRandomAnimalId`, card display, the shelter and zip scope: expressions that would add only easy members.
- The URL of a browse query, radius and sort parsing, React state: presentation.
- `src/worker/art.ts`, keepsakes, share publishing, outreach and everything under `comfyui/`: processes, images and heuristics outside these four protocols.
