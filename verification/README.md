# Beat Galer control plane: a verified model

This project models the server-side protocols of `cloud-server` in Dafny and proves what they keep across late, repeated
and reordered messages, several workers, and a process that dies between any two of its effects.

- **Library** (`Library*.dfy`, `TrashAssets.dfy`). A user's library is an INDEX document pinned in a Telegram channel
  and a ledger in PostgreSQL that names it. `LibraryPublication` specifies bootstrap, recovery, publication and the
  two-phase purge as steps over both stores, with a `Fault` for the place where the process dies; `LibrarySafety`,
  `LibraryRuns`, `LibraryRetry`, `LibraryAssets`, `LibraryPurge` and `LibraryPlaces` prove what holds over every run;
  `LibraryRecovery` says what bootstrap and recovery make of a channel; `LibraryGrowth` says when a document is
  published, and that a granted beat can be; `LibraryService` is the same service as a class whose methods change
  tables and channel in place and are proved to reach exactly the specified worlds. `TrashAssets` collects the
  messages a beat names; it decides which beats can be purged.
- **Billing** (`AccessResolver`, `Billing*`, `WebhookInbox`, `InboxDelivery`, `Checkout`). Provider events are
  delivered by a leased inbox, folded into one row per user, resolved into access as a function of time, and
  reconciled against the provider's own listing; `BillingEvents` says of every event, field by field, what it stores
  and when it is refused, `BillingListing` the same of a listing; checkouts are created at most once.
- **Auth state** (`AuthDelta`, `WriteQueue`, `UserMerge`, `RateLimit`). Processes share tables by writing only deltas, a
  queue makes snapshots durable before any response, snapshots merge by stable id, and a fixed window limits requests.
- **Direct transport** (`DirectLeases`, `CapabilityStore`, `VaultAssignment`). Leases of transport bots, one INDEX
  operation per vault, one-use capabilities, and permanent vault assignments.

Each module has the same shape: value types for the stored state, one specification function per operation, a class whose
methods are proved to compute it, and lemmas over runs of steps. SQL transactions and row locks make an operation one step;
Telegram effects and crashes are the points where a step may stop. Digests are identified with what they hash, because
equal digests are taken to mean equal contents. One clock stands for application and database. What the environment must
respect is a named predicate: `LibrarySafety.Allowed` (an asset of a beat names a message that is not an INDEX; nobody else
pins an INDEX or deletes one) and `DirectLeases.Fresh` (random ids are new); `LibraryAssets.AssetNamingTheNextIndexLosesIt`
shows why the first is needed. Constraints of the billing tables are part of the model: a row they refuse rolls the
transaction back.

Where the code does less than one might expect, the model keeps the code and says when the property holds:

- a beat is not purged beside another listed beat whose record has a malformed id or locator; its purge succeeds if and only
  if there is none and the beat itself is verifiable and unshared (`LibraryPurge.PurgeConfirms`, `UnreadableBeatBlocksPurges`);
- a first publication that was pinned but not committed can be repeated if and only if its document lists no tombstone entry
  (`LibraryRetry.FirstPublicationEventually`);
- a second reconciliation of the same listing changes nothing if and only if the stored row was the chosen subscription's
  own, or a paid order took it over, and the clock does not show, or moving the row recorded no change of plan and met no
  visible refund (`BillingReconciliation.ReconcileAgain`; `OtherRowNeedsTwoPasses` is an input where it does change). The
  clock shows when a paid order rewrites a row that a refund without a time of its own then invalidates, or when past_due is
  written anew and the subscription has no time for it; a modification, update or creation time counts as such a time
  (`StampedNeverShows`, `UnstampedGraceMoves`);
- a user who is dropped from the auth snapshots and added again keeps the old columns in the table
  (`AuthDelta.ColumnAgreesExactly`);
- a sweep stopped before its very first user reports that it has ended (`BillingSweep.EndsExactlyWhen`);
- recovery replaces a pinned document that is no INDEX, cannot be read or repeats an id, but not one whose first fault is a
  beat without a usable id (`LibraryRecovery.RecoverExactly`);
- a direct write to a final control-plane file shadows every later rename (`WriteQueue.RenameIsReadBack`);
- issuing a capability under a hash in use revives it (`CapabilityStore.ReissueRevives`);
- a checkout whose create call was left without an answer has no stored checkout id, so that no order completes it and its
  user's new requests stop before the provider for good (`Checkout.UncertainCallIsTheLast`).

`dafny verify dfyconfig.toml` checks the whole project.

## Model

| member | source | states |
|---|---|---|
| LibraryIndex.IndexRowsSay | cloud-server/library-beat-quota.js:28-46 | the rows of a document are exactly its beats, each ACTIVE or TRASH by the list it stands in, every id once and naming one beat |
| LibraryIndex.BeatOfSays | cloud-server/library-index-publication.js:280-283 | looking a beat up by id, as the digests before and after a publication do, finds the one listed beat, and finds one exactly when the id has a row |
| LibraryIndex.BuildRows | cloud-server/library-beat-quota.js:22-46 | filling the Map list by list returns the rows or the first error: an invalid id or a repeated one |
| LibraryRecovery.IndexRowsExactly | cloud-server/library-beat-quota.js:22-46 | a document has rows exactly when its beats, live and in Trash together, have present, not too long and pairwise different ids; it is the invalid-input error exactly when the first beat that breaks this has an unusable id |
| LibraryRecovery.PinnedExactly | cloud-server/library-index-publication.js:35-57 | reading the pin gives nothing exactly when nothing is pinned, the document exactly when the pinned message holds it and it can have rows, and otherwise one of three errors, by what is pinned |
| LibraryRecovery.BootstrapExactly | cloud-server/library-beat-quota.js:129-160 | without a ledger a readable pinned document becomes the ledger, with its rows and a row for each tombstone, exactly when every tombstone is a usable id that the document does not list; otherwise nothing changes |
| LibraryRecovery.BootstrapAgain | cloud-server/library-beat-quota.js:137-144 | beside a ledger, bootstrap passes exactly while the pinned document is the ledger's, and then only marks PENDING reservations that are over |
| LibraryRecovery.RecoverExactly | cloud-server/library-index-publication.js:101-152 | recovery ends with the ledger's document pinned, each of its tombstones in the table and a readable document pinned in its place set for deletion, exactly when the document still stands as recorded, can have rows and lists no tombstone, and the first fault of what is pinned is not an unusable id; dying after the pin leaves the tables, and where it may not pin nothing changes |
| LibraryQuota.ReserveIsBounded | cloud-server/library-beat-quota.js:171-215 | a reservation takes one place only below the limit in force; a refusal, an error or a full library takes none; a purged id is always refused; granted means a live row for that beat |
| LibraryQuota.ReserveExactly | cloud-server/library-beat-quota.js:171-215 | a place is granted, for a full term from now, exactly to a valid, never purged beat of a library with an INDEX that holds this very reservation already, or is not listed, waits under no other id and finds fewer places taken than the limit; a full library turns exactly the others of these away with a DENIED row; no waiting row changes |
| LibraryQuota.RenewExactly | cloud-server/library-beat-quota.js:217-230 | exactly a PENDING row that is not over is renewed, for a full term from now; other rows only become EXPIRED if they are over |
| LibraryQuota.CancelExactly | cloud-server/library-beat-quota.js:257-271 | every known row but a committed one can be cancelled; one that waits is CANCELED, another stays what it is, and it is reported as it then stands |
| LibraryQuota.RenewTakesNoPlace | cloud-server/library-beat-quota.js:217-230 | renewing leaves used + live pending as it was |
| LibraryQuota.CancelFreesItsPlace | cloud-server/library-beat-quota.js:257-271 | cancelling removes exactly the named reservation from the live ones and touches no beat |
| LibraryQuota.ExpireHidesNothing | cloud-server/library-beat-quota.js:107-110 | marking rows EXPIRED changes no live place: after it the PENDING rows are exactly the live ones |
| LibraryQuota.TimeFreesPlaces | cloud-server/library-beat-quota.js:112-127 | with no step in between, the places taken can only become fewer |
| LibraryPlaces.CommitConserves | cloud-server/library-index-publication.js:301-320 | a committed publication trades each fresh beat's reservation for a row: used + live pending drops by exactly the purged beats |
| LibraryPlaces.PublishConserves | cloud-server/library-index-publication.js:196-417 | for a whole publish call, with any fault, over a committed, a bootstrapped or no ledger at all: it either commits and used + live pending drops by exactly the purged ids, or leaves the ledger as it was, but for the bootstrap that came first |
| LibraryPlaces.NeverGrowsPastTheLimit | cloud-server/library-beat-quota.js:171-230 | no reserve, renew, cancel or publish, the first one included, raises used + live pending above the limit in force at that step, whatever limits held before; a library at or over its limit never grows; what a bootstrap adopts counts as already there |
| LibraryPublication.QuotaExactly | cloud-server/library-index-publication.js:304-320 | the quota lets a document pass exactly when every beat new to the ledger has a row new:id for it that is PENDING and not over, and, if there is a limit, listed plus new beats and listed plus waiting ones stay within it |
| LibraryGrowth.ContentsExactly | cloud-server/library-index-publication.js:258-304 | beside a ledger that mirrors its document the seven content checks pass exactly a document that drops just the beats to purge, each of them PENDING, tombstones just those, lists no beat gone for good, and keeps every other waiting beat in Trash as it was, beside well-formed beats that share nothing with it |
| LibraryGrowth.PublishExactly | cloud-server/library-index-publication.js:206-417 | over a committed document an uninterrupted publication commits if and only if it names that document as its base, differs from it while that one is pinned or is itself what is pinned already, follows it in its contents and finds a reservation and a place for every new beat; otherwise ledger and channel stay as they are, and it succeeds exactly where it is the committed and pinned document |
| LibraryGrowth.BaseExactly | cloud-server/library-index-publication.js:232-257 | a base passes exactly when the call names the ledger's document, that still stands in the channel as recorded, and it is the pinned one or a copy of the new document is; without a ledger, when nothing is pinned, named or listed |
| LibraryGrowth.FirstPublishExactly | cloud-server/library-index-publication.js:206-417 | with neither ledger nor pin, an uninterrupted publication succeeds exactly for a document without beats and tombstone ids, with no base and no purge, in a vault that waits for its first one and has no pointer; it is then sent, pinned and the ledger, and otherwise nothing changes |
| LibraryGrowth.GrantedBeatIsPublished | cloud-server/library-beat-quota.js:171-215 | from grant to commit: the document that adds just a beat that was granted a place is committed at any time before the term is over, under the same limit, whatever other clients reserve, renew and cancel in between |
| LibrarySafety.StepKeeps | cloud-server/library-index-publication.js:101-417 | every step, with its process dying at any point, keeps the invariant: the ledger's document exists unharmed, the pin is never older, rows mirror the document, pending purges are intact |
| LibrarySafety.CommitKeepsLedger | cloud-server/library-index-publication.js:259-304 | the checks of a publication are enough: the committed rows mirror the new document, its tombstones all have purge rows, no purged id is listed, and every pending purge finds its beat unchanged and unshared |
| LibrarySafety.DeletesAssetsOnly | cloud-server/library-index-publication.js:363-368 | everything a publication deletes is an asset message, never an INDEX document |
| LibrarySafety.BootstrapKeeps | cloud-server/library-beat-quota.js:129-160 | adopting an existing pinned INDEX establishes the invariant |
| LibrarySafety.RecoverKeeps | cloud-server/library-index-publication.js:101-152 | recovery keeps the invariant, also when it dies between pin and commit |
| LibrarySafety.RequestPurgeKeeps | cloud-server/library-index-publication.js:419-470 | recording PENDING purges keeps the invariant |
| LibrarySafety.PublishKeeps | cloud-server/library-index-publication.js:196-417 | a publication, bootstrapping or not, dying anywhere or not, keeps the invariant |
| LibraryRuns.CommittedDocumentSurvives | cloud-server/library-index-publication.js:101-152 | after any run with any crashes the document the ledger names still exists with its recorded content, and recovery succeeds with exactly it pinned and the ledger unchanged |
| LibraryRuns.RecoverRestores | cloud-server/library-index-publication.js:101-152 | in every state that keeps the invariant, recovery succeeds and ends with pinned = ledger |
| LibraryRuns.LedgerMirrorsIndex | cloud-server/library-index-publication.js:382-403 | after any run library_beats equals the rows of the committed document; no id with a confirmed or legacy tombstone is among them; every tombstone of the document has a row |
| LibraryRuns.RunAdvances | cloud-server/library-index-publication.js:398-403 | a purge row is never removed and its snapshot never changes; it only moves from PENDING to CONFIRMED |
| LibraryRuns.PurgedBeatsNeverReturn | cloud-server/library-beat-quota.js:171-178 | once purged or tombstoned, in every later state the id has no row and every reservation of it fails and changes nothing |
| LibraryRuns.ErasedBeatIsPurgedOrWaiting | cloud-server/library-index-publication.js:363-368 | from the first deleted asset on, through every crash and retry: the beat is unchanged in Trash with a PENDING purge and shares no asset, or gone with a CONFIRMED one |
| LibraryRuns.PublishErasesPending | cloud-server/library-index-publication.js:363-368 | a publication deletes only assets recorded in a PENDING purge row |
| LibraryRuns.StepReplaces | cloud-server/library-index-publication.js:232-242 | only a publication replaces a committed document; the one it replaces is the one its caller named, the pointer records it, and the new one is newer and is the caller's content |
| LibraryRuns.ChainGrows | cloud-server/library-index-publication.js:404-408 | the documents committed along a run form one strictly increasing chain that ends at the ledger's |
| LibraryRetry.PublishEventually | cloud-server/library-index-publication.js:232-247 | after any number of attempts that died anywhere, with recoveries, reservations, renewals, purge requests, uploads and deletions in between and for as long as it takes, the same call commits if and only if the purges requested meanwhile fit the document and every new beat still has its reservation and, under the limit of that moment, a place; it then leaves the document, rows, purges and pointer of the uninterrupted call, and a pinned copy is adopted under its id |
| LibraryRetry.CommittedAgain | cloud-server/library-index-publication.js:224-231 | when only the reply was lost, publishing again, however much later and with anything but another publication and a foreign pin in between, reports the committed document and changes neither ledger nor channel |
| LibraryRetry.FirstPublicationAgain | cloud-server/library-index-publication.js:203-205 | the very first document: after dying between pin and commit the retry reaches the same commitment if and only if the document lists no tombstone entry at all |
| LibraryRetry.FirstPublicationEventually | cloud-server/library-index-publication.js:203-242 | the very first document, after any number of attempts that died anywhere with anything but another publication in between: the next attempt succeeds if and only if nothing was pinned yet or the document lists no tombstone entry, and then commits it, a pinned copy under its own id |
| LibraryRetry.FirstExactly | cloud-server/library-index-publication.js:206-242 | in a vault without ledger and pin, the documents that pass as the first are exactly those without beats and tombstone ids, sent with no base and no purge |
| LibraryRetry.BootstrapComesFirst | cloud-server/library-index-publication.js:203-205 | a publication that finds an INDEX but no ledger is a bootstrap followed by a publication over that ledger, or fails with the bootstrap's error and no change |
| LibraryPurge.PurgePasses | cloud-server/library-index-publication.js:487-493 | the document without the purged beats has exactly the remaining rows and passes every check of a publication |
| LibraryPurge.PurgeConfirms | cloud-server/library-index-publication.js:419-504 | from any reachable state a purge that completes succeeds if and only if every id is confirmed already, or lies in Trash with every file verifiable while every other listed beat is well-formed and shares no message with it; then every id is confirmed, has no row, and none of its assets is left in the vault |
| LibraryPurge.SuccessMeansPurged | cloud-server/library-index-publication.js:472-504 | wherever an attempt stopped, a reported success means that every beat could be purged, is confirmed and has no row |
| LibraryPurge.PurgeIsRetryable | cloud-server/library-index-publication.js:160-169 | however many attempts died and wherever, the first one that completes confirms every beat that could be purged at the start |
| LibraryPurge.RequestedPurgeSucceeds | cloud-server/library-index-publication.js:419-504 | once its PENDING rows are recorded, a purge succeeds after every run of other publications, recoveries, requests, reservations and losses, each dying anywhere |
| LibraryPurge.PendingMeansWellFormed | cloud-server/library-index-publication.js:286-293 | while any purge is PENDING, every beat the committed document lists is well-formed |
| LibraryPurge.UnreadableBeatBlocksPurges | cloud-server/library-index-publication.js:459-462 | beside a live beat whose artwork has a malformed locator, a purge of another beat never succeeds |
| LibraryAssets.ConfirmedPurgesStayGone | cloud-server/library-index-publication.js:363-368 | after any run a CONFIRMED purge has none of its assets left in the vault |
| LibraryAssets.AssetNamingTheNextIndexLosesIt | cloud-server/library-index-publication.js:458 | why assets must not name an INDEX: a beat whose asset id is later given to an INDEX makes its purge delete the committed document |
| LibraryService.Library.Pinned | cloud-server/library-index-publication.js:35-56 | the pinned document, nothing, or the error for a foreign or unreadable one |
| LibraryService.Library.BootstrapQuota | cloud-server/library-beat-quota.js:129-160 | reaches exactly the world of the specified bootstrap |
| LibraryService.Library.InsertTombstones | cloud-server/library-index-publication.js:88-99 | one LEGACY_TOMBSTONE row for each id that has no row yet, all other rows kept |
| LibraryService.Library.RecoverIndex | cloud-server/library-index-publication.js:101-152 | reaches exactly the world and reply of the specified recovery, rolled back when it dies after the pin |
| LibraryService.Library.DeleteAssets | cloud-server/library-index-publication.js:363-368 | deletes exactly the assets of the removed beats, or the part of them reached before dying |
| LibraryService.Library.InsertRows | cloud-server/library-index-publication.js:382-392 | writes every candidate row, and commits exactly the fresh beats' reservations |
| LibraryService.Library.RemoveRows | cloud-server/library-index-publication.js:394-403 | removes the purged rows and confirms exactly their purges |
| LibraryService.Library.CommitRows | cloud-server/library-index-publication.js:375-409 | the SQL part of a publication yields exactly the ledger the safety results are about |
| LibraryService.Library.ExecutePublication | cloud-server/library-index-publication.js:363-417 | delete, send, pin or adopt, commit, with a death at any of the points, reaches the specified world |
| LibraryService.Library.FindClash | cloud-server/library-index-publication.js:286-293 | the search ends at the first other beat that is malformed or shares one of the messages, and finds one exactly when there is one |
| LibraryService.Library.CheckDocument | cloud-server/library-index-publication.js:258-304 | the loops over tombstones, rows, pending purges, removed and fresh beats report exactly the first check that fails |
| LibraryService.Library.CheckPlaces | cloud-server/library-index-publication.js:304-320 | the limit and the loop over fresh beats refuse exactly a document without a reservation or a place for some new beat, and report which is missing |
| LibraryService.Library.PublishUnderLock | cloud-server/library-index-publication.js:206-417 | all checks in their order, then the execution; whatever it replies and wherever it dies the two stores keep their invariant, and a success means that the ledger names the given document, that it is what is pinned, and that no purged beat has a row |
| LibraryService.Library.PublishIndex | cloud-server/library-index-publication.js:196-417 | the whole call including the implicit bootstrap is the specified publication |
| LibraryService.Library.RequestRow | cloud-server/library-index-publication.js:440-468 | one PENDING row for a beat that can be purged; a repeated request finds its own row; everything else is refused |
| LibraryService.Library.RequestPurgeRows | cloud-server/library-index-publication.js:419-470 | the loop over the ids leaves all requested rows, or none and the first refusal |
| LibraryService.Library.EmptyTrash | cloud-server/library-index-publication.js:419-504 | deduplicate, recover, request, publish as specified, dying anywhere |
| LibraryService.Library.ReservePlace | cloud-server/library-beat-quota.js:171-215 | reaches exactly the specified reservation rows and reply, rolled back on errors |
| LibraryService.Library.RenewPlace | cloud-server/library-beat-quota.js:217-230 | succeeds exactly for a reservation still live, extends it to a full term from now, and leaves the set of live reservations as it was |
| LibraryService.Library.CancelPlace | cloud-server/library-beat-quota.js:257-271 | succeeds exactly for a known reservation that is not committed; afterwards it is not live, and every other one is as live as before |
| TrashAssets.CollectsExactly | cloud-server/library-trash-assets.js:7-35 | the recursive collection fails exactly when some place in the record is malformed, and otherwise returns exactly the ids that stand anywhere in it |
| TrashAssets.AssetsCoverTheBeat | cloud-server/library-trash-assets.js:37-45 | a verifiable beat's assets are non-empty, contain every file's messages and are exactly the ids in its record |
| TrashAssets.VerifiableExactly | cloud-server/library-trash-assets.js:37-45 | a beat is verifiable exactly when it has a master, no place in its record is malformed, and the master and every other file name a message |
| TrashAssets.Collector.Collect | cloud-server/library-trash-assets.js:7-35 | the walk that adds to one Set in place collects the same ids |
| AccessResolver.SteadyUntilRecalculation | cloud-server/billing-access-resolver.js:252-277 | nothing in the result changes before the announced instant, nor ever when none is announced |
| AccessResolver.ResultSteadyUntilRecalculation | cloud-server/billing-access-resolver.js:279-330 | the same for the public entry point, errors included |
| AccessResolver.NextIsAhead | cloud-server/billing-access-resolver.js:252-277 | the announced instant is one of the input's timestamps and lies strictly ahead |
| AccessResolver.WakePointsAreBounded | cloud-server/billing-access-resolver.js:252-277 | following the announcements strictly increases and takes no more steps than input timestamps lie ahead |
| AccessResolver.WakeCount | cloud-server/billing-access-resolver.js:252-277 | at most four wake-ups for the subscription and three per grant |
| AccessResolver.WakingReproducesAccess | cloud-server/billing-access-resolver.js:252-277 | a caller that recalculates only at the announced instants holds exactly the access of every later instant |
| AccessResolver.EffectiveIsHighest | cloud-server/billing-access-resolver.js:242-250 | the effective plan outranks every source and is Free or some source's plan |
| AccessResolver.EffectiveIgnoresOrder | cloud-server/billing-access-resolver.js:242-250 | the effective plan does not depend on the order or number of equal sources |
| AccessResolver.EndedAccessNeverReturns | cloud-server/billing-access-resolver.js:165-236 | an expired or revoked grant, and an invalidated subscription, never contribute again |
| AccessResolver.CommercialExactly | cloud-server/billing-access-resolver.js:165-195 | paid coverage gives its plan exactly while it lasts, grace exactly between past_due and its end where paid coverage does not, both only for a known plan other than Free and before any invalidation; the reported end is the first instant from which this no longer holds |
| AccessResolver.GrantExactly | cloud-server/billing-access-resolver.js:221-236 | a grant gives its plan exactly from its start until it expires or is revoked, whichever comes first, and reports that end |
| AccessResolver.ResolvesExactly | cloud-server/billing-access-resolver.js:279-330 | for the public entry point, in the fields of its input: an error exactly for an invalid catalog or an illegible timestamp; otherwise the reported state is invalidated, paid, grace, unverified or none exactly by those fields, and the effective plan is the highest-ranked among Free and the plans of paid coverage, grace and running grants |
| AccessResolver.ValidateCatalog | cloud-server/billing-access-resolver.js:101-123 | the loop accepts exactly the catalogs with Free at rank 0, matching ids and pairwise distinct ranks |
| AccessResolver.ChooseEffectivePlan | cloud-server/billing-access-resolver.js:242-250 | the loop returns the highest-ranked plan among Free and the sources |
| AccessResolver.NextRecalculationAt | cloud-server/billing-access-resolver.js:252-277 | the loop over grants and active sources returns the least candidate instant |
| BillingProjection.BillingTables.ApplySubscriptionSnapshot | cloud-server/billing-lifecycle.js:275-365 | one subscription event leaves exactly the specified customer and row, or nothing and its error, also when a constraint of the table refuses the row |
| BillingProjection.BillingTables.PlanAndGrace | cloud-server/billing-lifecycle.js:288-316 | plan, past_due and grace of the next row, branch by branch |
| BillingProjection.BillingTables.UpsertOrderProjection | cloud-server/billing-lifecycle.js:367-571 | one order event leaves exactly the specified payment, row and queued revocation, or nothing and its error, also when a constraint of a table refuses payment or row |
| BillingFacts.RunStaysAllowed | cloud-server/migrations/0011_billing_v1_foundation.sql:31-64 | after any events the stored row satisfies every constraint of its table: an event that would break one changes nothing |
| BillingFacts.RunKeepsGrace | cloud-server/billing-lifecycle.js:300-316 | over all runs grace_until is null or exactly past_due_at + graceMs |
| BillingFacts.StartedGraceNeverMoves | cloud-server/billing-lifecycle.js:300-316 | repeated snapshots, past_due or not, never move a started grace period |
| BillingFacts.GraceAccessIsBounded | cloud-server/billing-access-resolver.js:184-193 | after any delivery, grace access is granted only for past_due_at <= t < past_due_at + graceMs |
| BillingFacts.PaidAccessExactly | cloud-server/billing-access-resolver.js:175-182 | end to end, after any delivery of one subscription's events: paid access is reported at an instant if and only if some delivered coverage lasts longer and no invalidation is due, and then on the plan of the coverage that lasts longest |
| BillingFacts.HarmlessEventsInvalidateNothing | cloud-server/billing-lifecycle.js:538-567 | snapshots that do not revoke, payments and partial refunds, delivered in any order and any number of times, neither invalidate nor queue a revocation |
| BillingProjection.StatusExactly | cloud-server/billing-lifecycle.js:165-185 | an order counts as refunded exactly when all of its amount is back, or some of it and the provider calls it refunded; it pays exactly when it is not refunded and was paid or partly refunded; the stored status says which |
| BillingEvents.OfferExactly | cloud-server/billing-lifecycle.js:107-140 | product and price stand for an offer exactly when it is the only entry of the catalog that has both of those given; none or several are the same error |
| BillingEvents.StatusExactly | cloud-server/billing-lifecycle.js:87-94 | a provider status is kept if the table knows it, revoked becomes canceled, and any other becomes inactive |
| BillingEvents.AcceptedExactly | cloud-server/migrations/0011_billing_v1_foundation.sql:31-64 | what the constraints of the subscription table come to, field by field |
| BillingEvents.GuardedExactly | cloud-server/billing-lifecycle.js:217-236 | a row keeps events of other subscriptions out exactly while its own paid coverage has neither ended nor been invalidated by the event's time |
| BillingEvents.ScheduleExactly | cloud-server/billing-lifecycle.js:238-273 | the change of plan ahead is the provider's scheduled one, else the offer that differs from a paid plan, else, while payment is due, the one stored before, else none |
| BillingEvents.SnapshotExactly | cloud-server/billing-lifecycle.js:275-365 | a snapshot is refused exactly by a guarded row, by a scheduled change that maps to no offer, or by the table; otherwise the provider's facts are taken over, coverage and paid plan stay, past_due and grace start once and stay, and a revocation ends them and invalidates |
| BillingEvents.SnapshotIsStored | cloud-server/billing-lifecycle.js:275-365 | nothing else is refused: a row as described that the table accepts is stored |
| BillingEvents.PeriodExactly | cloud-server/billing-lifecycle.js:142-163 | an order pays for its own period, or without one for that of the subscription beside it |
| BillingEvents.SoundExactly | cloud-server/billing-lifecycle.js:367-460 | an order passes its checks exactly when it belongs to a subscription, is no proration, maps to one offer, has a forward period that is known if it pays, a three-letter currency, and no more refunded than paid |
| BillingEvents.PaidOrderExactly | cloud-server/billing-lifecycle.js:367-536 | a sound paid order is recorded as one payment, field by field; where its coverage reaches as far, or the row is new or another subscription's, it takes the row over with its plan and coverage and without past_due, grace and invalidation; it is refused exactly by a guarded row, an unmapped scheduled change or the table |
| BillingEvents.PaidOrderIsStored | cloud-server/billing-lifecycle.js:474-536 | nothing else is refused: a row as described that the table accepts is stored |
| BillingEvents.PaidScheduleExactly | cloud-server/billing-lifecycle.js:474-536 | a paid order keeps the provider's scheduled change exactly if it comes no earlier than the order's coverage ends |
| BillingEvents.UnpaidOrderExactly | cloud-server/billing-lifecycle.js:367-571 | a sound order that pays nothing is recorded beside an unchanged row, unless its money is back; it is refused exactly by a guarded row |
| BillingEvents.UnsoundIsRefused | cloud-server/billing-lifecycle.js:367-460 | an order that is not sound changes nothing |
| BillingFacts.PartialRefundKeepsCoverage | cloud-server/billing-lifecycle.js:367-571 | a committed order of which only part is refunded is stored as PARTIALLY_REFUNDED, extends coverage like any paid order, invalidates nothing and queues nothing |
| BillingFacts.WholeRefundEndsCoverage | cloud-server/billing-lifecycle.js:538-567 | a committed order whose whole amount is refunded invalidates the coverage of its subscription's row and queues one revocation exactly when it reaches as far as that coverage; otherwise row and queue stay |
| BillingFacts.PaidThroughIsGreatest | cloud-server/billing-lifecycle.js:474-480 | for one subscription, after any delivery of orders and snapshots, paid_through is the greatest committed coverage end and plan_id the plan of an order with that end |
| BillingFacts.PaidThroughNeverDecreases | cloud-server/billing-lifecycle.js:295-298 | no further event of the subscription lowers paid_through |
| BillingFacts.DeliveryOrderIsIrrelevant | cloud-server/billing-lifecycle.js:474-480 | two deliveries of the same coverage with distinct ends, in any order and with any duplicates, leave the same paid_through and plan |
| BillingFacts.RefundPhase | cloud-server/billing-lifecycle.js:538-567 | folding orders whose whole amount is back, or that are called refunded, invalidates coverage and queues a revocation exactly when one that commits ends no earlier than what is paid |
| BillingFacts.PaidThenRefunded | cloud-server/billing-reconciliation.js:324-342 | orders that keep some of their money first, then those whose money is back: coverage is invalidated and a revocation queued if and only if one of the latter commits and ends no earlier than all paid coverage |
| BillingListing.LiveExactly | cloud-server/billing-reconciliation.js:45-51 | a listed subscription is current exactly in a status the provider bills, or while its period is not over and it has not ended as canceled or revoked |
| BillingListing.SelectionExactly | cloud-server/billing-reconciliation.js:52-64 | the choice is the only current subscription, else the only one the stored row names, else the only one listed; it is ambiguous exactly with several current ones, or none current and several of the stored id |
| BillingListing.RelevantExactly | cloud-server/billing-reconciliation.js:281 | the orders taken are exactly those listed under the chosen id, in the order given |
| BillingListing.ProjectionExactly | cloud-server/billing-reconciliation.js:324-349 | they are folded in two rounds, each order once: first those whose money was not given back, then the others |
| BillingListing.OrderProblemExactly | cloud-server/billing-reconciliation.js:78-101 | an order is interpreted exactly when it names one offer, has a forward period of its own and the offer's currency if it was paid or given back, and no more was refunded than paid, nor less if it says refunded; which reason it is otherwise |
| BillingListing.FirstProblemExactly | cloud-server/billing-reconciliation.js:282-296 | the orders pass exactly when each can be interpreted; otherwise the reason is that of the first that cannot |
| BillingListing.ReconcileExactly | cloud-server/billing-reconciliation.js:204-378 | the whole pass: a listing is projected exactly when a subscription is chosen, it and its orders can be interpreted, they agree with the stored customer, and the tables take them; a stored subscription that is not listed, a foreign customer and an empty listing are told apart exactly, and no refusal changes anything |
| BillingReconciliation.ReconcileAgain | cloud-server/billing-reconciliation.js:204-378 | a second pass over the same listing, at any later time, changes no table and reports no repair if and only if either the stored row was the chosen subscription's own or a paid order took it over, and the clock does not show in what is stored again; or moving the row neither recorded a change of plan nor brought it under a full refund whose effect shows |
| BillingReconciliation.StampedNeverShows | cloud-server/billing-reconciliation.js:134 | when the subscription and every listed order carry a modification, update or creation time of their own, the clock never shows |
| BillingReconciliation.TakenForgets | cloud-server/billing-lifecycle.js:474-480 | a paid order that takes over a row about something else makes the whole pass independent of that row |
| BillingReconciliation.TwoPassesSettle | cloud-server/billing-reconciliation.js:204-378 | from any stored row the third pass changes nothing if and only if it runs at the instant of the second or the clock does not show: one pass may be needed to move the row to the chosen subscription |
| BillingReconciliation.ProjectAgain | cloud-server/billing-reconciliation.js:324-349 | over the subscription's own row the two-phase order fold followed by the snapshot is a fixed point of itself (rows, payments, customer and queued actions) if and only if no time is taken from the clock anew |
| BillingReconciliation.SettledRow | cloud-server/billing-lifecycle.js:288-326 | refunds and snapshot give again the row they left if and only if neither a row rewritten by a paid order meets a covering refund without a time of its own, nor past_due is written anew without any time but the clock's |
| BillingReconciliation.PaidPhaseAgain | cloud-server/billing-lifecycle.js:474-480 | replaying the paid orders on the row they left either rewrites the same row or does not touch it |
| BillingReconciliation.RefundFold | cloud-server/billing-lifecycle.js:538-567 | the refund phase invalidates at the time of the first refund that covers all paid coverage, and queues one revocation |
| BillingReconciliation.SettledPaymentsStay | cloud-server/billing-lifecycle.js:400-456 | payments written by a pass are not changed by the next |
| BillingReconciliation.SelectionIsStable | cloud-server/billing-reconciliation.js:52-64 | once stored, the chosen subscription of a listing with distinct ids stays the choice at every later time |
| BillingReconciliation.OtherRowNeedsTwoPasses | cloud-server/billing-lifecycle.js:238-273 | a row about an ended subscription beside a new one in trial: the first pass records a change of plan that the second erases, and both report a repair |
| BillingReconciliation.UnstampedGraceMoves | cloud-server/billing-reconciliation.js:134 | an input on which the clock shows: a paid subscription that is past_due, without past_due, modification, update and creation time, restarts its grace period at every reconciliation |
| BillingReconciliation.ReconcileLocked | cloud-server/billing-reconciliation.js:204-378 | the loop over the orders inside one transaction, rolled back on any error, is exactly the specified pass |
| BillingSweep.PagesConcatenate | cloud-server/billing-reconciliation.js:428-435 | however pages are cut and wherever they are stopped, and whatever customers come and go between them: those checked so far were present when they were, nobody is checked twice, and nobody up to the cursor who was always present is missed |
| BillingSweep.SweepChecksEveryone | cloud-server/billing-reconciliation.js:397-435 | a sweep that ends has checked every customer present in every page's table exactly once and nobody twice, unless its first page was stopped before the first one; over an unchanged table it has checked exactly that table, in order |
| BillingSweep.EndsExactlyWhen | cloud-server/billing-reconciliation.js:434 | the cursor ends exactly when a short last page was checked whole, or when the sweep was stopped before its very first user |
| BillingSweep.RunSweep | cloud-server/billing-reconciliation.js:397-411 | the loop checks candidates in order until it is told to stop and returns the specified page |
| WebhookInbox.EffectExactlyWhenProcessed | cloud-server/billing-webhook-durable.js:548-593 | in every interleaving of workers, lease expiry, crash, failure and requeue the handler's effect commits at most once, exactly when the event becomes PROCESSED |
| WebhookInbox.FinalIsForever | cloud-server/billing-webhook-durable.js:480-604 | PROCESSED and IGNORED rows never change again |
| WebhookInbox.LeaseExcludesOthers | cloud-server/billing-webhook-durable.js:354-400 | while a lease has not run out no other worker can claim, finish, ignore or fail the event |
| WebhookInbox.RunIsWellFormed | cloud-server/billing-webhook-durable.js:377-391 | exactly PROCESSING rows have an owner and a lease; only FAILED rows are scheduled |
| WebhookInbox.ClaimableFromThenOn | cloud-server/billing-webhook-durable.js:361-370 | an event is claimable from one time on, unless it is final or failed for good |
| WebhookInbox.EventsStay | cloud-server/billing-webhook-durable.js:262-330 | a received event is never lost, keeps its identity and arrival time, and its attempts only grow |
| WebhookInbox.RetryDelayGrows | cloud-server/billing-webhook-durable.js:257-260 | back-off never shrinks from attempt to attempt and stays between base and ceiling |
| WebhookInbox.FailureWaits | cloud-server/billing-webhook-durable.js:501-521 | a failed event is not claimed before its delay has passed, and never after its last attempt, unless requeued |
| WebhookInbox.FailureIsRetried | cloud-server/billing-webhook-durable.js:501-521 | left alone after a failure by its holder, an event is claimable at a time if and only if the failure may be retried, it was not the last attempt, and the delay, which lies between base and ceiling, has passed |
| WebhookInbox.RetryDelayDoubles | cloud-server/billing-webhook-durable.js:257-260 | the first delay is the base, each attempt doubles it up to the twenty-first, and the ceiling cuts it off |
| WebhookInbox.ClaimedIsDelivered | cloud-server/billing-webhook-durable.js:354-400 | an event that is new, due for a retry or abandoned by a worker whose lease ran out can be claimed by anybody, and its effect takes place when that worker commits before another takes it over |
| WebhookInbox.Inbox.ReceiveEvent | cloud-server/billing-webhook-durable.js:262-340 | inserts once; a duplicate reports the stored state; other content under the same id is refused |
| WebhookInbox.Inbox.ClaimNext | cloud-server/billing-webhook-durable.js:354-400 | claims the oldest claimable unlocked event, or reports that there is none |
| WebhookInbox.Inbox.CommitEvent | cloud-server/billing-webhook-durable.js:548-593 | commits the effect together with the row only if the worker still holds it |
| WebhookInbox.Inbox.MarkIgnored | cloud-server/billing-webhook-durable.js:480-498 | ends the event only for its holder |
| WebhookInbox.Inbox.MarkFailed | cloud-server/billing-webhook-durable.js:501-521 | fails the event only for its holder, scheduling the next attempt or none |
| WebhookInbox.Inbox.RequeueFailed | cloud-server/billing-webhook-durable.js:606-615 | schedules a FAILED event at once and touches no other |
| InboxDelivery.StoreIsFoldOfProcessed | cloud-server/billing-webhook-durable.js:523-604 | inbox and billing facts together: the store is the fold of exactly the PROCESSED events, each once, in commit order |
| InboxDelivery.DeliveredExactly | cloud-server/billing-webhook-durable.js:541-592 | a handler's transaction changes event and store together exactly for the worker that holds the event and when its payload can be applied to the store as it is then; otherwise neither changes |
| InboxDelivery.ReceivedReachesTheStore | cloud-server/billing-webhook-durable.js:262-592 | a new event that is received, claimed and committed, with a payload that can be applied, ends PROCESSED with the store updated by it, and no other event is touched |
| InboxDelivery.CoverageThroughTheInbox | cloud-server/billing-webhook-durable.js:523-604 | end to end: the stored coverage of a subscription is the greatest one of its processed paid orders |
| Checkout.AtMostOneCall | cloud-server/billing-checkout-persistent.js:328-343 | the provider's create call is made at most once per request, across retries, timeouts and crashes, and not before its row exists |
| Checkout.NoCallWhileUnresolved | cloud-server/billing-checkout-persistent.js:313-333 | the call is never made while another request of the user is unresolved |
| Checkout.OutcomeExactly | cloud-server/billing-checkout-persistent.js:336-396 | in every reachable state: a created checkout makes its request OPEN with that id and address, an uncertain answer AMBIGUOUS, a definite rejection FAILED, and anything else leaves it CREATING without a checkout |
| Checkout.WaitingStopsItsUser | cloud-server/billing-checkout-persistent.js:313-333 | while a request is CREATING, OPEN or AMBIGUOUS and no flight of its user is under way, the provider is asked for nothing of this user in any run without an order that pays that very checkout |
| Checkout.UncertainCallIsTheLast | cloud-server/billing-checkout-persistent.js:265-333 | after a timeout, a lost or malformed answer or the death of the process a call is the last one made for its user in any later run: the checkout has no stored id by which an order could complete it |
| Checkout.RejectedMayTryAgain | cloud-server/billing-checkout-persistent.js:342-359 | after a definite rejection the user's next new request reaches the provider |
| Checkout.PaidIsCompleted | cloud-server/billing-lifecycle.js:461-472 | in every reachable state a paid order completes the request whose checkout it names, and leaves nothing else of its user unresolved |
| Checkout.OneUnresolvedPerUser | cloud-server/billing-checkout-persistent.js:313-333 | at most one request per user is CREATING, OPEN or AMBIGUOUS |
| Checkout.ResolvedIsForever | cloud-server/billing-checkout-persistent.js:271-311 | COMPLETED and FAILED are final, and the checkout a request was given is never replaced |
| Checkout.CheckoutService.CreateSession | cloud-server/billing-checkout-persistent.js:230-396 | one session, dying anywhere: a new request of a user without unresolved ones leaves the row its outcome calls for and asks the provider once; any other call asks nothing and at most turns its own CREATING row AMBIGUOUS; it answers with an address exactly when a stored or new OPEN row has it |
| Checkout.CheckoutService.CompleteCheckout | cloud-server/billing-lifecycle.js:461-472 | a paid order leaves no request of that user and checkout unresolved, changes only unresolved ones, and keeps at most one unresolved request per user |
| AuthDelta.OwnersPrevail | cloud-server/postgres-auth-multiprocess-compat.js:52-121 | for processes with disjoint ownership, any interleaving of their starts, restarts and deltas leaves every owned key and every owned user column at its owner's latest applied snapshot |
| AuthDelta.NothingOfOthersIsRemoved | cloud-server/postgres-auth-multiprocess-compat.js:20-28 | a delta removes no user, and a row only if its own process dropped it |
| AuthDelta.RowAgreesExactly | cloud-server/postgres-auth-multiprocess-compat.js:69-121 | a key agrees after the delta if and only if the process did not drop a vault |
| AuthDelta.ColumnAgreesExactly | cloud-server/postgres-auth-multiprocess-compat.js:61-79 | a user column agrees after the delta if and only if the user was known to the process, is new to the table, or is stored with that value already |
| AuthDelta.ReaddedUserKeepsOldColumns | cloud-server/postgres-auth-multiprocess-compat.js:65-72 | a user dropped and registered again keeps the old columns |
| AuthDelta.QueuesAreSteps | cloud-server/postgres-auth-multiprocess-compat.js:140-156 | however the starts, saves and flushes of several processes interleave, what reaches the tables is a run of deltas whose bases are the snapshots their own process loaded or flushed before |
| AuthDelta.SavedIsQueued | cloud-server/postgres-auth-multiprocess-compat.js:147-156 | saving queues the delta from the snapshot saved before, at the end of the process's own queue, and touches nothing else |
| AuthDelta.FlushedDry | cloud-server/postgres-auth-multiprocess-compat.js:147-156 | a queue of n deltas runs dry after n flushes, and the snapshot applied last is then the one saved last |
| AuthDelta.QueuedOwnersPrevail | cloud-server/postgres-auth-multiprocess-compat.js:140-156 | under disjoint ownership every key and column ends at what its owner flushed last or loaded since, which is what it saved last once its queue is empty |
| AuthDelta.AuthTables.MergeSnapshotDelta | cloud-server/postgres-auth-multiprocess-compat.js:52-121 | the transaction writes exactly the three-way merge |
| AuthDelta.AuthTables.WriteUsers | cloud-server/postgres-auth-multiprocess-compat.js:61-79 | inserts unknown users unless stored, updates only changed columns of known ones |
| WriteQueue.AcknowledgedIsDurable | cloud-server/control-plane-json-compat.js:98-118 | writes reach the database in rename order, and a response is sent only when every snapshot renamed before it is durable |
| WriteQueue.NothingAfterTheFirstFailure | cloud-server/postgres-control-plane-runtime.js:280-297 | from the first failed write on nothing is applied and no response is acknowledged as successful |
| WriteQueue.AnsweredExactly | cloud-server/control-plane-json-compat.js:98-118 | a waiting response is answered exactly when everything queued before it has run: sent if nothing failed so far, unavailable otherwise |
| WriteQueue.HealthyResponsesAreSent | cloud-server/control-plane-json-compat.js:98-118 | while no write fails every response is sent once the queue has run as many writes as stood before it, whatever happens in between |
| WriteQueue.IdleMeansEqual | cloud-server/postgres-control-plane-runtime.js:280-311 | with an empty queue and no failure the database holds what was last renamed into place |
| WriteQueue.RenameIsReadBack | cloud-server/control-plane-json-compat.js:44-84 | a rename is read back if and only if nobody wrote the final file directly: such a write shadows it |
| WriteQueue.ControlPlane.WriteFileSync | cloud-server/control-plane-json-compat.js:55-65 | well-formed content is what is read from that path next; other content changes nothing |
| WriteQueue.ControlPlane.RenameSync | cloud-server/control-plane-json-compat.js:67-84 | moves staged content into place and queues it, or fails without it |
| WriteQueue.ControlPlane.RunNext | cloud-server/postgres-control-plane-runtime.js:280-297 | runs the next write: one that succeeds is applied, the first that fails poisons the queue, and after that nothing is applied |
| WriteQueue.ControlPlane.SendResponse | cloud-server/control-plane-json-compat.js:98-103 | the response waits for every rename made before it; order and durability of everything sent so far are kept |
| WriteQueue.ControlPlane.DeliverResponse | cloud-server/control-plane-json-compat.js:98-118 | a response goes out only with everything renamed before it in the database; otherwise 503 after a failure, or it goes on waiting |
| DirectLeases.ReachableStatesAreExclusive | cloud-server/direct-transport-control.js:1355-1425 | in every reachable state: one lease per installation, distinct (bot, generation) pairs, one INDEX operation per vault |
| DirectLeases.StepKeeps | cloud-server/direct-transport-control.js:370-379 | every locked mutation keeps the three exclusions |
| DirectLeases.OperationIsDisplaced | cloud-server/direct-transport-control.js:314-336 | a held operation disappears only through a strictly newer document of its own tab and session, its own end, the loss of its lease, or a whole timeout without confirmation |
| DirectLeases.HeldUntilDisplaced | cloud-server/direct-transport-control.js:1364-1402 | along any run, an operation that is gone was displaced at one of the steps for one of those reasons |
| DirectLeases.ConfirmedIsNotSwept | cloud-server/direct-transport-control.js:165-182 | an operation confirmed by the running process within its timeout is not swept |
| DirectLeases.ConfirmedIsHeld | cloud-server/direct-transport-control.js:165-182 | an operation begun or renewed at some time is held through every later run, restarts included: it goes only when it is taken away, or at a step no earlier than that time plus its timeout |
| DirectLeases.StaysLive | cloud-server/direct-transport-control.js:165-178 | no step makes a confirmation look older than it is: after a restart the age counts from the first sight of the new process |
| DirectLeases.OlderDocumentsWait | cloud-server/direct-transport-control.js:1398-1402 | an older document, another tab or another session waits while the vault's INDEX is taken |
| DirectLeases.AdmittedExactly | cloud-server/direct-transport-control.js:1346-1425 | under a live lease a request is admitted exactly if it is about data or every INDEX operation of its vault is left from an earlier document of its own tab and session, and then stands as confirmed now |
| DirectLeases.BegunExactly | cloud-server/direct-transport-control.js:1346-1425 | the same for a whole begin call, over the state the lock leaves: without a lease in it nothing is admitted |
| DirectLeases.EndedExactly | cloud-server/direct-transport-control.js:1460-1477 | ended by its own session an operation is gone, ended by any other it stays; no other operation changes |
| DirectLeases.EndedFreesTheIndex | cloud-server/direct-transport-control.js:1460-1477 | once a vault's INDEX operation is ended by its session, any waiting request with a lease of that vault is admitted |
| DirectLeases.SweptExactly | cloud-server/direct-transport-control.js:246-336 | taking the lock keeps exactly the leases of pool bots and exactly the operations that have one of them and were confirmed, or first seen by the running process, less than their timeout ago; it remembers since when it has seen the others and starts unknown bots at generation 0 |
| DirectLeases.SilentIsSwept | cloud-server/direct-transport-control.js:165-182 | an operation nobody confirms is gone at any lock a full timeout after its confirmation and the process's first look at it |
| DirectLeases.PrepareExactly | cloud-server/direct-persistent-session-runtime.js:73-141 | preparing keeps and confirms the installation's lease exactly if it is for the same vault and bot, not stopping and confirmed within the timeout; otherwise that lease goes with all its operations and a new one with the bot's next generation takes its place; a bot outside the pool, quarantined or rotating gets none |
| DirectLeases.RenewedExactly | cloud-server/direct-transport-control.js:1494-1514 | renewing confirms operation and lease exactly for the session, installation and generation they were made for |
| DirectLeases.LifeExactly | cloud-server/direct-transport-control.js:411-438 | finalizing makes a lease active, a heartbeat confirms it, stopping makes it unusable for reuse, deleting and rolling back remove it with exactly its operations |
| DirectLeases.OthersExactly | cloud-server/direct-persistent-session-runtime.js:145-157 | a rollback of any other lease, bot, installation or vault does no more than the lock; flags change only their bot; a restart starts a new process that has confirmed and seen nothing |
| DirectLeases.PrepareKeeps | cloud-server/direct-persistent-session-runtime.js:94-140 | preparing a lease retires the installation's old one and gives the new one a generation above all others of its bot |
| DirectLeases.TransportState.Lock | cloud-server/direct-transport-control.js:246-379 | normalizes and reaps as every mutation does first |
| DirectLeases.TransportState.CleanupStale | cloud-server/direct-transport-control.js:314-336 | keeps exactly the operations with a lease and a recent confirmation |
| DirectLeases.TransportState.FindByInstallation | cloud-server/direct-transport-control.js:402-404 | finds the installation's lease if there is one |
| DirectLeases.TransportState.RetireLease | cloud-server/direct-persistent-session-runtime.js:37-44 | removes the lease and exactly its operations |
| DirectLeases.TransportState.PrepareAssignedLease | cloud-server/direct-persistent-session-runtime.js:73-141 | reuses, replaces or creates the lease as specified; a refusal writes nothing, and is remembered only as a look at the operations |
| DirectLeases.TransportState.RollbackPreparedLease | cloud-server/direct-persistent-session-runtime.js:145-157 | retires the lease only if it is still the prepared one |
| DirectLeases.TransportState.DeleteLease | cloud-server/direct-transport-control.js:424-438 | removes the lease and its operations |
| DirectLeases.TransportState.SupersedeDocuments | cloud-server/direct-transport-control.js:1373-1396 | deletes exactly the operations an older document of the tab left behind |
| DirectLeases.TransportState.BeginOperation | cloud-server/direct-transport-control.js:1297-1425 | confirms an unexpired lease under one lock, also when the operation is then refused, and admits the operation as specified under a later one |
| DirectLeases.TransportState.AdmitOperation | cloud-server/direct-transport-control.js:1346-1425 | supersedes, refuses or admits exactly as specified |
| DirectLeases.TransportState.RenewOperation | cloud-server/direct-transport-control.js:1494-1514 | confirms the operation and its lease for their holder only |
| DirectLeases.TransportState.EndOperation | cloud-server/direct-transport-control.js:1460-1477 | ends the operation of that session only, and confirms the lease it was begun under |
| VaultAssignment.AssignmentIsPermanent | cloud-server/direct-vault-assignment.js:112-163 | an assignment, once made, is never changed by anything that follows |
| VaultAssignment.RegisteredIsAssigned | cloud-server/direct-vault-assignment.js:112-163 | a new vault that is registered and assigned gets a bot whenever one is neither quarantined nor rotating: such a one, with no more vaults than any other, and nothing else changes |
| VaultAssignment.LoadsStayLevel | cloud-server/direct-vault-assignment.js:77-150 | in any run, with the pool synchronized and changed at any point, a bot is never ahead of one that could be assigned whenever it could by more than one vault, or by more than it was at the start |
| VaultAssignment.AssignmentStore.ChooseBot | cloud-server/direct-vault-assignment.js:134-142 | none exactly if every bot is quarantined or rotating; otherwise one that is neither, with the fewest vaults among those, ties by id |
| VaultAssignment.AssignmentStore.AssignIfMissing | cloud-server/direct-vault-assignment.js:112-166 | returns the existing assignment or makes the specified one, and leaves a known vault without a bot only if none can be assigned |
| VaultAssignment.AssignmentStore.SyncTransportBots | cloud-server/direct-vault-assignment.js:77-110 | afterwards exactly the unflagged bots of the pool can be assigned, no bot is forgotten and no vault changes |
| VaultAssignment.AssignmentStore.SetMembershipState | cloud-server/direct-vault-assignment.js:189-214 | succeeds exactly for an assigned vault whose bot is the expected one, and changes no assignment and no load |
| CapabilityStore.TenantsStayWithinCap | cloud-server/direct-capability-boundary.js:128-134 | in any run the live capabilities of a tenant never exceed the cap |
| CapabilityStore.EveryUseIsPaidFor | cloud-server/direct-capability-boundary.js:135-183 | a capability is authorized at most once per issue and consumed at most once per authorization: with fresh hashes, once and only after authorization |
| CapabilityStore.IssuedOnceIsUsedOnce | cloud-server/direct-capability-boundary.js:128-183 | a hash issued once is authorized at most once and consumed at most once in any run |
| CapabilityStore.ReissueRevives | cloud-server/direct-capability-boundary.js:132 | issuing under a hash in use revives a revoked capability, so the general bound is per issue |
| CapabilityStore.ClosedStaysClosed | cloud-server/direct-capability-boundary.js:135-183 | CONSUMED, REVOKED and EXPIRED are final until the hash is issued anew, and a lease never gets shorter |
| CapabilityStore.RevokedIsUseless | cloud-server/direct-capability-boundary.js:184-224 | after a revocation nothing it matches can be authorized, renewed or consumed |
| CapabilityStore.RevokesExactly | cloud-server/direct-capability-boundary.js:184-224 | a revocation ends exactly the live capabilities of the session whose operation is not among the live ones, of the session, of the login (on the installation named, or on all), or of the tenant, and changes nothing else |
| CapabilityStore.IssuedIsUsable | cloud-server/direct-capability-boundary.js:128-183 | with fewer live capabilities of the tenant than the cap one is issued, and left alone it is granted to its holder and consumed once, each before lease and skew are over |
| CapabilityStore.GrantedExactlyWhen | cloud-server/direct-capability-boundary.js:135-150 | granted if and only if identity, operation and objects match, the record is ACTIVE and the lease and skew have not passed |
| CapabilityStore.MemoryStore.Sweep | cloud-server/direct-capability-boundary.js:121-126 | expires exactly the live records past their lease |
| CapabilityStore.MemoryStore.CountLive | cloud-server/direct-capability-boundary.js:130 | counts the tenant's live records |
| CapabilityStore.MemoryStore.IssueCapability | cloud-server/direct-capability-boundary.js:128-134 | issues below the cap only |
| CapabilityStore.MemoryStore.AuthorizeCapability | cloud-server/direct-capability-boundary.js:135-150 | granted exactly under the stated conditions; a granted or closed capability can never be granted again by anybody; no other record changes and nobody has more live ones |
| CapabilityStore.MemoryStore.RenewCapability | cloud-server/direct-capability-boundary.js:151-163 | renewed exactly while authorized, in time and asked by its holder; the lease never gets shorter and ends between 30 seconds and 30 minutes from now or where it ended before |
| CapabilityStore.MemoryStore.FinishCapability | cloud-server/direct-capability-boundary.js:164-183 | consumed exactly while authorized, in time and asked by its holder; whatever the answer to its holder, the record is closed; finishing again repeats the answer and changes nothing |
| CapabilityStore.MemoryStore.RevokeMatching | cloud-server/direct-capability-boundary.js:184-224 | revokes exactly the live records that match and returns their number |
| RateLimit.BurstBound | cloud-server/auth-abuse-controls.js:39-49 | any half-open interval as long as the window admits at most 2 * limit - 1 requests of a key |
| RateLimit.BurstBoundIsTight | cloud-server/auth-abuse-controls.js:39-49 | the bound is reached for every limit and every window of at least two milliseconds |
| RateLimit.SameDecisions | cloud-server/auth-durable-abuse-controls.js:88-126 | the upsert form, with its cleanups anywhere, allows exactly the requests the in-memory form allows |
| RateLimit.DurableBurstBound | cloud-server/auth-durable-abuse-controls.js:88-126 | the durable limiter keeps the bound on every ordered trace of requests and cleanups: any half-open interval as long as the window gets at most 2 * limit - 1 positive answers |
| RateLimit.MemoryLimiter.ConsumeKey | cloud-server/auth-abuse-controls.js:39-49 | resets or counts the key's window and decides as specified; the empty key is never limited |
| RateLimit.DurableLimiter.ConsumeRow | cloud-server/auth-durable-abuse-controls.js:88-117 | the upsert leaves the specified row and reports what it decides |
| RateLimit.DurableLimiter.CleanupExpired | cloud-server/auth-durable-abuse-controls.js:120-126 | drops exactly the rows that expired an hour ago, and no later request can tell: its window is the one it would have found |
| UserMerge.PreserveKeepsEveryUserOnce | cloud-server/auth-public-registration-hardening.js:56-93 | every id of either list that was not deleted appears exactly once, with pairwise distinct non-empty normalized names |
| UserMerge.PreserveIsIdempotent | cloud-server/auth-public-registration-hardening.js:56-93 | a second pass with the same previous users changes nothing |
| UserMerge.NamesStayApart | cloud-server/auth-public-registration-hardening.js:23-25 | of two names that differ only in capitals, leading @ signs and blanks around them the merge never keeps both |
| UserMerge.PreviousSnapshotIsKept | cloud-server/auth-public-registration-hardening.js:77-91 | the first previous record of an id that neither the new snapshot nor the deletions name survives, with only its name replaced and marked if that is taken |
| UserMerge.BaseExactly | cloud-server/auth-public-registration-hardening.js:39-43 | a replaced name starts with the old one in small letters, without @ signs, blanks and an earlier number, cut to twenty characters, or with user if less than three are left |
| UserMerge.KeptExactly | cloud-server/auth-public-registration-hardening.js:40 | of the name exactly small letters, digits, dots and underscores are kept, in their order |
| UserMerge.FirstFreeNumber | cloud-server/auth-public-registration-hardening.js:45-54 | a replacement is that start with # and four digits: the first number from the seed on that nobody uses |
| UserMerge.PreserveSucceeds | cloud-server/auth-public-registration-hardening.js:56-93 | with at most ten thousand distinct surviving ids, however often each is listed, the merge never throws |
| UserMerge.NextSnapshotWins | cloud-server/auth-public-registration-hardening.js:56-75 | the new snapshot wins: its first record of an id that was not deleted survives, and only its name is replaced and marked, if an earlier user has it |
| UserMerge.SuffixExists | cloud-server/auth-public-registration-hardening.js:45-54 | with fewer than 10,000 used names a free suffix always exists, whatever the seed |
| UserMerge.FindTemporaryUsername | cloud-server/auth-public-registration-hardening.js:45-54 | the probing loop returns a free name whenever there is one |
| UserMerge.PreserveUsersByStableId | cloud-server/auth-public-registration-hardening.js:56-93 | the two loops return the specified merge |

## Left out

Abstractions inside the modelled operations:

- LibraryService.Library.PublishUnderLock: the check of PROJECT receipts and the legacy PROJECT migration inside a publication are not modelled; a publication here is one whose PROJECT parts did not change. Version, schema and 16 MB checks on the candidate are taken as passed.
- LibraryService.Library.RequestPurgeRows: asset ids come from the beat's own record; receipts of PROJECT uploads, which can add ids, are not modelled.
- LibraryIndex.BuildRows: ids are taken as already trimmed.
- LibraryRuns.CommittedDocumentSurvives: nobody but the service pins an INDEX document or deletes one; other messages may be sent, deleted and pinned by anyone at any time.
- LibraryRetry.PublishEventually: a publication of another document between the attempts, and a change of the pin by anybody else, are not among the steps in between; the next attempt is then refused until a recovery, or for good.
- LibraryPurge.PurgeConfirms: the order in which PostgreSQL returns the pending rows is taken to be the order of the request; it decides only the order of the new tombstones.
- TrashAssets.CollectsExactly: turning JSON text into ids (number formats, the `direct:` prefix) is summarised by the three kinds of field values.
- BillingProjection.BillingTables.ApplySubscriptionSnapshot: bookkeeping columns (local versions, provider modification and update times, the provider environment) and the uniqueness of subscription ids across users are not modelled.
- BillingProjection.BillingTables.UpsertOrderProjection: parsing of amounts and dates, the checkout completion (which is `Checkout.CheckoutService.CompleteCheckout`), and bookkeeping columns such as versions and update times are not modelled.
- BillingReconciliation.ReconcileLocked: provider failures, truncated listings, ownership of identifiers by other users, external ids and audit records are not modelled; the order of the listed orders is arbitrary, so the sort by time is a special case.
- BillingSweep.SweepChecksEveryone: the text order of user ids is an order of positive numbers; the sweep over pending rows pages in the same way and is not modelled separately.
- WebhookInbox.Inbox.ClaimNext: locked rows are a parameter; signature verification, binding of users and the advisory lock around a handler are not modelled.
- Checkout.CheckoutService.CreateSession: URL, offer and ownership checks before the first query are not modelled; whether a live subscription exists is a parameter, and there is one provider environment.
- AuthDelta.QueuesAreSteps: a process starts at the moment it reads the tables, in one read; a failed delta, after which a process flushes nothing more, is a process without further steps (`WriteQueue` models the failure).
- AuthDelta.AuthTables.MergeSnapshotDelta: encryption of tokens, and the abort on a session without expiry, are not modelled.
- WriteQueue.ControlPlane.DeliverResponse: responses whose headers were already sent are not modelled.
- DirectLeases.TransportState.PrepareAssignedLease: credential versions, the migration of old lease records and the heartbeat call, whose effect is the step `Beat`, are not modelled.
- DirectLeases.TransportState.BeginOperation: why a rotation is pending or credentials are outdated is a parameter.
- DirectLeases.ConfirmedIsHeld: one server process runs at a time and its clock does not run backwards. With two running processes, which the lock file allows, a renewal in one does not reset what the other remembers of the operation, and the other may sweep a confirmed operation.
- CapabilityStore.ReissueRevives: capabilities are 32 random bytes each, so that two issues under one hash would take a collision; `IssuedOnceIsUsedOnce` is the case that arises.
- InboxDelivery.StoreIsFoldOfProcessed: fetching the subscription or order from the provider is a parameter, one value for each event: what its committing attempt fetched.
- UserMerge.PreserveUsersByStableId: Unicode normalisation and non-ASCII case folding of names are not modelled; the seed of a user is an arbitrary function of its id.
- AccessResolver.ValidateCatalog: copying and freezing of the returned objects is not modelled.

Parts of the repository that are not modelled:

- `confirm`, `moveToTrash` and `restore` of library-beat-quota.js, which change library_beats without an INDEX and are not used by publication.
- PROJECT receipts, legacy PROJECT migration and topic cleanup.
- The provider action worker, which repeats the inbox's lease pattern.
- The PostgreSQL capability store, whose expiry rule differs from the memory store's, and the normalisation of scopes.
- The stale-break rule of the pool lock file, token rotation, membership probing and diagnostics.
- Signup, email, OAuth, cutover and rollback, security headers, and the web and desktop clients.
