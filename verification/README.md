# Decent Debates: a verified model

Decent Debates lets users propose debates and arguments; a proposal becomes public only after a moderator
accepts its ticket on a Kanban board. This project models the parts of the system that carry state or
transform data, and states what they keep over every run.

| file | models |
|---|---|
| `Schema.dfy` | the tables as values, the public views, the item/ticket invariant |
| `Services.dfy` | every statement of `DebatesService` and `ModeratorService` that writes, as a class over the tables and as step functions |
| `Moderation.dfy` | the transition system those steps form: invariants, approval, ownership |
| `PageCache.dfy` | the read-through cache of the debate page as a timed protocol |
| `DebatePage.dfy` | the page's fold over rows, its counterargument index, its thread navigation |
| `PublicPages.dfy` | the three above together: what a visitor is ever shown |
| `Board.dfy`, `ActivityPage.dfy` | the moderators' board: queries, grouping, sort, drag and approve against the server |
| `Notifications.dfy`, `Inbox.dfy` | the notification queue, worker and count stream; the list and its read marks |
| `DebateFilters.dfy` | the debate filter from the client's form to the SQL condition and its parameters |
| `Spread.dfy`, `LoadSeed.dfy` | the load seed's modular arithmetic and argument trees |
| `ConnectionDrain.dfy` | closing HTTP connections at shutdown |

Code that changes fields in place is a class whose methods are proved equal to a step function; runs are
sequences of those steps, in any order and by any actors, and the results are lemmas about runs.

## Assumptions

- Each SQL statement is one atomic step. A BEGIN/COMMIT block is all-or-nothing and may fail at any of its
  statements: the parameter `fault` is the position of the statement that raises. A statement stopped by
  `fault` draws no id, one refused by a foreign key has drawn its id; ids drawn before a rollback are lost.
- A result set without ORDER BY comes in any order; a union's rows may be interleaved in any way.
- The actor of a step and their role are parameters. The role in a user's session is the one in the table.
- Delivery of a published message to the open streams is one step. The worker may lose the reply to an insert
  that did commit.
- The clock, the page's content while it is cached, notification texts and passwords are opaque. `readAt` and
  `step` in `PageCache` are bookkeeping the program does not store.
- Encoding the filter as JSON and base64 loses nothing. Letters fold case as in ASCII.

## What the proofs found

Where the code and what one would expect of it differ, the model follows the code.

- The debate page does not ask for the debate's own ticket, as the public list does. The title it serves is one
  a moderator approved if and only if that ticket was on ACCEPTED when the page was read
  (`TitleWasApprovedIff`); a debate just proposed is an instance (`UnapprovedTitleIsServed`).
- `submitDraft` asks neither for `is_draft` nor for a row count. A committed submission strands no ticket if and
  only if its row matched and was a draft (`SubmissionIsCleanIff`): without a match its new ticket is stranded
  (`SubmittedTicketIsUsedIff`), with a submitted argument the old one is (`OldTicketIsStrandedIff`). A public
  argument stays public if and only if it is not the one rewritten (`ResubmittingUnpublishes`).
- "Pending means unassigned" fails exactly for a ticket that a moderator moved from PENDING to PENDING and that
  has stayed there since (`PendingIsOwnedIff`). `updateTicket` itself can move a ticket to ACCEPTED; the results
  about approval therefore count both ways of getting there (`Moderation.Approves`).
- A page read before an approval and stored after the approval's delete is served until it expires
  (`ApprovalMissedByLateFill`). The approval is visible from the delete on if and only if no such read is under
  way and the delete is the page's own or finds no older page live (`ApprovalIsVisibleIff`); a delete under
  another debate's key helps nothing (`MisaddressedDeleteKeepsEntry`).
- The notification count subscribes only after its query has resolved. Once every inserted job is published, the
  stream is right if and only if as many jobs had been inserted at its snapshot as had been published when it
  subscribed (`StreamAgreesIff`); with nothing under way at the snapshot, if and only if nothing is published in
  the gap (`StreamAgreesIffGapIsSilent`). A message in the gap is lost (`MessageInTheGapIsLost`).
- Each insert whose reply is lost writes its job's batch once more, up to three times in all: a batch is written
  as promised, once past the insert and never otherwise, if and only if no reply is lost (`BatchIsWrittenOnce`,
  `BatchIsWrittenAtMostThrice`, `LostReplyDuplicates`).
- A matching strategy named like a key every JavaScript object inherits is taken for neither strategy: the
  statement then lacks a parameter exactly if tags are chosen too (`PlaceholdersMatchValues`,
  `FilterPreservesMeaning`).
- A filter with only a matching strategy, or with an empty list of tags, makes the server dereference a missing
  object (`EmptyFilterThrowsExactlyWhen`).
- The pattern `%q%` means "contains" if and only if `q` has no `%`, no `_` and no backslash
  (`ContainsExactlyWithoutWildcards`).
- Draining must begin before the server is closed, as `closeApp` does it; the other order can leave a connection
  lingering (`DrainingAfterCloseLingers`).

## Model

| member | source | states |
|---|---|---|
| `Services.Store.CreateDebate` | apps/api/src/entities/debates/debates.service.ts:114-195 | tags, ticket, debate and tag associations are stored together or not at all; the outcome is success exactly when the transaction commits |
| `Services.Store.CreateArgument` | apps/api/src/entities/debates/debates.service.ts:248-310 | a ticket and an argument that references it, or neither |
| `Services.Store.SaveArgumentAsDraft` | apps/api/src/entities/debates/debates.service.ts:398-426 | a draft is an argument without a ticket |
| `Services.Store.UpdateDraft` | apps/api/src/entities/debates/debates.service.ts:469-503 | only the author's row of that debate, while it is a draft; success exactly if there is one, else an error |
| `Services.Store.SubmitDraft` | apps/api/src/entities/debates/debates.service.ts:505-556 | a new ticket always, attached to the author's row if one matches, draft or not |
| `Services.Store.UpdateArgument` | apps/api/src/entities/debates/debates.service.ts:606-632 | title and content of the author's argument while its ticket is not on ACCEPTED; done unless the statement raises, with row count 1 exactly in that case |
| `Services.Store.UpdateDebate` | apps/api/src/entities/debates/debates.service.ts:634-654 | the title of the author's debate while its ticket is not on ACCEPTED; done unless the statement raises, with row count 1 exactly in that case |
| `Services.Store.UpdateTicket` | apps/api/src/entities/moderator/moderator.service.ts:220-257 | moves a pending ticket or the moderator's own; assigns it out of PENDING, releases it into PENDING; "not found" when the guard fails |
| `Services.Store.ApproveTicket` | apps/api/src/entities/moderator/moderator.service.ts:259-280 | puts the moderator's own ticket on ACCEPTED and returns its creator |
| `Moderation.StepKeepsConsistent` | apps/api/src/entities/debates/debates.service.ts:114-556 | every step, faulty or not, keeps: an argument is a draft iff it has no ticket; referenced tickets exist and have the item's author; no ticket serves two items; a ticket outside PENDING is owned by a moderator |
| `Moderation.RunIsConsistent` | apps/api/src/entities/debates/debates.service.ts:114-654 | so it holds at every moment of every run |
| `Moderation.AllOrNothing` | apps/api/src/entities/debates/debates.service.ts:136-194 | a raising statement, whichever it is, leaves every table as it was; without one there is a single outcome |
| `Moderation.ProposalIsStored` | apps/api/src/entities/debates/debates.service.ts:134-171 | a debate is stored, and success reported, exactly when nothing raises, the author exists and no tag is named twice; then with its title, author, all chosen and created tags and a pending unowned ticket |
| `Moderation.DraftThenSubmitIsCreate` | apps/api/src/entities/debates/debates.service.ts:505-556 | saving any draft and submitting it with a text gives the same database as creating the argument with that text |
| `Moderation.OnlyAuthorsChangeArguments` | apps/api/src/entities/debates/debates.service.ts:469-632 | arguments are never deleted, keep author and debate, and change only by their author; for every step, exactly which edits and submissions take effect and what text they store |
| `Moderation.OnlyAuthorsChangeDebates` | apps/api/src/entities/debates/debates.service.ts:634-654 | debates are never deleted and keep all but the title, which is replaced exactly by the author's edit while the debate is not accepted |
| `Moderation.OnlyModeratorsChangeTickets` | apps/api/src/entities/moderator/moderator.service.ts:220-280 | an existing ticket keeps its creator and only a moderator's step changes it |
| `Moderation.AcceptedTicketOrigin` | apps/api/src/entities/moderator/moderator.service.ts:220-280 | a ticket on ACCEPTED was there before under the same owner, or its owner has just put it there |
| `Moderation.AcceptedArgumentOrigin` | apps/api/src/entities/debates/debates.service.ts:469-632 | no step changes any field of an argument and leaves it accepted |
| `Moderation.AcceptedDebateOrigin` | apps/api/src/entities/debates/debates.service.ts:634-654 | no step changes any field of a debate and leaves it accepted |
| `Moderation.AcceptedSince` | apps/api/src/entities/moderator/moderator.service.ts:220-280 | each stay on ACCEPTED began with a step of the moderator who owns the ticket ever since |
| `Moderation.PublicArgumentWasApproved` | apps/api/src/entities/debates/debates.service.ts:197-246 | in every reachable state a public argument has, field for field, what it had when its ticket last entered ACCEPTED and at each moment since, and the moderator of that step is its current owner |
| `Moderation.ListedDebateWasApproved` | apps/api/src/entities/debates/debates.service.ts:61-92 | a debate of the public list has the row its ticket's owner approved, unchanged since |
| `Moderation.DebateIsApprovedIff` | apps/api/src/entities/debates/debates.service.ts:634-654 | in every reachable state a debate reads as the current owner of its ticket approved it, unchanged since, iff its ticket is on ACCEPTED |
| `Moderation.PublicArgumentIsFrozen` | apps/api/src/entities/debates/debates.service.ts:469-654 | an argument never changes while it stays public |
| `Moderation.ListedDebateIsFrozen` | apps/api/src/entities/debates/debates.service.ts:61-92 | a debate never changes while it stays listed |
| `Moderation.HeldUnlessReleased` | apps/api/src/entities/moderator/moderator.service.ts:221-232 | a step leaves a claimed ticket with its owner or is that owner's move back to PENDING |
| `Moderation.HeldUntilReleased` | apps/api/src/entities/moderator/moderator.service.ts:221-232 | the same over whole runs |
| `Moderation.OwnedOutsidePending` | apps/api/src/entities/moderator/moderator.service.ts:225-229 | in every reachable state a ticket outside PENDING has a moderator for owner |
| `Moderation.OwnerChangeNeedsRelease` | apps/api/src/entities/moderator/moderator.service.ts:220-280 | between two moments with different owners the earlier one released the ticket |
| `Moderation.OthersChangeNothing` | apps/api/src/entities/moderator/moderator.service.ts:230-266 | until that release every other moderator's update or approval matches no row |
| `Moderation.UpdateTicketSucceedsIff` | apps/api/src/entities/moderator/moderator.service.ts:230-256 | an update is refused exactly when another moderator holds the ticket; when it succeeds the ticket is on the asked list and, unless that is PENDING, is the moderator's |
| `Moderation.ListNames` | packages/db/migrations/20261015000000_init.ts:14 | the four list names an update accepts, and no others |
| `Moderation.ApproveTicketSucceedsIff` | apps/api/src/entities/moderator/moderator.service.ts:259-280 | an approval from any list succeeds exactly for the ticket's owner, who keeps it on ACCEPTED |
| `Moderation.SubmittedTicketIsUsedIff` | apps/api/src/entities/debates/debates.service.ts:515-548 | the new ticket of a committed submission moderates something iff the draft's row matched |
| `Moderation.OldTicketIsStrandedIff` | apps/api/src/entities/debates/debates.service.ts:515-548 | a ticket in use is stranded iff the submission rewrites the argument it moderates |
| `Moderation.SubmissionIsCleanIff` | apps/api/src/entities/debates/debates.service.ts:505-556 | a submission strands a ticket, old or new, iff it commits and its row did not match or was no draft |
| `Moderation.ResubmittingUnpublishes` | apps/api/src/entities/debates/debates.service.ts:515-548 | a public argument stays public iff the submission does not rewrite it; otherwise it is on PENDING and its accepted ticket is stranded |
| `Moderation.PendingMayBeAssigned` | apps/api/src/entities/moderator/moderator.service.ts:225-226 | the CASE reads the old list: after a move to PENDING the ticket has an owner iff it was on PENDING before |
| `Moderation.OwnedPendingWasReassigned` | apps/api/src/entities/moderator/moderator.service.ts:221-232 | in every reachable state an owned pending ticket got its owner by that moderator's own move from PENDING to PENDING and has been there since |
| `Moderation.PendingIsOwnedIff` | apps/api/src/entities/moderator/moderator.service.ts:221-232 | a pending ticket has an owner iff some moderator made such a move and it has not left PENDING since |
| `PageCache.Controllers.GetDebate` | apps/api/src/entities/debates/debates.controller.ts:96-108 | a live entry answers; a missing or expired one, or an outage, falls through to the query |
| `PageCache.Controllers.ReadPage` | apps/api/src/entities/debates/debates.controller.ts:109 | the page the tables show is read; an unknown debate, and only that, ends the request, so nothing is stored for it |
| `PageCache.Controllers.SendPage` | apps/api/src/entities/debates/debates.controller.ts:110-115 | the fill is sent and not awaited; the answer is the page that was read |
| `PageCache.Controllers.FinishFill` | apps/api/src/entities/debates/debates.controller.ts:111-113 | a stored entry expires 60 s after the fill arrives; a failed fill changes nothing |
| `PageCache.Controllers.ApproveArgument` | apps/api/src/entities/moderator/moderator.controller.ts:211-223 | a delete for the debate the body names is under way after the commit |
| `PageCache.Controllers.FinishDelete` | apps/api/src/entities/moderator/moderator.controller.ts:223 | the entry is gone, or the failure is swallowed |
| `PageCache.RunIsSourced` | apps/api/src/entities/debates/debates.controller.ts:96-116 | whatever is cached or in flight is a page the database showed at some earlier moment |
| `PageCache.EntryWasStored` | apps/api/src/entities/debates/debates.controller.ts:111-113 | every entry came in by one fill and expires 60 s after that fill arrived |
| `PageCache.StoredPageIsServed` | apps/api/src/entities/debates/debates.controller.ts:96-113 | a fill that arrives is served for exactly 60 s, unless another fill, a delete or an eviction of that page comes first |
| `PageCache.BoundedStaleness` | apps/api/src/entities/debates/debates.controller.ts:96-116 | under any interleaving of reads, late fills, deletes, evictions and outages an answer at t is the database view at some r <= t, and from the cache t - r < 60 s plus the delay of the fill |
| `PageCache.NotFoundIsNeverCached` | apps/api/src/entities/debates/debates.controller.ts:109-114 | a debate that did not exist so far has no entry and no fill under way |
| `PageCache.NewerAnswersFromNothingOlder` | apps/api/src/entities/debates/debates.controller.ts:98-116 | with nothing older than p cached or in flight, no continuation of any length answers with a page older than p |
| `PageCache.LateFillIsServed` | apps/api/src/entities/debates/debates.controller.ts:110-114 | an older read still in flight can be stored and then served |
| `PageCache.OnlyNewerAnswersIff` | apps/api/src/entities/debates/debates.controller.ts:96-116 | in any state all answers to come are at least as new as p iff nothing older is live in the cache or in flight |
| `PageCache.DeleteNamesTheDebate` | apps/api/src/entities/moderator/moderator.controller.ts:223 | the delete an approval sent is under the key of the debate its body named, as long as it is under way |
| `PageCache.ApprovalIsVisibleIff` | apps/api/src/entities/moderator/moderator.controller.ts:211-247 | every answer after the approval's delete is at least as new as the approval iff, when that arrives, no older read of that page is in flight and the approval named that debate or no older page is live |
| `PageCache.MisaddressedDeleteKeepsEntry` | apps/api/src/entities/moderator/moderator.controller.ts:223 | a delete under another debate's key changes neither the cached answer nor whether older pages can still be answered |
| `PageCache.ApprovalMissedByLateFill` | apps/api/src/entities/moderator/moderator.controller.ts:211-223 | a run from the start in which a visitor gets the page from before an approval whose delete has arrived |
| `PublicPages.ShownWasApproved` | apps/api/src/entities/debates/debates.service.ts:210-217 | each argument on a page made of a reachable database is shown as it was approved |
| `PublicPages.TitleWasApprovedIff` | apps/api/src/entities/debates/debates.service.ts:218-230 | the title on a page is an approved one iff the debate's ticket is on ACCEPTED |
| `PublicPages.ServedPagesWereApproved` | apps/api/src/entities/debates/debates.controller.ts:91-117 | every page ever sent, from the cache or not, is its debate's page at an earlier moment; each argument on it is as the moderator who then owned its ticket approved it, and so is its title iff the debate's ticket was then on ACCEPTED |
| `Board.GroupLists` | apps/api/src/entities/moderator/moderator.controller.ts:90-98 | one group for each list a row names, and for no other |
| `Board.GroupCards` | apps/api/src/entities/moderator/moderator.controller.ts:90-97 | a group holds its list's cards in row order, without the padding rows |
| `Board.ActivityShowsDatabase` | apps/api/src/entities/moderator/moderator.controller.ts:64-99 | for every database and row order the response has each of the four lists once, even when empty, and each card once, on its own ticket's list |
| `Board.CardsAreTickets` | apps/api/src/entities/moderator/moderator.service.ts:23-107 | the cards are exactly the tickets of tagged debates and of submitted arguments, one card a ticket |
| `Board.CardsReadAsTheirItems` | apps/api/src/entities/moderator/moderator.service.ts:23-107 | every card shows its own item's title, side, debate and tags, and its ticket's list and moderator |
| `Board.AcceptedCardsArePublic` | apps/api/src/entities/moderator/moderator.service.ts:52-106 | the ACCEPTED list holds exactly the public arguments and the listed debates |
| `ActivityPage.GetActivityDTO` | apps/client/src/dtos/moderator/get-activity.dto.ts:56-64 | sorts the array it is given in place |
| `ActivityPage.SortIsOrderedPermutation` | apps/client/src/dtos/moderator/get-activity.dto.ts:12-63 | the sort is an ordered permutation |
| `ActivityPage.SortIsStable` | apps/client/src/dtos/moderator/get-activity.dto.ts:56-64 | the cards of each list stay in their order |
| `ActivityPage.PageShowsDatabase` | apps/client/src/dtos/moderator/get-activity.dto.ts:12-63 | the loaded page has the lists PENDING, IN REVIEW, ACCEPTED, CANCELED in that order and shows the database |
| `ActivityPage.OnItemDropped` | apps/client/src/app/activity/page.tsx:252-309 | the two boards' cards are reassigned in place as the drop step says; the request names the target list, for every drop but those onto ACCEPTED, onto the same list, or out of PENDING without a known moderator |
| `ActivityPage.DropIsSentIff` | apps/client/src/app/activity/page.tsx:253-270 | exactly which drops are sent |
| `ActivityPage.CanDragIff` | apps/client/src/app/activity/page.tsx:112-123 | outside PENDING a card can be dragged iff the server lets the moderator move it, on PENDING iff nobody else has it |
| `ActivityPage.DropCommutes` | apps/client/src/app/activity/page.tsx:112-123 | whatever the card rights allow to drag, the server accepts, and the optimistic boards show the updated database; an ignored drop changes neither |
| `ActivityPage.AllowedDropMovesTheCard` | apps/client/src/app/activity/page.tsx:252-309 | every allowed drag to another list but ACCEPTED is sent and puts ticket and card there, with the right owner, and nowhere else; other cards keep their places |
| `ActivityPage.ApproveCommutes` | apps/client/src/app/activity/page.tsx:343-394 | the same for approving a card that is in review |
| `ActivityPage.ApprovalMovesTheCard` | apps/client/src/app/activity/page.tsx:369-392 | an approval puts the card on ACCEPTED and nowhere else; other cards keep their places |
| `ActivityPage.ActionCommutes` | apps/client/src/app/activity/page.tsx:252-394 | one offered action keeps page and database in step |
| `ActivityPage.ActionMovesTheCard` | apps/client/src/app/activity/page.tsx:252-394 | after each offered action page and database both have the ticket on the action's target list |
| `ActivityPage.SessionStaysInStep` | apps/client/src/app/activity/page.tsx:252-394 | any session of offered drags and approvals keeps each ticket on exactly one board, the one the database has it on |
| `ActivityPage.LoadedPageIsInStep` | apps/client/src/dtos/moderator/get-activity.dto.ts:56-64 | in every reachable database a freshly loaded page is in step |
| `Notifications.Pipeline.InsertRows` | apps/notification-worker/src/notification/notification.processor.ts:62-66 | one unread row for each moderator, or for the recipient if that account exists; a raising insert ends the attempt without a row |
| `Notifications.Pipeline.PublishMessage` | apps/notification-worker/src/notification/notification.processor.ts:68-79 | each subscribed stream the message is for counts one more; the job completes even when publishing fails |
| `Notifications.Pipeline.QueryCount` | apps/api/src/entities/notification/notification.service.ts:83-101 | the snapshot of the unread count, with the stream not yet subscribed |
| `Notifications.Pipeline.SubscribeStream` | apps/api/src/entities/notification/notification.controller.ts:85-97 | the count is sent first, then the stream hears messages |
| `Notifications.FilterAgreesWithInsert` | apps/api/src/entities/notification/notification.controller.ts:89-94 | a generic message is for the moderators, another for its recipient: for exactly those the job inserts a row, one and unread, and the stream filter passes it |
| `Notifications.RowsAreConserved` | apps/notification-worker/src/notification/notification.processor.ts:59-121 | at every moment a user's rows number the jobs past their insert that address them, plus the lost replies |
| `Notifications.BatchIsWrittenOnce` | apps/notification-worker/src/notification/notification.processor.ts:59-66 | a batch is written once for a job past its insert, never for another, plus once for each lost reply; so as promised iff none is lost |
| `Notifications.DeadAfterThreeFailures` | apps/api/src/app.module.ts:49-51 | a job's failures are its thrown attempts; it fails for good exactly at the third, and before that it waits, runs or is past its insert |
| `Notifications.JobKeepsItsPayload` | apps/notification-worker/src/notification/notification.processor.ts:59-71 | through all retries a job keeps the payload it was enqueued with |
| `Notifications.BatchIsWrittenAtMostThrice` | apps/api/src/app.module.ts:49-51 | no batch is written more than three times; exactly when one is written twice or more |
| `Notifications.LostReplyDuplicates` | apps/notification-worker/src/notification/notification.processor.ts:103-121 | a run in which a lost reply gives a user the same notification twice |
| `Notifications.JobsTerminate` | apps/api/src/app.module.ts:49-51 | with three attempts a job takes at most seven steps, and one with none left is completed or dead |
| `Notifications.UnfinishedJobsCanStep` | apps/notification-worker/src/notification/notification.processor.ts:18-20 | no job is stuck: it can start, insert (when its recipient exists) or publish, or it waits, all slots are taken and a job in a slot can |
| `Notifications.AtMostFiveActive` | apps/notification-worker/src/notification/notification.processor.ts:18-20 | at most five jobs run at once |
| `Notifications.StreamSum` | apps/api/src/entities/notification/notification.controller.ts:83-97 | a stream has sent its snapshot's count plus the messages published to its user since it subscribed |
| `Notifications.StreamAccount` | apps/api/src/entities/notification/notification.controller.ts:83-97 | the same error by jobs: those inserted since the snapshot and not heard, those inserted before it and heard |
| `Notifications.StreamAgreesWithoutStraddle` | apps/api/src/entities/notification/notification.controller.ts:83-97 | when no job straddles the opening, the events add up to the unread count at opening plus the rows inserted since |
| `Notifications.StreamBalance` | apps/api/src/entities/notification/notification.controller.ts:83-97 | with no hypothesis, the error of a stream: the difference fixed at its opening, less the messages not published and the lost replies since |
| `Notifications.StreamAgreesIff` | apps/api/src/entities/notification/notification.controller.ts:83-97 | with every inserted job published and no reply lost, the sum is right iff as many jobs had been inserted at the snapshot as had been published at the subscription |
| `Notifications.StreamAgreesIffGapIsSilent` | apps/api/src/entities/notification/notification.controller.ts:83-97 | with nothing under way at the snapshot, right iff nothing for the user is published before the subscription |
| `Notifications.MessageInTheGapIsLost` | apps/api/src/entities/notification/notification.controller.ts:85-97 | a run in which a row is inserted and neither counted nor heard |
| `Inbox.Table.GetNotifications` | apps/api/src/entities/notification/notification.controller.ts:47-70 | answers with the user's rows and sends a mark for the unread ones among them, if any |
| `Inbox.Table.MarkNotificationsAsRead` | apps/api/src/entities/notification/notification.service.ts:103-123 | marks the rows it was sent with and counts them; a failure marks none |
| `Inbox.AnswerHoldsTheUsersRows` | apps/api/src/entities/notification/notification.service.ts:57-68 | exactly the user's rows, newest first |
| `Inbox.ListMarksTheUnreadRows` | apps/api/src/entities/notification/notification.controller.ts:51-67 | a request sends a mark iff some row of its response is unread, and for exactly those rows |
| `Inbox.CountIsTheUnreadRows` | apps/api/src/entities/notification/notification.service.ts:83-89 | the count query counts the user's unread rows |
| `Inbox.NoSilentRead` | apps/api/src/entities/notification/notification.controller.ts:51-67 | at every moment a row is read only if an earlier response to its recipient contained it unread |
| `Inbox.LateRowsStayUnread` | apps/api/src/entities/notification/notification.controller.ts:51-67 | a row inserted after a request's snapshot stays unread until its recipient asks again |
| `Inbox.MarkReadsTheResponse` | apps/api/src/entities/notification/notification.service.ts:103-111 | a mark that arrives, however late, reads exactly the unread rows of the response it was sent with; then all of that response is read |
| `DebateFilters.FetchDebatesWithFilters` | apps/client/src/utils/api/debate.ts:95-108 | which fields the query object has; an empty list of tags is sent as an empty text |
| `DebateFilters.Transform` | apps/api/src/pipes/debates-query.pipe.ts:17-53 | no filter, or one with the parts that are present and the strategy looked up, inherited keys included, "any" when there is none |
| `DebateFilters.PlaceholdersMatchValues` | apps/api/src/entities/debates/debates.service.ts:656-703 | the placeholders number exactly 1 to the number of parameters, in order, iff the strategy is not an inherited key; with one, the last placeholder has no parameter |
| `DebateFilters.PlainQueryMeansContains` | apps/api/src/entities/debates/debates.service.ts:657-664 | without wildcards the pattern means "contains", letter by letter up to case |
| `DebateFilters.ContainsExactlyWithoutWildcards` | apps/api/src/entities/debates/debates.service.ts:657-678 | and for every title only then |
| `DebateFilters.SplitUndoesJoin` | apps/api/src/entities/debates/debates.service.ts:694-702 | joining comma-free ids and splitting them is a round trip |
| `DebateFilters.FilterPreservesMeaning` | apps/api/src/entities/debates/debates.service.ts:656-703 | from the client's form to the rows selected: the statement has its parameters iff tags do not go with an inherited key, and then selects, for a wildcard-free query, exactly the debates whose title contains the query and whose tags meet (any) or equal (all) the chosen ones |
| `DebateFilters.EmptyFilterThrowsExactlyWhen` | apps/api/src/entities/debates/debates.service.ts:681-690 | when no filter applies, and when compiling throws, exactly |
| `DebateFilters.RequestWithoutFilters` | apps/api/src/pipes/debates-query.pipe.ts:17-53 | for any query object: when there is no filter, which parts it has, that an empty query is an absent one, and when compiling throws |
| `Spread.CoprimeHasInverse` | packages/db/data/seeds-load/01_load.ts:32-36 | a multiplier coprime with m has Bezout coefficients, hence an inverse modulo m |
| `Spread.EvenSpread` | packages/db/data/seeds-load/01_load.ts:32-36 | any N consecutive n hit each residue of n * s mod m floor(N/m) or ceil(N/m) times |
| `Spread.CommonFactorLeavesGaps` | packages/db/data/seeds-load/01_load.ts:32-36 | with a common factor some residues are never hit |
| `Spread.EvenIffCoprime` | packages/db/data/seeds-load/01_load.ts:32-36 | even for every window iff coprime |
| `LoadSeed.SpreadIsCoprime` | packages/db/data/seeds-load/01_load.ts:32-36 | 7919 is coprime with 9,950 and with 9,940 |
| `LoadSeed.AuthorsAreEven` | packages/db/data/seeds-load/01_load.ts:34-36 | consecutive numbers select each regular user equally often up to one, and no moderator |
| `LoadSeed.NotificationShares` | packages/db/data/seeds-load/01_load.ts:202-218 | each heavy user gets exactly 8,000 notifications, every other regular user 92 or 93, nobody else any |
| `LoadSeed.AnsweredIff` | packages/db/data/seeds-load/01_load.ts:115-141 | argument j has an answer iff j * B is within the debate's count |
| `LoadSeed.OnlyLeavesWait` | packages/db/data/seeds-load/01_load.ts:115-129 | only arguments nobody answers are drafts, in review or pending, and which |
| `LoadSeed.AncestorsAreAccepted` | packages/db/data/seeds-load/01_load.ts:115-171 | every ancestor of an argument comes before it, so the parents form a forest, and is ACCEPTED |
| `LoadSeed.DepthIsLogarithm` | packages/db/data/seeds-load/01_load.ts:19-21 | depth is the logarithm of the argument's number |
| `LoadSeed.DepthBound` | packages/db/data/seeds-load/01_load.ts:19-21 | an argument is within the first k levels iff its number is below B^k |
| `LoadSeed.SeedTreesHaveFiveLevels` | packages/db/data/seeds-load/01_load.ts:133-139 | hot debates have 2,000 to 2,999 arguments on exactly five levels, the others 10 to 50; no tree is deeper |
| `ConnectionDrain.Tracker.OnRequest` | apps/api/src/connection-drain.ts:21-27 | the response is tracked, and marked at once while draining |
| `ConnectionDrain.Tracker.OnResponseClosed` | apps/api/src/connection-drain.ts:23 | a closed response is no longer tracked |
| `ConnectionDrain.Tracker.Drain` | apps/api/src/connection-drain.ts:29-32 | every response in flight gets a close header if its headers are not out, or else a finish hook |
| `ConnectionDrain.RunIsTracked` | apps/api/src/connection-drain.ts:8-33 | in any order of events, once draining each unfinished response is marked, and after the close each open connection is busy or about to be collected |
| `ConnectionDrain.DrainedServerLeavesNothing` | apps/api/src/connection-drain.ts:5-33 | after draining and closing every open connection has a marked response or a scheduled collection; with all finished none is open |
| `ConnectionDrain.NoneOpensAfterClose` | apps/api/src/shutdown.ts:13-15 | after the close the set of open connections only shrinks |
| `ConnectionDrain.DrainingAfterCloseLingers` | apps/api/src/shutdown.ts:13-15 | the opposite order leaves an idle connection nobody collects |
| `DebatePage.GetDebates` | apps/api/src/utils/debates.ts:5-29 | the reduce over the rows: not found when a row has no title, else the last row's metadata and all arguments |
| `DebatePage.PageIsFaithful` | apps/api/src/entities/debates/debates.service.ts:197-231 | wherever the added row falls, the page is served iff the debate exists under a title that is not empty, and holds its title and exactly its accepted arguments with their fields, in row order |
| `DebatePage.UnapprovedTitleIsServed` | apps/api/src/entities/debates/debates.service.ts:218-230 | the page of a debate that is still pending serves its title |
| `DebatePage.GetDebateDTO` | apps/client/src/dtos/debate/get-debate.dto.ts:3-29 | the one-pass map index equals the quadratic definition |
| `DebatePage.EdgesAreKept` | apps/client/src/dtos/debate/get-debate.dto.ts:10-27 | b is listed under a once iff b answers a, else not at all |
| `DebatePage.AnswersAreOrdered` | apps/client/src/dtos/debate/get-debate.dto.ts:16-21 | answers keep the page's order |
| `DebatePage.IndexListsTheAnswers` | apps/client/src/dtos/debate/get-debate.dto.ts:10-27 | an argument has no list iff nothing answers it, else each answer once in page order; its other fields are kept |
| `DebatePage.IndexingIsIdempotent` | apps/client/src/dtos/debate/get-debate.dto.ts:24-27 | indexing twice is indexing once |
| `DebatePage.Thread.InspectCounterargumentsOf` | apps/client/src/app/debates/[id]/DebatePageClient.tsx:74-98 | an argument already in the history cuts it there, another one extends it |
| `DebatePage.Thread.DisableInspectCounterargumentsMode` | apps/client/src/app/debates/[id]/DebatePageClient.tsx:183-186 | leaves the mode with an empty history |
| `DebatePage.ClickKeepsThread` | apps/client/src/app/debates/[id]/DebatePageClient.tsx:74-147 | one click the page allows keeps the history a thread |
| `DebatePage.ClickInspects` | apps/client/src/app/debates/[id]/DebatePageClient.tsx:74-98 | a click inspects its argument and cuts the history at it, or extends the history by it |
| `DebatePage.ThreadOpensIff` | apps/client/src/app/debates/[id]/DebatePageClient.tsx:188-207 | the menu item is offered exactly on displayed, answered arguments other than the inspected one |
| `DebatePage.OpenedThreadShowsAnswers` | apps/client/src/app/debates/[id]/DebatePageClient.tsx:100-126 | an opened thread displays its argument and exactly the answers from the other side |
| `DebatePage.HistoryIsAThread` | apps/client/src/app/debates/[id]/DebatePageClient.tsx:67-191 | after any clicks, even on circular data, the history has no repetition, ends in the inspected argument (empty iff none), and each entry answers the previous one from the other side |

## Left out

- Sessions, cookies, guards, throttling and password hashing: library behaviour; the actor is a parameter.
- Building notification texts with the editor library: a notification is its recipient and its read flag.
- Comments and their WebSocket rooms: thin wrappers over single inserts.
- HTTP, JSON, base64, Redis and PostgreSQL internals, including base64 of non-ASCII queries and `+` in a URL.
- Races inside one SQL statement under READ COMMITTED: statements are atomic here.
- Rendering, styling, the drag-and-drop library, and stale closures of React hooks: handlers act on the current
  boards, and no other moderator acts within a session of `ActivityPage.SessionStaysInStep`.
- Telemetry, logging, configuration, health checks and the rest of the shutdown order.
- Services.Store.CreateDebate: does not model the lookup of existing tag names; the ids of the created tags are
  fresh, and their number is a parameter.
- Services.Store.UpdateTicket: a null `board_list`, which no statement writes, is not modelled; unknown list
  names, over-long texts and other refused values are the `fault` or `Failed` outcome of the statement.
- ActivityPage.OnItemDropped: boards and the dragged item are objects, a card is a value, so that one card object
  is at once on a board and in the item is not captured.
- Notifications.BatchIsWrittenOnce: a worker that dies within a job, and the queue's recovery of stalled jobs, are
  not modelled; neither is the delay between attempts.
- Services.Store.SubmitDraft: a COMMIT that takes effect although its reply is lost (here and in the other two
  transactions) leaves the tables of a success, which the runs cover, but is reported as a failure, which the
  outcome does not.
- DebateFilters.FilterPreservesMeaning: for a query with wildcards only the statement's parameters are stated;
  `ContainsExactlyWithoutWildcards` says that it then differs from "contains" for some title.
- ConnectionDrain.Tracker.OnRequest: one request at a time on a connection; HTTP pipelining is not modelled.
- ConnectionDrain.DrainedServerLeavesNothing: a request whose headers have not fully arrived does not keep its
  connection busy here, while Node's closeIdleConnections leaves such a connection open.
- The content of an argument on the debate page, which is fetched separately, and timestamps.
- The seed's subscriptions, comments, tags and tickets: easy instances of the same arithmetic.
- Splitting a listed debate's tags into records, read-only getters of drafts and single arguments: they add no
  state.
