# Verified model of the Oreneta mail core and its desktop bridge

Oreneta (Meron) is a mail client: a Rust core (`meron-core`) that keeps mail in tables, and a Go bridge
that starts the core, talks to it and shows notifications. This project models the parts whose correctness
rests on orders, protocols, journals and codecs, and proves what those parts are for. `dafny verify
dfyconfig.toml` checks all of it.

- `ConversationPage`, `CachedConversations`: conversations of all folders in one order, a page at a time by
  keyset cursors that are bound to the view they were issued for; representatives of cards, and the details
  of the selected cards fetched a folder at a time.
- `Restore`: the journalled swap of a restored profile, on a disk whose primitives may fail or be the last
  thing before a crash. A world fixes how each step ends, so a run is a function of the disk and the world; a
  class `Disk` holds the files and the journal and makes those steps in place.
- `AvatarSettle`, `Sidecar`, `SidecarAnswers`, `SidecarRestart`, `MissedRelease`: protocols between goroutines, as machines that interleave one
  atomic operation (or one section under the mutex) at a time. `Sidecar.Multiplexer` and
  `MissedRelease.MissedReminders` are the objects whose critical sections those steps are.
- `NotifyMissed`, `NotifyQuiet`: merging held notices with a cap on details, and when quiet hours end.
- `Mbox`, `Archive`: the mbox printer and parser, and the local message store over two tables.
- `MailCheck`: the periodic check scheduler over whole runs with any clock, in saturating 64-bit arithmetic.
- `Base64`, `Obf`, `ThreadId`, `Numerals`, `Profiles`: base64 (RFC 4648, sections 4 and 5) in bits, the XOR
  pad, the ids of threads, decimal numerals, and fresh profile ids.
- `Order`, `Text`, `Wrappers`: stable sorting and canonical lists, string operations, options and results.

Five properties fail somewhere. The model keeps the code as it is and proves, for all inputs, exactly when each
of them holds, beside a run in which it does not:

- A failed activation that was rolled back has left every live path as it was if and only if no copy aside was
  left half-made (`Restore.WentBackIff`): a rename failed, the copy in its place failed part-way, and removing
  that part failed too (`Restore.LeavesIs` names the four steps). The comment at restore.go:201-202 promises the
  rollback from any point; on every disk with a store to swap a run shows the other case
  (`Restore.CutAsideIsTaken`).
- A move inside the archive conserves the messages between two folders if and only if no message is listed
  twice, and within one folder, with messages listed once, if and only if no uid that the copies are given is on
  the list (`Archive.MoveBetweenConserves`, `Archive.MoveWithinConserves`; `Archive.MoveConserves` for any list;
  runs: `Archive.MoveDoubles`, `Archive.MoveLoses`).
- A held notice keeps a wake-up while the wall clock is not set back (`MissedRelease.NoLostWakeUp`); however
  it is set while the notice waits for one timer at the end of quiet, the notice is lost if and only if the plan,
  asked when the timer fires, still holds it back until that same end (`MissedRelease.SetBackLosesIff`; both
  happen from a state that is reached, `MissedRelease.NightIsWaitedFor`).
- Between one start of the core and the next, the calls made after it are answered only by the process they were
  written to if and only if the start is safe, whatever came before: no older waiter is left, and no older reader that reads, delivers or has failed
  (`SidecarRestart.SafeStartIff`). Restarts one after the other start safely; a start right after Close, or two
  restarts at once, do not (`SidecarRestart.RestartsInTurn`, `SidecarRestart.EarlyStartIsNotSafe`,
  `SidecarRestart.RestartsAtOnce`).
- The holder of the core's mutex, past marshalling, can give it back alone if and only if it is not a caller whose
  pipe is full
  (`Sidecar.MutexIsReleased`); such a caller keeps it until the process reads or its pipe breaks, and
  meanwhile nobody can close, start or be answered (`Sidecar.StuckUntilThePipeMoves`, `Sidecar.StuckBlocks`).

## Model

| member | source | states |
|---|---|---|
| ConversationPage.Paginate | meron-core/src/conversation_page.rs:123-165 | The loop with its seen-ids set, the sort, the cut and the next cursor give the page of the specification, each refusal in the source's order |
| ConversationPage.PageIsPage | meron-core/src/conversation_page.rs:123-165 | In the candidates' own fields: a page shows, in order and each once, the first of those behind the one its cursor was issued at, as many as the limit; by date, or by sender or subject with ASCII letters lowered, then by id, turned around for descending |
| ConversationPage.RefusedIff | meron-core/src/conversation_page.rs:38-42 | A page is refused exactly for a limit of 0, an unnamed view or scope, a cursor that is not this view's, or candidates without an id of their own |
| ConversationPage.LessIs | meron-core/src/conversation_page.rs:80-106 | Texts compare by the first letter in which they differ once lowered, a text before what it begins |
| Text.TrimIs | meron-core/src/conversation_page.rs:46 | Trimming takes white space off both ends and nothing else |
| Text.SplitIs | meron-core/src/conversation_page.rs:46 | The pieces of a filter joined again are the filter, and none holds a comma |
| ConversationPage.FingerprintIff | meron-core/src/conversation_page.rs:36-64 | Two views have the same fingerprint input exactly when scope sets, facet sets, trimmed query, namespace and sort agree |
| ConversationPage.KeepFacets | meron-core/src/conversation_page.rs:46-47 | The facets are exactly the trimmed pieces that are neither empty nor `all` |
| ConversationPage.DecodeCursor | meron-core/src/conversation_page.rs:108-119 | A cursor is accepted exactly if it names this view and holds a position with an id, of the kind of key the sort compares; it decodes to that position, and anything else asks for a reload |
| ConversationPage.CursorAcceptedIff | meron-core/src/conversation_page.rs:108-119 | Under an injective hash a cursor a page gave out is accepted exactly for a view that asks for the same rows in the same order, and decodes to the position of that page's last row |
| ConversationPage.PositionLeTotal | meron-core/src/conversation_page.rs:80-106 | Positions are compared by a total, antisymmetric order |
| ConversationPage.PrecedesTransitive | meron-core/src/conversation_page.rs:101-106 | "Shown strictly before" is transitive in either direction |
| ConversationPage.SortAdvances | meron-core/src/conversation_page.rs:152 | Sorting rows at distinct positions shows each of them, strictly advancing |
| ConversationPage.AdvancingUnique | meron-core/src/conversation_page.rs:152 | Rows shown strictly advancing are determined by which rows they are, so an unstable sort has one result |
| ConversationPage.OrderedIsTheRest | meron-core/src/conversation_page.rs:134-152 | What a cursor leaves is every offered row beyond it, none other, in strictly advancing order |
| ConversationPage.CursorDropsAPrefix | meron-core/src/conversation_page.rs:148-163 | The cursor behind the k-th row leaves exactly the rows behind it, so every page strictly shrinks the rest |
| ConversationPage.TraversalAdvances | meron-core/src/conversation_page.rs:123-165 | Over pages of any sizes, whatever changes between them, the positions shown strictly advance from the cursor asked for |
| ConversationPage.UnmovedIsShown | meron-core/src/conversation_page.rs:123-165 | At any point of a traversal a position at which a candidate stands on every page, whatever it carries, has been shown if and only if the traversal has passed it or ended |
| ConversationPage.UnmovedIsShownOnce | meron-core/src/conversation_page.rs:123-165 | Followed to the end, such a position was shown exactly once, with what the candidate carried on one of the pages |
| ConversationPage.ShownIsRequested | meron-core/src/conversation_page.rs:134-151 | Nothing is shown that was not among the candidates of one of the pages |
| ConversationPage.FixedSetTraversal | meron-core/src/conversation_page.rs:123-165 | Over an unchanged set the pages are the sorted list cut to the sum of the limits, and the end comes when that reaches its length |
| ConversationPage.FixedSetTraversalEnds | meron-core/src/conversation_page.rs:123-165 | With positive limits the traversal ends within as many pages as candidates, having shown each of them once in order |
| ConversationPage.FollowIsTraverse | meron-core/src/conversation_page.rs:123-165 | Following the cursors pages give out is the traversal by positions that the other results are about |
| ConversationPage.RepeatedHasMovedOn | meron-core/src/conversation_page.rs:121-122 | What a traversal shows twice stands the second time strictly behind, at another key: only a card that moved ahead of where it was shown repeats |
| ConversationPage.MovedCardIsRepeated | meron-core/src/conversation_page.rs:121-122 | That happens: a card that moves across the cursor is shown twice |
| CachedConversations.BestRepresents | meron-core/src/cached_conversations.rs:121-132 | A card's representative is a matching header with a uid, none of which is newer by (date, uid), for exactly the keys that have one |
| CachedConversations.BestIgnoresOrder | meron-core/src/cached_conversations.rs:121-132 | It does not depend on the order in which the headers came |
| CachedConversations.Representatives | meron-core/src/cached_conversations.rs:121-132 | The loop over the map entries computes those representatives |
| CachedConversations.Candidates | meron-core/src/cached_conversations.rs:108-170 | The loop that takes representatives out of the map gives the specified candidates |
| CachedConversations.OfferedAre | meron-core/src/cached_conversations.rs:139-168 | With one card to a conversation, exactly the awake ones with a representative are offered, none twice |
| CachedConversations.CandidatesAre | meron-core/src/cached_conversations.rs:108-170 | A conversation is offered if and only if it is awake and a message of it matches, dated by the newest that does |
| CachedConversations.ConversationIsOffered | meron-core/src/cached_conversations.rs:121-168 | In the fields themselves: a conversation is offered exactly if it is not put off here and a message of it matches, and tells its newest match's date, sender and uid, and the whole conversation's subject, star and unread count |
| CachedConversations.DirectIs | meron-core/src/mail_model.rs:240-290 | A card's count is the greater of the stored one and its own |
| CachedConversations.CountMessages | meron-core/src/mail_model.rs:186-196 | Counts fetched folder by folder and merged by key alone are those of the last folder that answers for the key |
| CachedConversations.MergedIsOwn | meron-core/src/mail_model.rs:181-196 | They are each card's own if no message number stands in two folders |
| CachedConversations.OwnCountIff | meron-core/src/mail_model.rs:181-196 | In a batch over several folders a message number is given its own count if and only if the last folder that has one for that number has the same |
| CachedConversations.OwnCountOfThread | meron-core/src/store/mod.rs:4298-4319 | Any other conversation always is, since it counts in the whole account |
| CachedConversations.GroupedThreadCards | meron-core/src/mail_model.rs:175-291 | The batch of any cards, with merged counts; without a number in two folders it gives every card what asking for it alone would |
| CachedConversations.LookUp | meron-core/src/cached_conversations.rs:233-235 | Looking up by removal answers in the asked order, and fails if and only if an id is asked twice |
| CachedConversations.EnrichSelected | meron-core/src/cached_conversations.rs:217-235 | Grouping by folder, enriching the groups in any order and looking up is the per-card enrichment in page order; it loses a card if and only if two share an id |
| CachedConversations.SelectedAreDistinct | meron-core/src/cached_conversations.rs:216-224 | What a page selects never shares an id |
| CachedConversations.SameFoldersSameView | meron-core/src/cached_conversations.rs:183-198 | Requests see the same view exactly when they name the same canonical folders, in any order and repetition |
| CachedConversations.PageOfCards | meron-core/src/cached_conversations.rs:174-238 | The whole page: every conversation of every folder in one order, each detailed by itself, the error cases, and never a lost conversation |
| Restore.PlanIsSeparate | restore.go:130-153 | The planned live, staged and aside paths never coincide across moves |
| Restore.PlannableIs | restore.go:130-153 | A new stamp and whole live trees, at the five live and the five aside paths by name |
| Restore.SwappedInHolds | restore.go:136-151 | A completed swap has the ready store and media folders live, no journal files of the old store, and all five old trees under the stamp, path by path |
| Restore.LiveIsFive | restore.go:130-153 | "Every live path" means the store, its two journal files and the two media folders |
| Restore.RefusedIff | restore.go:157-170 | An activation is refused, with nothing touched, exactly if there is a journal, no checked archive is ready, or the journal cannot be written |
| Restore.ReadyIsRemoved | restore.go:185 | Where it works, the ready copy is removed with all that is in it, and nothing else |
| Restore.ForgottenAreGone | restore.go:224-229 | Where that works, no aside copy is left of those forgotten |
| Restore.WentBackIff | restore.go:171-185 | A failed activation that was rolled back left every live path as it was, or absent, if and only if no aside copy was left half-made; with renames that work it always did |
| Restore.LeavesIs | restore.go:84-96 | In the fates of the steps: a copy is left half-made exactly if the rename fails, the copy fails having copied something, and its removal fails without taking that away, unless both stopped at the whole tree |
| Restore.CutAsideIsTaken | restore.go:171-222 | On every disk with a store to swap there is a run in which three steps fail and the activation reports the previous profile back although the rollback replaced the untouched store by part of it |
| Restore.KeepsTracks | restore.go:203-219 | What a rollback stopped anywhere leaves still leads back to the same profile |
| Restore.SwappedGoesBack | restore.go:203-222 | Going back from an activated restore gives exactly the previous profile |
| Restore.MoveAsideDoes | restore.go:84-96 | What each outcome of a rename, or a copy and a removal, leaves at the two paths, and exactly when the target is left half-made |
| Restore.ApplyMoveDoes | restore.go:189-199 | One move: its whole effect, the states it can be cut short in, and exactly when its aside copy is half-made |
| Restore.PutBackDoes | restore.go:205-218 | One move undone: live is what it was, nothing else changed, and stopped anywhere the way back is kept |
| Restore.SwapDoes | restore.go:171-172 | The moves in order, stopped by a failure or a crash: rolling back from there restores everything exactly if no copy is half-made |
| Restore.RollbackDoes | restore.go:203-222 | A completed rollback restores every live path; one stopped anywhere keeps the way back |
| Restore.ActivateDoes | restore.go:156-187 | Every way an activation ends: refused untouched, swapped in, put back, or stopped with a journal that leads back |
| Restore.Disk.MoveAside | restore.go:84-96 | Rename, or copy and remove, in place: the run of the world, and what each outcome, a cleaned-up failure included, leaves |
| Restore.Disk.ApplyMove | restore.go:189-199 | One move in place, and exactly when it leaves its aside copy half-made |
| Restore.Disk.PutBack | restore.go:205-218 | One move undone: live is what it was, and nothing else changed |
| Restore.Disk.RollbackRestore | restore.go:203-222 | Done, every live path is restored and the journal gone; failed or crashed, a later rollback does the same, and no new cut aside copy appears while renames work |
| Restore.Disk.ActivateRestore | restore.go:156-187 | The activation in place is the run of the world; every way it ends, what is live after a completed one path by path, and failure atomicity exactly when no copy is left half-made |
| Restore.Disk.ForgetAsideFolders | restore.go:224-229 | Only aside paths change, and failures to remove them stop nothing |
| Restore.Disk.KeepRestore | restore.go:233-243 | Keeping a restore never changes a live path, crash or not |
| Restore.Disk.RecoverInterruptedRestore | restore.go:247-253 | Only a swap in progress is rolled back; whether it completes or not, what a rollback restores stays the same |
| Restore.Disk.StartAgain | restore.go:247-253 | After any number of starts whose recovery may crash or fail, a disk without a journal holds the original live paths |
| Restore.Disk.ActivateThenStart | restore.go:156-253 | A crash anywhere in the activation, then any number of crashing starts: without a journal the live paths are the original ones, with one the way back to them is whole, and a swap that was completed is |
| AvatarSettle.NextKeepsInv | avatars.go:37-60 | Every atomic operation keeps the invariant of the dirty and running flags |
| AvatarSettle.NeverTwiceAtOnce | avatars.go:34-60 | In every interleaving run is never inside itself, and there are no more runs than requests |
| AvatarSettle.NoLostRequest | avatars.go:53-57 | Once all requesters have returned and no worker is left, dirty is false and a run began after every request |
| AvatarSettle.QuietRunsEnd | avatars.go:46-59 | Without new requests every schedule ends within a bound computed from the state |
| AvatarSettle.EveryRequestIsServed | avatars.go:34-60 | Every schedule after the last request comes to rest, and then every request was served |
| Sidecar.NextKeepsInv | sidecar.go:60-296 | Every step of callers, readers, waiters, stop and restart keeps the invariant of the pending table |
| Sidecar.SendsNeverBlock | sidecar.go:97-108 | In every reachable state the channel of whoever is about to be sent a value has room, also while the mutex is held |
| Sidecar.OneValuePerCall | sidecar.go:202-296 | Over every interleaving, restarts included, a call is sent at most one value |
| Sidecar.AnswersReachTheirCall | sidecar.go:266-279 | An answer that a caller returns names its own id, and no other call ever has that id |
| SidecarAnswers.AnswersSayWhatWasRead | sidecar.go:252-280 | Over every run an answer a caller returns or finds in its channel, result or error, is what the first line said that named its id after the call registered |
| Sidecar.NobodyIsLeftWaiting | sidecar.go:100-108 | Once the processes have ended and nothing is on the way, a waiting caller finds a value without its timer |
| Sidecar.DrainEmptiesTheTable | sidecar.go:97-109 | From the waiter's drain to the next start the table is empty and no call is let in |
| Sidecar.MutexIsReleased | sidecar.go:220-225 | Past marshalling, the holder of the mutex can give it back by steps of its own if and only if it is not a caller whose pipe is full |
| Sidecar.WaiterReleases | sidecar.go:97-109 | A waiter always gives it back alone, within one step more than there are entries |
| Sidecar.StuckUntilThePipeMoves | sidecar.go:281-287 | A caller stuck in its write keeps the mutex, whatever anybody else does, until the process reads or the pipe breaks |
| Sidecar.StuckBlocks | sidecar.go:157-169 | While a caller holds the mutex nobody closes, starts, registers, gives up waiting, ends or has an answer read |
| Sidecar.CancelReleases | sidecar.go:281-289 | A reader that failed can cancel without the mutex, which ends the write and gives the mutex back |
| Sidecar.StuckIsReached | sidecar.go:220-225 | A run in which a second request finds the pipe full |
| SidecarRestart.OnlyItsProcessAnswers | sidecar.go:194-200 | If every start is safe, all a call gets comes from the process it was written to |
| SidecarRestart.SafeStartIff | sidecar.go:60-111 | Whatever came before, a start is followed, until the next, by values from the right processes only for the calls made after it, if and only if it is safe |
| SidecarRestart.RestartsInTurn | sidecar.go:171-200 | Restarts of which one is under way at a time start safely, so every value comes from the right process |
| SidecarRestart.RestartsAtOnce | sidecar.go:173-192 | Two restarts at once: a run to a start that is not safe, because Stop waits only for the process it found |
| SidecarRestart.EarlyStartIsNotSafe | sidecar.go:157-169 | From any state with a process, a start right after Close is not safe and a value from the wrong process can follow |
| Sidecar.Multiplexer.Start | sidecar.go:60-111 | Starting refuses after a failed transport, does nothing when started, and else is the machine's step |
| Sidecar.Multiplexer.Send | sidecar.go:202-226 | Registering and writing, with the marshal and write errors, are the machine's steps; on a full pipe the call stays registered and the mutex held |
| Sidecar.Multiplexer.Written | sidecar.go:222-226 | A write that waited ends as the pipe lets it, and the mutex is free |
| Sidecar.Multiplexer.Leave | sidecar.go:233-237 | A timeout takes exactly its own entry out |
| Sidecar.Multiplexer.TakeLine | sidecar.go:266-279 | A line takes the entry with its id, if there is one, and carries what it says to that call |
| Sidecar.Multiplexer.Fail | sidecar.go:281-295 | A failed reader empties the table and sends each pending call one error, as a run of the machine |
| Sidecar.Multiplexer.EndProcess | sidecar.go:97-109 | The waiter's drain sends each pending call one error and leaves the table empty, as a run of the machine |
| Sidecar.Multiplexer.Close | sidecar.go:157-169 | Closing stops new calls and leaves the pending ones |
| NotifyQuiet.Suppresses | notify_quiet.go:71-85 | A notification is held back exactly inside an interval or an open-ended pause, but for reminders let through |
| NotifyQuiet.QuietEnd | notify_quiet.go:110-124 | The end of quiet is in no interval, and every earlier millisecond from now is in one |
| NotifyQuiet.SuppressedUntil | notify_quiet.go:110-124 | The loop over overlapping, unordered intervals ends and finds that least moment |
| NotifyQuiet.QuietEndFromLater | notify_quiet.go:110-124 | Asked again later within the same quiet, the end is the same |
| NotifyMissed.Union | notify_missed.go:187-201 | The loop with its seen set keeps each identity once and everything without one |
| NotifyMissed.MergeMissedNotices | notify_missed.go:183-250 | The merge of the held notice with a new one, count, cap and days included |
| NotifyMissed.OneIdentity | notify_missed.go:165-175 | Two items are one reminder exactly if they name the same one of the same account, for accounts without a NUL |
| NotifyMissed.NulJoinsTwo | notify_missed.go:174 | With a NUL in an account two reminders may be taken for one |
| NotifyMissed.DistinctCounts | notify_missed.go:187-204 | What is told apart is as many as the pairs of account and key said, and the items without a key |
| NotifyMissed.DetailsAreNewest | notify_missed.go:218-229 | The details are at most twenty, the later starts first, and none is left out that starts later than one kept |
| NotifyMissed.UnkeyedIs | notify_missed.go:205-214 | A notice without keys counts as it says and at least as many as it details |
| NotifyMissed.MergedCountIs | notify_missed.go:246-249 | The count shown is every reminder once, whoever said it how often, and what had no key as said |
| NotifyMissed.DistinctKnows | notify_missed.go:187-201 | Deduplicating loses no identity and adds no item |
| NotifyMissed.DistinctAppends | notify_missed.go:204 | Deduplicating step by step is deduplicating at once |
| NotifyMissed.AddAllKeepsTop | notify_missed.go:226-229 | Cutting to the cap at every step gives the same newest details as cutting at the end |
| NotifyMissed.BoundedMerge | notify_missed.go:183-250 | Merging any sequence of notices is deduplicating, stably sorting and cutting all of it once; the count is distinct keys plus unkeyed, the days are the least and greatest said, if equal keys carry equal times |
| MissedRelease.MissedReminders.Accept | notify_missed.go:93-105 | A notice with reminders is merged into what is held |
| MissedRelease.MissedReminders.Release | notify_missed.go:126-163 | Nothing, a timer at start, a check for the end of quiet, or the notice shown, with the whole new state |
| MissedRelease.ShowsExactlyWhen | notify_missed.go:126-163 | Over every run, whatever the clock does, a step shows the held notice exactly if it is a release after the language was said and a quiet plan noted, or after the limit at start, and the plan pushed last has no pause and no interval around that moment, or lets reminders through |
| MissedRelease.LimitAtStart | notify_missed.go:132-144 | Until then a release only sets the limit at start, half a minute from the first, once |
| MissedRelease.NextKeepsInv | notify_missed.go:93-163 | Every step with a clock that is not set back keeps a wake-up for what is held |
| MissedRelease.NoLostWakeUp | notify_missed.go:124-163 | With nobody about to release, a held notice has the start-up timer, a timer for the current end of quiet, or an open-ended pause |
| MissedRelease.SetBackLosesIff | notify_missed.go:145-158 | Wherever a notice waits for one timer at the end of quiet, a clock set in any way leaves it held with nothing to release it if and only if the plan, asked when the timer fires, holds it back until that same end |
| MissedRelease.SetBackWithinQuiet | notify_missed.go:152-155 | Set back within that quiet, that is if and only if the timer fires before the end |
| MissedRelease.NightIsWaitedFor | notify_missed.go:145-158 | A run to such a state, from which the notice is lost when the clock is set back within the quiet, and shown when it is set back behind it |
| MissedRelease.ClockSetBackLosesTheWakeUp | notify_missed.go:152-155 | So any setting back by no more than the quiet lasted loses the wake-up of a timer due just at its end |
| MissedRelease.NothingSaidIsLost | notify_missed.go:93-163 | Every accepted notice went into exactly one shown notice or is in the held one, each of them the merge of its parts |
| MissedRelease.EveryKeyIsHeldOrShown | notify_missed.go:93-163 | Every identity accepted is named by the held notice or by one that was shown |
| Mbox.WriteMboxEntry | meron-core/src/archive.rs:117-130 | The writer appends the separator, the message quoted once more and a blank line, and leaves what was there |
| Mbox.QuotedOnce | meron-core/src/archive.rs:87-92 | Unquoting a quoted line gives the line, and no quoted line is a separator |
| Mbox.QuotableIs | meron-core/src/archive.rs:121-122 | In bytes: a line is quoted exactly if it is any number of `>` and then `From `, by one `>` more |
| Mbox.SeparatorIs | meron-core/src/archive.rs:119 | In bytes: the line before a message |
| Mbox.ScanCounts | meron-core/src/archive.rs:75-98 | In lines from anywhere every `From ` line starts a message, and nothing else does |
| Mbox.PreambleIsDropped | meron-core/src/archive.rs:83-86 | What stands before the first of them is no message |
| Mbox.LinesOfJoin | meron-core/src/archive.rs:75 | Splitting after newlines finds again the lines that were joined |
| Mbox.CompletedLines | meron-core/src/archive.rs:120-128 | Quoting and then completing the last line is completing and then quoting |
| Mbox.SplitMbox | meron-core/src/archive.rs:72-112 | The parser's loop is the specified scan, trimming and dropping of empty messages |
| Mbox.TrimSeparator | meron-core/src/archive.rs:102-107 | The popping loop is the specified trimming |
| Mbox.TrimmedIs | meron-core/src/archive.rs:102-107 | Trimming drops blank lines from the end and nothing else |
| Mbox.CanonicalIs | meron-core/src/archive.rs:102-128 | The canonical form is the message with its last newline and without surplus blank lines of one kind at the end, and is its own canonical form; exactly the messages of that form are unchanged |
| Mbox.CanonicalFormIs | meron-core/src/archive.rs:102 | In bytes: which messages are canonical |
| Mbox.MboxRoundTrip | meron-core/src/archive.rs:114-116 | Splitting any list of written entries gives their canonical forms, in order |
| Archive.FreeUidIsFresh | meron-core/src/archive.rs:165-172 | The next uid is behind all used ones, and unused exactly while the uids last |
| Archive.StoredAdds | meron-core/src/archive.rs:176-222 | Storing adds one message and replaces none |
| Archive.LocalSession.NextUid | meron-core/src/archive.rs:165-172 | The two maxima and one more, cut to 32 bits |
| Archive.LocalSession.StoreMessage | meron-core/src/archive.rs:176-222 | Both tables after storing |
| Archive.LocalSession.RawForCopy | meron-core/src/archive.rs:428-445 | The messages that are there, in list order, with the flags of their rows, read and not starred without one |
| Archive.LocalSession.CopyWithin | meron-core/src/archive.rs:455-461 | Copying stores each listed message again |
| Archive.LocalSession.Expunge | meron-core/src/archive.rs:470-480 | Exactly the listed messages go from both tables |
| Archive.LocalSession.MoveToFolder | meron-core/src/archive.rs:465-468 | A move is that copy and then that expunging |
| Archive.ListedCopiesAreTheBag | meron-core/src/archive.rs:428-445 | The copies are the listed messages, each once, if and only if none is listed twice |
| Archive.CopyAdds | meron-core/src/archive.rs:455-461 | A copy touches no message and adds exactly the listed ones if and only if none is listed twice |
| Archive.MoveConserves | meron-core/src/archive.rs:465-468 | A move conserves the multiset of bytes and flags if and only if the copies that are not expunged again are the listed messages |
| Archive.MoveBetweenConserves | meron-core/src/archive.rs:465-468 | Between two folders: if and only if no message is listed twice |
| Archive.MoveWithinConserves | meron-core/src/archive.rs:465-468 | Within one folder, messages listed once: if and only if no uid the copies are given is on the list |
| Archive.MoveDoubles | meron-core/src/archive.rs:465-468 | A uid listed twice is doubled |
| Archive.MoveLoses | meron-core/src/archive.rs:465-468 | Moved onto its own folder, a message is lost if the list holds the uid it is given |
| Archive.ImportAdds | meron-core/src/archive.rs:227-260 | An import adds exactly the messages that are not skipped and not known, read and unstarred, while the uids last |
| Archive.ImportedAreRead | meron-core/src/archive.rs:256 | What an import takes in is read and not starred |
| Archive.CountsOne | meron-core/src/archive.rs:246-258 | Each message counts once: skipped if over 100 MiB or no message, a duplicate if the folder or a message before it has its id, imported otherwise |
| Archive.CountAgain | meron-core/src/archive.rs:246-256 | Counting again with all ids known imports only what has no id |
| Archive.ImportingTwice | meron-core/src/archive.rs:224-260 | Importing the same messages again imports only those without an id |
| Archive.LocalSession.Import | meron-core/src/archive.rs:227-260 | The summary and the tables after an import; an empty name is refused |
| Archive.LocalSession.Preview | meron-core/src/archive.rs:283-306 | The summary a preview counts, nothing stored |
| Archive.LocalSession.PreviewThenImport | meron-core/src/archive.rs:281-306 | For a trimmed folder name the preview is the summary the import then gives |
| MailCheck.NormalizeIs | meron-core/src/mail_check.rs:37-46 | Normalising gives an interval within bounds, the nearest one, keeps those within, and keeps "manual only" apart |
| MailCheck.NormalizeIn | meron-core/src/mail_check.rs:23-46 | In numbers: 0 stays, up to 5 gives 5, from 1440 on gives 1440, all between stays |
| MailCheck.ThresholdIs | meron-core/src/mail_check.rs:147 | The saturated product is the interval in seconds exactly while that fits |
| MailCheck.Schedule.See | meron-core/src/mail_check.rs:129-136 | An account is noted, and its time never lies ahead of the clock |
| MailCheck.Schedule.IsDue | meron-core/src/mail_check.rs:142-148 | When an account is due |
| MailCheck.Schedule.Start | meron-core/src/mail_check.rs:151-154 | A start is noted with its time |
| MailCheck.Schedule.Finish | meron-core/src/mail_check.rs:156-158 | Finishing forgets only that the check runs |
| MailCheck.Schedule.Forget | meron-core/src/mail_check.rs:162-166 | A manual account is forgotten unless its check runs |
| MailCheck.Schedule.Retain | meron-core/src/mail_check.rs:169-172 | Accounts that are gone are forgotten |
| MailCheck.Schedule.PlanTick | meron-core/src/mail_check.rs:190-217 | A tick's loop with its refusals gives the specified schedule, starts and unreadable intervals |
| MailCheck.OneStartPerTick | meron-core/src/mail_check.rs:190-217 | A tick starts no account twice |
| MailCheck.StartedWasAsked | meron-core/src/mail_check.rs:195-215 | A tick starts no local, paused, unreadable or manual account, and none whose check runs |
| MailCheck.NeverStartedWhileRunning | meron-core/src/mail_check.rs:138-158 | Between two starts of an account that stays listed its first check has finished |
| MailCheck.StartsAreAnIntervalApart | meron-core/src/mail_check.rs:126-172 | While the clock is not set back behind the first, two starts are the interval asked for at the second apart, which is not "manual only", despite pauses, manual periods, removal and adding again |
| MailCheck.StartsWhen | meron-core/src/mail_check.rs:190-217 | A tick starts an account that asks for it exactly when it is not running, was seen, and its interval has passed |
| MailCheck.DelayedAtMostOneInterval | meron-core/src/mail_check.rs:131-135 | Whatever the clock did before, one interval after a tick that saw the account it has been started, or its check has been running since |
| MailCheck.FoldersToCheckAre | meron-core/src/mail_check.rs:93-114 | Nothing for the local archive, the Inbox for POP3, and else exactly the known, listed, not excluded and, for IMAP, not watched folders are checked |
| MailCheck.FoldersToCheckInOrder | meron-core/src/mail_check.rs:93-114 | Each of them once, in the order in which they are known |
| Base64.BytesOfSextets | mailjson.go:186 | The four sextets of three bytes give back the bytes, in bits |
| Base64.RoundTrip | mailjson.go:213-216 | Decoding what was encoded gives every byte string back, padded or not |
| Base64.Vectors | internal/obf/obf.go:28 | Test vectors of RFC 4648, and the letters in which the two alphabets differ |
| Base64.LineEndsDoNotCount | mailjson.go:186 | Line ends in what is decoded do not count, wherever they stand |
| Base64.UrlFormHasOnlyLetters | mailjson.go:214 | The URL form has no byte outside its alphabet |
| Obf.Xor | internal/obf/obf.go:44-48 | The loop in place gives each byte of the array XORed with its byte of the pad |
| Obf.PaddedTwice | internal/obf/obf.go:44-48 | Applying the pad twice changes nothing |
| Obf.Encode | internal/obf/obf.go:25-29 | A value becomes its blob |
| Obf.Decode | internal/obf/obf.go:32-42 | A blob becomes its value, a malformed or empty one nothing |
| Obf.RoundTrip | internal/obf/obf.go:31-42 | Decoding an encoded value gives it back, the empty one included |
| Obf.OneBlob | internal/obf/obf.go:17-29 | One blob in full |
| ThreadId.IndexOf | mailjson.go:180 | The first separator |
| ThreadId.LastIndexOf | mailjson.go:181 | The last separator |
| ThreadId.FormatParses | mailjson.go:179-216 | A thread id says again its account, canonical folder and key if and only if the account is not empty and has no `#`; the folder and the key may be anything |
| ThreadId.FormatIsInjective | mailjson.go:213-216 | So ids are equal exactly when account, canonical folder and key are |
| ThreadId.OneId | mailjson.go:213-216 | One id in full |
| ThreadId.CanonIsCanonical | mailjson.go:206-211 | Canonical folders stay as they are, and which ones those are |
| ThreadId.NumberOfDecimal | mailjson.go:192 | A number written in digits is read as that number |
| ThreadId.UidsAreSmall | mailjson.go:192 | Of numbers exactly those of 32 bits are read |
| ThreadId.FormatParsedParses | mailjson.go:218-223 | What was parsed formats and parses to the same thread if and only if it is named by a key or a number, not both |
| ThreadId.MovedThreadIsTheSame | mailjson.go:218-236 | A parsed thread keeps account, key and number in any folder, and moving it there again changes nothing |
| ThreadId.CoreAgrees | meron-core/src/mail_model.rs:127-133 | The core and the bridge write the same id exactly for keys that do not start with `uid:` |
| ThreadId.CoreNumberParses | meron-core/src/mail_model.rs:127-130 | The bridge reads the core's id of a message number as that number |
| Numerals.ValueOfDigits | mailjson.go:220 | Decimal digits denote the number they are written for |
| Profiles.BaseIsCanonical | profiles.go:148-164 | The base of any name has 1 to 30 letters, digits and single inner dashes, and is not the default's id |
| Profiles.OwnBase | profiles.go:148-164 | A name is its own base exactly when it has that shape |
| Profiles.CapitalsAreSmall | profiles.go:149-158 | Capitals count as the small letters |
| Profiles.OthersAreDashes | profiles.go:155-157 | Everything but letters and digits counts as a dash |
| Profiles.NamesWithoutABase | profiles.go:162-164 | Without a base of its own a name gets `profile` |
| Profiles.AttemptIsInjective | profiles.go:169-172 | The ids tried are all different |
| Profiles.NewProfileId | profiles.go:147-174 | The search ends, by the pigeonhole, with the first id tried that is not taken |
| Profiles.NewIdIsUsable | profiles.go:146-174 | It is not taken, is not the default's, and among fewer than a billion profiles matches the pattern for ids |
| Profiles.NewProfileOpens | profiles.go:79-95 | Asked for by its id the new profile is selected once it is listed, and asking for anything else selects what it did before |

## Left out

- ConversationPage.DecodeCursor: the text of a cursor (prefix, base64, JSON) is either unreadable or stands for its fields; the fingerprint's hash is a parameter, injective where a result needs it.
- CachedConversations.Candidates: reading headers in chunks, card identity, grouping into cards and draft keys come from the store and are inputs; so is how names are formed.
- CachedConversations.PageOfCards: failing queries, the transaction, the folder states and the JSON of a card beside its counts and one further fact.
- CachedConversations.BestIgnoresOrder: takes one header to a uid, as the store has within a folder.
- Restore.Disk.ActivateRestore: takes aside paths that are absent and whole live trees, as a fresh stamp gives; a reused stamp within the same second is not modelled.
- Restore.Disk.StartAgain: takes renames within a volume to work, on which the source relies; a crash in the middle of a copy aside or back is not followed further.
- Restore.Disk.KeepRestore: what happens when a restore is kept after an undo of it crashed is not claimed; running the undo again is Restore.Disk.RollbackRestore.
- Restore: the journal is written whole or not at all, as its private write and rename do; empty aside folders are not modelled.
- Sidecar.OneValuePerCall: ids are integers, not 64-bit numbers read from JSON floats; events, stderr and the scanner's buffer are left out.
- Sidecar.Multiplexer.Send: a pipe's room is counted in requests, and partial writes are not modelled.
- SidecarRestart.RestartsInTurn: Stop and Restart are steps of the machine and not methods, since they wait for other goroutines in between.
- NotifyQuiet.SuppressedUntil: reading the plan from JSON numbers is left out; intervals are whole milliseconds.
- NotifyMissed.BoundedMerge: counts and times are integers, not floats.
- NotifyMissed.OneIdentity: takes accounts without a NUL, which no account id has; what happens with one is NotifyMissed.NulJoinsTwo.
- MissedRelease.NoLostWakeUp: confirming to the core that a notice was shown, and the text of the notification, are left out.
- Mbox.WriteMboxEntry: the date of the separator is a parameter without a newline; write errors are left out.
- Archive.StoredAdds: parsing, media files and thread keys are left out; Message-IDs are ASCII, so that the two lower-casings agree; folder rows are not modelled.
- Archive.MoveConserves: takes uids below 2^32 for all that is copied; beyond that the uid wraps and may replace.
- MailCheck.NeverStartedWhileRunning: nothing is claimed for an account removed and added again while its check runs; that check is forgotten by design of `retain`.
- MailCheck.FoldersToCheckAre: which names are trash, junk or all mail is an input; the timeout and the check itself are left out.
- MailCheck.DelayedAtMostOneInterval: takes the account listed once on a tick and the interval within bounds, as the core's account map and the reading of preferences give.
- Base64.RoundTrip: models Go's non-strict decoder, which ignores line ends and surplus bits; which malformed strings decode is not characterised further.
- Profiles.NewProfileId: the name is a sequence of characters; invalid UTF-8 is mapped to dashes by the source and not distinguished here.
- AvatarSettle: the delay is a step; what a run does is left out.
- backup.rs, update.go, ffi.rs, backend.rs, assistant.rs, accounts.go: table merging, the updater, foreign calls and protocol dispatch are not modelled; what could be claimed there is branch by branch.
- The user interface, notification delivery, tray, OAuth, HTTP, cryptography, MIME and the SQLite engine are not modelled.
