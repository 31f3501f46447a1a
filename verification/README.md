# Verified model of notifiapp-protocol-core

This project models the incremental-sync pipeline of `notifiapp-protocol-core` and its session layer, and proves what
they are for.

A server state is compared with its predecessor, the difference becomes a patch, patches of one entity merge while they
wait in a conflating queue, and a client applies what it pops. The model covers every type the pipeline can be used
with: a `Schema` is a leaf, a derived record with key, immutable and mutable fields, or a list; values, patches and the
four operations on them (diff, apply, merge, full patch) are defined once for all schemas.

The files, in reading order:

| file | content |
|---|---|
| `Prelude.dfy`, `Uuids.dfy` | options, references, UUIDs with their hyphenated text |
| `Schemas.dfy` | types and values as data; equivalence of two values; stability of keys |
| `Patches.dfy` | what diff, apply, merge and full patch compute |
| `Resolve.dfy` | the same operations as loops and in-place updates, proved to compute those functions |
| `MergeLaws.dfy` | merging is composition, associative, with a unit; full patches |
| `KeyedLists.dfy` | lists with distinct keys, read as maps |
| `Operations.dfy` | which operations a list diff consists of, in which order, and what one does position by position |
| `KeyedOps.dfy` | what operations by key do to the elements of each key, in any list |
| `Commuting.dfy` | when the order of two patches is immaterial |
| `Sync.dfy` | the exact result of applying a diff to a replica |
| `EmptyDiffs.dfy` | when a diff is empty, and when that means identical values |
| `NoDrift.dfy` | no drift over whole runs |
| `RoundTrips.dfy` | when applying a diff to the old value gives the new value itself |
| `Duplicates.dfy` | keyed lists whose keys are not distinct |
| `ConflatedQueue.dfy` | the queue, and its refinement of a plain FIFO |
| `Convergence.dfy` | server, queue and client together |
| `Envelope.dfy`, `Transparency.dfy` | one queue shared by many subscriptions, and exactly when that is as good as one queue each |
| `SharedConvergence.dfy` | many subscriptions converge over one shared queue |
| `Subscriptions.dfy` | the subscription tracker and a subscriber that replays its deltas |
| `Session.dfy`, `Auth.dfy` | the session manager, and clients that log in and resume against it |
| `Endpoints.dfy` | the endpoint manager |

Two values are *equivalent* if their keys and mutable content agree: immutable fields are ignored, keyed lists are
compared as maps from key to element, other lists position by position. A change is *stable* if every record that the
diff matches with its old self keeps its key fields. Well-formed values have distinct keys in every keyed list. What
happens otherwise is in `Duplicates.dfy`: new elements of one key overwrite each other or mix, and a replica that holds
several elements of a key keeps all but the first as they are. `Duplicates.DuplicateKeys` says what a replica ends with
under each key, `Duplicates.ArriveExactly` when that is as many elements as the new list has.

Things the reader of the source should know:

- The comment on `Diffable::diff` (src/diff.rs:20-21) says `None` means the objects are identical. The code answers `None`
  exactly if no mutable leaf and no mutable list differs, through nested records (`EmptyDiffs.EmptyExactly`). So a changed
  key or immutable field of a record goes unnoticed, while a list whose elements differ only in immutable fields counts
  as changed, because lists are compared as whole values (`EmptyDiffs.ImmutableInListNoticed`). The comment is right for
  exactly the types that have neither kind of field outside lists (`EmptyDiffs.DocumentedExactly`).
- A derived diff sends the old key, so a record whose key changes does not arrive; `NoDrift.OneStep` proves that this is
  the only way a replica can miss a change.
- The repository's README marks key fields with `required`, the macro recognises only `key` (macros/src/lib.rs:212). The
  model follows the macro.
- The network simulation in `tests/conflation_simulation.rs` puts a popped patch back when a client goes offline. The
  client then ends with the same states exactly if no patch of the entity was queued meanwhile, or the two patches agree
  on whatever both set; it ends in step, up to equivalence, exactly if the two set equivalent content
  (`Convergence.PutBackExactly`). So two inserts into a keyed list may change places (`Convergence.PutBackReorders`),
  while an older value of one field undoes the newer one (`Convergence.PutBackLosesNewer`).
- `EventEnvelope::conflation_key` drops the identifier of an entity key and does not use a unique key. The shared queue
  is as good as separate queues exactly if, within each subscription, no two different keys have one text and no unique
  key is pushed twice (`Transparency.TransparentExactly`). Two entities of one kind do have one text
  (`Transparency.EntityKeysConflate`).
- A client whose reply to a successful resumption is lost keeps a token that is used up; it meets a conflict exactly
  while its session lives and the server remembers the token (`Auth.ConflictExactly`).
- A subscriber cannot use the full patch that a single update of an untracked item sends; it misses exactly those items
  (`Subscriptions.SubscriberMirrors`).

Clocks and randomness are parameters: an operation receives `now` once, and newly drawn UUIDs and tokens are arguments
required never to have been issued before. Time need not advance.

## Model

| member | source | states |
|---|---|---|
| Resolve.ResolveDiff | src/diff.rs:264-329 | the diff as the code builds it, for every schema, is the function all laws are about |
| Resolve.DiffRecord | macros/src/lib.rs:54-93 | the generated `diff`: old key, no immutable field, `None` unless a mutable field changed |
| Resolve.DiffById | src/diff.rs:271-296 | the two loops over keyed lists push updates and inserts in new order, then removals in old order |
| Resolve.DiffByIndex | src/diff.rs:297-326 | the index loops push an update per differing common position, then ascending tail inserts or descending tail removals |
| Resolve.FindPosition | src/diff.rs:341-342 | the search by key finds the first match |
| Resolve.RemovesFirst | src/diff.rs:317-325 | removals of a tail start with the highest index |
| Resolve.ResolveApply | src/diff.rs:331-390 | applying in place changes the target into what the pure function says, at any nesting |
| Resolve.ApplyPatch | macros/src/lib.rs:95-112 | the generated field-by-field `apply_patch` does too, and leaves immutable fields alone |
| Resolve.ApplyAll | src/diff.rs:337-388 | the operations of a list patch take effect one after the other |
| Resolve.ApplyOne | src/diff.rs:338-387 | one operation in place, with the code's fallbacks for unknown keys and out-of-range indices |
| Resolve.ResolveMerge | src/diff.rs:396-419 | merging in place, including operations applied to an earlier full list |
| Resolve.MergePatch | macros/src/lib.rs:135-152 | the generated field-by-field `merge_patch` |
| Schemas.EquivalentSym | src/diff.rs:271-296 | equivalence, the meaning of being in sync, is symmetric |
| Schemas.EquivalentTrans | src/diff.rs:271-296 | and transitive, through nested records and both kinds of lists |
| MergeLaws.ApplyOpsAppend | src/diff.rs:411-415 | appended operation lists apply as one list after the other |
| MergeLaws.MergeIsComposition | src/diff.rs:396-419 | for any two patches and any target, applying the merge is applying both in turn |
| MergeLaws.MergeAssociative | src/diff.rs:396-419 | any grouping of merges gives the identical patch, as data |
| MergeLaws.EmptyPatchIsUnit | src/diff.rs:98-106 | `None` and `NoChange` are two-sided units of merging, change nothing, and are exactly the patches that are not `is_some` |
| MergeLaws.MergeKeepsType | macros/src/lib.rs:136-152 | merging stays in the patch type, sends no immutable field that neither patch sent, and is a change iff one of the two is |
| MergeLaws.MergedSlots | macros/src/lib.rs:136-152 | a merged record patch has the later key and the earlier content of each immutable slot |
| MergeLaws.DiffOfType | macros/src/lib.rs:54-72 | diffs are in the patch type and send no immutable field of any record they patch |
| MergeLaws.FullPatchOverlays | macros/src/lib.rs:114-133 | a full patch gives any target the source's keys and mutable content over its own immutable fields, hence an equivalent of the source |
| MergeLaws.FullPatchAbsorbs | src/diff.rs:396-401 | whatever was merged before a full patch has no effect |
| Commuting.CommuteExactly | macros/src/lib.rs:95-112 | for any type, target and two patches: both orders give the same value iff whatever both set they set to the same value |
| Commuting.EquivalentExactly | macros/src/lib.rs:95-112 | both orders give equivalent values iff whatever both set they set to equivalent content |
| Commuting.OpsCompatibleExactly | src/diff.rs:337-388 | two lists of operations on a keyed list, as diffs make them, are compatible iff the elements come out equivalent under each key that both name, hence always if they name none in common |
| Commuting.AgreeAnywhere | macros/src/lib.rs:95-112 | for types without lists agreement can be read off the two patches |
| KeyedLists.ApplyRemovals | src/diff.rs:291-295 | the removal operations drop exactly the keys that the new list lacks, keeping the order of the rest |
| Operations.SentByIndex | src/diff.rs:297-326 | a diff by index contains exactly an update per differing common position, an insert per new and a removal per surplus position |
| Operations.OrderByIndex | src/diff.rs:297-326 | in ascending order, the removals descending, each once |
| Operations.CountByIndex | src/diff.rs:297-326 | so it has as many operations as differing common positions plus the difference of the lengths |
| Operations.SentByKey | src/diff.rs:271-296 | a diff by key contains exactly an update per changed, an insert per unknown and a removal per vanished element |
| Operations.OrderByKey | src/diff.rs:271-296 | for distinct keys in the order of the new list, then the removals in the order of the old one |
| Operations.CountByKey | src/diff.rs:271-296 | one operation for each new or changed element and one for each that is gone |
| Operations.InsertMakesRoom | src/diff.rs:339-355 | an insert by index shifts what follows, anywhere in the list; beyond the end or by an unknown key it appends |
| Operations.ReplacesOne | src/diff.rs:340-383 | an insert by a known key or an update replaces one element and moves none |
| Operations.RemoveClosesGap | src/diff.rs:357-370 | a removal shifts what follows, anywhere in the list |
| Operations.InsertRemoveUndo | src/diff.rs:339-370 | by index an insert and a removal undo each other |
| KeyedOps.ApplyOpsByKey | src/diff.rs:337-388 | in any keyed list, duplicate keys or not, operations change the elements of the keys they name only, and of each key the first element |
| Sync.DiffOfSame | src/diff.rs:264-267 | the diff of a value with itself is empty |
| Sync.ApplyDiff | src/diff.rs:264-390 | the exact value of any replica after the diff, said without patches: own order and immutable fields kept, survivors synced, new elements appended |
| Sync.ApplyDiffById | src/diff.rs:271-296 | that result for keyed lists, from updates, inserts and removals together |
| Sync.ApplyDiffByIndex | src/diff.rs:297-325 | that result for lists by index, of any two lengths |
| NoDrift.SyncedReaches | src/diff.rs:264-390 | the synced value is well formed, and equivalent to the new state iff keys were stable |
| NoDrift.FindSynced | src/diff.rs:271-296 | the synced keyed list as a map: removed keys gone, surviving ones synced, new ones as sent |
| NoDrift.OneStep | macros/src/lib.rs:54-112 | a replica that applies the diff of a change is a replica of the new state exactly when the change kept keys stable |
| NoDrift.WholeRun | src/diff.rs:264-390 | no drift over any history of stable changes, although the replica differs in list order and immutable fields |
| EmptyDiffs.EmptyExactly | macros/src/lib.rs:74-93 | for any two values: a diff is empty iff no mutable leaf and no mutable list differs, through nested records |
| EmptyDiffs.IdenticalExactly | src/diff.rs:20-21 | two values are identical iff their diff is empty and their key and immutable fields agree |
| EmptyDiffs.DocumentedExactly | src/diff.rs:20-21 | "`None` if identical" holds on all values of a type iff the type has no key or immutable field outside lists |
| EmptyDiffs.KeyChangeUnnoticed | macros/src/lib.rs:59-62 | an input on which it fails: a changed key is not reported, although the values are not equivalent |
| EmptyDiffs.ImmutableChangeUnnoticed | macros/src/lib.rs:64-66 | an input on which it fails: a changed immutable field is not reported |
| EmptyDiffs.ImmutableInListNoticed | src/diff.rs:265-282 | the other way: a changed immutable field of a list element is reported, by a patch that changes nothing |
| NoDrift.EmptyDiff | macros/src/lib.rs:74-93 | the diff is empty iff nothing it compares differs, and then the states are equivalent iff keys were stable |
| RoundTrips.IndexedRoundTrip | src/diff.rs:297-383 | a list by index becomes the new list exactly when its common elements round-trip, whatever the lengths |
| RoundTrips.EquivalentIsEqual | src/diff.rs:297-325 | without immutable fields and keyed lists, equivalence is equality |
| RoundTrips.ExactRoundTrip | src/diff.rs:264-390 | such values, lists of lists among them, become the new value itself exactly when keys were stable |
| RoundTrips.KeyedRoundTrip | src/diff.rs:271-348 | a keyed list becomes its survivors in old order and then the new elements; it equals the new list iff the keys already come in that order |
| RoundTrips.PureReorder | src/diff.rs:223-225 | a diff without operations, which still counts as a change, is exactly a reorder of equal elements |
| Duplicates.DuplicateKeys | src/diff.rs:271-348 | for any replica, old and new keyed list, without uniqueness: the elements the replica ends with under each key; the first is the last one sent or is patched by the diff to each new element in turn, the others stay, and as many go as the old list had if the key is gone |
| Duplicates.Multiplicity | src/diff.rs:271-348 | how many elements of each key a replica that has the keys of the old list ends with |
| Duplicates.ArriveExactly | src/diff.rs:271-348 | every key arrives with the multiplicity of the new list iff the replica already had that many, or none and one is new, and had no more of a removed key than the old list |
| Duplicates.DistinctReplica | src/diff.rs:271-348 | a replica with distinct keys keeps distinct keys, and gets those of the new list, whatever the two lists |
| Duplicates.LostExactly | src/diff.rs:271-348 | such a replica ends with one element per key: as many as the new list iff the new list has distinct keys |
| Duplicates.DuplicateKeysLoseElements | src/diff.rs:340-348 | an input: of two new elements with one key only the second arrives |
| Duplicates.DuplicateKeysMix | src/diff.rs:371-376 | an input: two changes of one known element arrive as a mixture that is neither |
| Duplicates.StaleElementStays | src/diff.rs:371-376 | an input: a copy of a list with a duplicate key keeps the second element although the new list has one |
| Queues.ConflatedQueue.Push | src/conflated_queue.rs:55-73 | pushing merges, overwrites in place or appends, as the function of the old state says |
| Queues.ConflatedQueue.Pop | src/conflated_queue.rs:76-83 | the popping loop |
| Queues.ConflatedQueue.IsEmpty | src/conflated_queue.rs:86-88 | empty iff nothing will be popped |
| Queues.ConflatedQueue.Len | src/conflated_queue.rs:91-93 | the number of messages that will be popped |
| Queues.ConflatedQueue.Clear | src/conflated_queue.rs:96-99 | nothing waits afterwards |
| Queues.PopTakesHead | src/conflated_queue.rs:76-83 | in a valid queue `pop` never skips: it returns the head and moves nothing else |
| Queues.PopSkips | src/conflated_queue.rs:76-83 | in any queue, even one that is not valid, `pop` skips exactly the keys without a message |
| Queues.SizesAgree | src/conflated_queue.rs:41-42 | as many messages as keys in order |
| Queues.NoOvertaking | src/conflated_queue.rs:33-38 | a key at position i is returned by exactly the (i+1)-th following pop, whatever is pushed meanwhile |
| Queues.PushAppends | src/conflated_queue.rs:55-73 | merging in place has the effect of appending, for whoever applies the queue in order |
| Queues.RefinesFifo | src/conflated_queue.rs:55-83 | at every point of every run, popped then queued messages have the effect of all pushed messages in push order |
| Queues.PutBackUnqueued | tests/conflation_simulation.rs:220-240 | putting a popped message back is harmless while nothing newer of its key waits |
| Queues.PutBackExactly | tests/conflation_simulation.rs:220-240 | if something newer waits, it gives the same state iff the two commute on the state that the other waiting messages lead to |
| Convergence.PatchesAreLawful | tests/diff_tests.rs:304-322 | entity patches merged by `merge_patch` satisfy the law conflation asks for, for every schema |
| Convergence.ReceiveDiff | tests/conflation_simulation.rs:137-148 | a client that receives the diff of one stable change of one entity mirrors the server again |
| Convergence.Converges | tests/conflation_simulation.rs:282-294 | after any interleaving of changes of many entities and deliveries, an empty queue means the client mirrors the server |
| Convergence.PutBackExactly | tests/conflation_simulation.rs:220-240 | for entity patches: the same states iff no patch of the entity waits or the waiting one and the one put back agree; equivalent states iff none waits or they are compatible |
| Convergence.PutBackReaches | tests/conflation_simulation.rs:282-294 | if applying in time would bring the client in step with the server, putting back does iff none waits or they are compatible |
| Convergence.PutBackLosesNewer | tests/conflation_simulation.rs:236-239 | an input: a patch put back behind a newer one of the same field undoes it, the client ends with the older value |
| Convergence.PutBackReorders | tests/conflation_simulation.rs:236-239 | an input: two inserts into a keyed list change places, which is a different list and an equivalent one |
| Uuids.TextInjective | src/envelope.rs:69-72 | the text of a UUID determines it |
| Uuids.TextDigits | src/envelope.rs:69-72 | the text is two hexadecimal digits per byte, hyphenated 8-4-4-4-12 |
| Envelopes.KeyTextInjective | src/envelope.rs:69-84 | subscription and inner text can be read back from an envelope key, `global` included |
| Envelopes.KeyTextReads | src/envelope.rs:69-84 | an envelope key is the subscription's text or `global`, an underscore, and the inner text |
| Envelopes.MergedEnvelope | src/envelope.rs:87-99 | merging always gives an envelope of the newer one's subscription, with the merged event or else the newer one |
| Envelopes.SimulatedRun | src/envelope.rs:67-99 | for keys that their text determines, the shared queue, looked at from one subscription, is in every run that subscription's own queue with encoded keys |
| Transparency.Transparent | src/envelope.rs:67-99 | without clashing keys each subscription gets, and still has waiting, exactly what a separate queue fed only its events would give it, at every point of every run |
| Transparency.TransparentExactly | src/envelope.rs:67-84 | given any pushes: all runs of them are transparent for all subscriptions iff no two of one subscription have different keys of one text or the same unique key |
| Transparency.CustomKeysTransparent | src/envelope.rs:75-84 | runs whose events have custom keys or none are transparent |
| Transparency.SharedTextConflates | src/envelope.rs:75-84 | an input: two keys with one text, one message is kept instead of two |
| Transparency.EntityKeysConflate | src/envelope.rs:77 | an input: events of two entities of one kind share a key and conflate |
| Transparency.UniqueKeySplits | src/envelope.rs:76 | an input: two events with one unique key, two messages are kept instead of one |
| SharedConvergence.FollowsHistory | src/envelope.rs:67-99 | the shared pipeline seen from one subscription is a pipeline with its own queue |
| SharedConvergence.AllConverge | src/envelope.rs:67-99 | over any history, for keys that their text determines, a subscription none of whose events waits has a client that mirrors its server states |
| SharedConvergence.CustomKeysConverge | src/envelope.rs:75-84 | in particular for custom keys with distinct names |
| SharedConvergence.EntityKeysDiverge | src/envelope.rs:77 | an input: with entity keys, when two entities of one kind change, the client applies the second one's patch to the first entity and none to the second, and nothing waits |
| Subscriptions.SubscriptionTracker.constructor | src/subscriptions.rs:83-89 | the initial cache holds the last item per key |
| Subscriptions.SubscriptionTracker.UpdateList | src/subscriptions.rs:92-117 | the loop over the list; removed keys in any order |
| Subscriptions.SubscriptionTracker.UpdateSingle | src/subscriptions.rs:120-133 | diff, store only if changed, full patch if untracked |
| Subscriptions.SingleExactly | src/subscriptions.rs:120-133 | the answer is empty iff the item was tracked and nothing a diff compares changed; an untracked item is answered by a full patch of its key and mutable content, a tracked one by a diff that brings replicas to it iff keys were kept; only an unchanged item is not stored |
| Subscriptions.SubscriptionTracker.Remove | src/subscriptions.rs:135-137 | removal, and whether the key was there |
| Subscriptions.CacheKeys | src/subscriptions.rs:93-110 | the new cache is the last item per key; what is left of the old one occurs nowhere in the list |
| Subscriptions.DeltaExact | src/subscriptions.rs:97-109 | for distinct keys exactly the unknown items are added and exactly the changed ones sent as diffs |
| Subscriptions.DeltaCount | src/subscriptions.rs:97-109 | and each of them once |
| Subscriptions.DeltaOrder | src/subscriptions.rs:97-109 | in the order of the list |
| Subscriptions.ReplayedEntry | src/subscriptions.rs:92-117 | the replayed replica under one key, for lists with duplicates too |
| Subscriptions.DeltaReproducesCache | src/subscriptions.rs:92-117 | replaying a delta on any replica of the old cache, whatever keys it missed, mirrors the new cache exactly when every diffed item kept its keys |
| Subscriptions.SubscriberMirrors | src/subscriptions.rs:92-137 | over every run of list updates, single updates and removals the subscriber mirrors the cache but for the items it missed, hence all of it iff it missed none |
| Subscriptions.NothingMissed | src/subscriptions.rs:120-133 | it misses none if single updates are of tracked items |
| Sessions.SessionManager.CreateSession | src/session.rs:143-158 | the new session in both maps |
| Sessions.SessionManager.ResumeSession | src/session.rs:161-216 | conflict, unknown, expired and rotation, on all three maps |
| Sessions.ResumeAnswers | src/session.rs:161-216 | which answer a resumption gives: conflict iff the token was used up, the rotated session as stored afterwards iff it lives, expired iff it is gone, not found otherwise |
| Sessions.SessionManager.ValidateAndTouch | src/session.rs:219-253 | validation without rotation |
| Sessions.ValidateAnswers | src/session.rs:219-253 | which answer a validation gives: the session as stored afterwards iff its token was active and it lives, expired iff the token was active and the session is gone, which is iff it was idle for its whole time to live; otherwise not found |
| Sessions.SessionManager.UpdateLastSeen | src/session.rs:273-297 | a sign of life |
| Sessions.SessionManager.TerminateSession | src/session.rs:300-305 | removal of one session, its token and its used tokens |
| Sessions.SessionManager.TerminateAllForUser | src/session.rs:308-322 | removal of all sessions of a user, in whatever order they are found |
| Sessions.SessionManager.Cleanup | src/session.rs:325-342 | removal of expired used tokens and idle sessions |
| Sessions.WithoutMore | src/session.rs:319-321 | removing sessions one by one comes to the same as removing them at once, so the order does not matter |
| Sessions.EquallyMany | src/session.rs:100-103 | active tokens and live sessions are equally many |
| Sessions.MapsAgree | src/session.rs:143-342 | in every reachable state tokens and identifiers are mutually inverse, used tokens are inactive and name a live session of the same user |
| Sessions.SingleUse | src/session.rs:195-216 | once a token was resumed, no later resumption or validation of it succeeds in any run |
| Sessions.ReplayDetected | src/session.rs:171-187 | a replay is a conflict iff the session is still live and no cleanup came at or past the retention age; otherwise the token is unknown |
| Sessions.EndsExactly | src/session.rs:161-342 | a live session ends in a step iff for one of the listed reasons; otherwise only its own token rotates it and only contact updates its last-seen time |
| Sessions.BeginsExactly | src/session.rs:143-158 | sessions come into being only by creation, as requested |
| Sessions.Lifetime | src/session.rs:161-342 | over any run a session keeps user and data, and is gone exactly if some step had a reason to end it |
| Sessions.ConflictRemovesUser | src/session.rs:171-180 | a conflict removes all sessions, tokens and used tokens of that user and nothing else |
| Sessions.CleanupLeaves | src/session.rs:325-342 | cleanup leaves exactly the non-idle sessions and, of those, the unexpired used tokens |
| Auth.CredentialsAuth.GetAuthAction | src/auth.rs:157-165 | resume with a token, else log in, else nothing |
| Auth.ActionExactly | src/auth.rs:157-165 | a client resumes iff it holds a token, otherwise it logs in with user and password as they were set |
| Auth.CredentialsAuth.ProcessAuthResponse | src/auth.rs:167-217 | the client's state, outcome and event after each reply |
| Auth.ReplyEffects | src/auth.rs:167-217 | for any reply: accepted iff a success, rejected iff nothing is left to try or an expired session is reported to a client that presented none; which event is sent; credentials go only if refused |
| Auth.RejectedExactly | src/auth.rs:184-204 | a completed exchange rejects a client iff it has nothing left to try; one whose resumption was reported expired logs in next with the credentials it has |
| Auth.CredentialsKept | src/auth.rs:138-217 | over every run a client's credentials are those last set, unless it logged out or they were refused since, and without a token it logs in with them |
| Auth.CredentialsAuth.OnSessionExpired | src/auth.rs:219-222 | the token is dropped |
| Auth.CredentialsAuth.SetCredentials | src/auth.rs:138-143 | new credentials drop the token |
| Auth.CredentialsAuth.Logout | src/auth.rs:145-148 | logging out drops credentials and token |
| Auth.ConflictExactly | src/auth.rs:167-217 | over every run of completed and lost exchanges of many clients: a client that resumes is told of a conflict iff it never learned of its token's successful resumption, the session lives, and no cleanup came at or past the retention age |
| Auth.NoConflict | skills/protocol-architecture/SKILL.md:334-342 | if no reply is lost each held token is its session's current one, is never used up, and no client meets a conflict |
| Auth.LostReplyConflicts | src/auth.rs:208-215 | an input: after one lost or garbled reply the next exchange is a conflict that ends all sessions of the user |
| Auth.EventsTellTruth | src/auth.rs:21-30 | resumed is sent iff a presented token is accepted, and means the same session with a new token; created iff a login is, and means a session that did not exist; failed means no token is held |
| Endpoints.SortBy | src/endpoints.rs:87 | the sort the manager calls, as a stable insertion sort |
| Endpoints.EndpointManager.AddEndpoint | src/endpoints.rs:70-92 | parse failure changes nothing, success stores and sorts |
| Endpoints.EndpointManager.RemoveEndpoint | src/endpoints.rs:95-106 | removal, also of a forced override |
| Endpoints.EndpointManager.SwitchToEndpoint | src/endpoints.rs:109-118 | forces a known endpoint, refuses an unknown one |
| Endpoints.EndpointManager.ClearForcedEndpoint | src/endpoints.rs:121-124 | clears the override only |
| Endpoints.EndpointManager.MarkConnected | src/endpoints.rs:128-130 | remembers the endpoint only |
| Endpoints.EndpointManager.OrderedUrls | src/endpoints.rs:138-182 | the returned pairs, element by element |
| Endpoints.SortedArranged | src/endpoints.rs:87 | the sort orders by rank and keeps the order within a rank |
| Endpoints.ArrangementUnique | src/endpoints.rs:87 | there is only one such arrangement, so any stable sort computes it |
| Endpoints.ComparatorIsRank | src/endpoints.rs:165-175 | on distinct endpoints the comparator is comparison by priority, then last-connected first, pair by pair; so the sort gives the one arrangement by that rank |
| Endpoints.RunIsGrouped | src/endpoints.rs:84-130 | over every run the stored list is the surviving additions grouped by priority in insertion order, and a forced endpoint is a stored one |
| Endpoints.TriedInOrder | src/endpoints.rs:138-182 | over every run: the forced endpoint alone, or all survivors by priority with the last-connected first in its tier and the others in insertion order |
| Endpoints.StoredExactly | src/endpoints.rs:6-14 | over every run, said of any two stored endpoints: local ones come before remote ones before developer ones, and otherwise the one added first |
| Endpoints.TriedExactly | src/endpoints.rs:138-182 | the same of the order of trying if none is forced, except that the last-connected endpoint comes before all others of its priority |

## Left out

- Recursive record types: a schema is a finite tree. A value of a recursive type has finite depth, so it inhabits the type unrolled that far.
- `f32` and `f64` leaves with NaN: leaf equality is structural and reflexive.
- Index and integer widths: indices are natural numbers; list lengths never reach the limits of `usize`.
- `index_to_key` and `key_to_index` on keyed collections: they panic, and no typed patch reaches them; the functions of `Patches` leave ill-typed patches without effect.
- Resolve.ResolveApply: a nested `&mut` borrow is modelled as a fresh reference whose content is written back, so aliasing between borrows is not captured.
- Entities that appear or disappear in the pipeline: they travel in messages without a conflation key, whose order relative to keyed messages of the same entity the queue does not keep.
- Queues.RefinesFifo: assumes messages with different keys commute, which the source asks of its users but does not check; messages without a key may depend on each other.
- Transparency.TransparentExactly: drawn identifiers are new, as for random UUIDs; a collision is not modelled.
- Commuting.CommuteExactly: for a list that both patches change by operations the condition is that the operations lead to the same list in either order; for the order of its elements no shorter test is given, for its meaning `Commuting.OpsCompatibleExactly` does.
- Subscriptions.SubscriberMirrors: a subscriber ignores a patch for an item it does not have; the source leaves that to the client.
- Sessions.SessionManager.ResumeSession: each method is one atomic step; interleavings between its separate map accesses, and writes to the public maps from outside, are not modelled.
- Auth.ConflictExactly: an exchange is one step, and sessions are resumed by the clients only; the builders and the parser passed to `CredentialsAuth` are replaced by the action and reply they stand for, any refusal may be reported as expired or unauthorized.
- Endpoints.SortBy: stands for the standard library's stable sort; a panic on an inconsistent comparator cannot occur on distinct endpoints.
- URL parsing: its result is a parameter.
- `SubscriptionRegistry`, change notifications and broadcast channels: callbacks and library plumbing.
- Codecs, `src/client.rs`, `src/server.rs`: meaning lives in serialization and transport libraries.
- `StaticTokenAuth`, `Pagination`, `EntityService`, `build_utils`, the default session durations: easy members only.
