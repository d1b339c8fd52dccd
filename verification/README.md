# A model of HushNet's federated message delivery

HushNet nodes hand encrypted messages to each other without sharing a transaction. The sending node writes the
request to `federation_outbox`, starts an immediate attempt, and a polling worker retries with exponential backoff.
The receiving node authenticates each request, claims its nonce, and then issues a series of SQL statements (shadow
user, shadow device, chat, one row per recipient device) with no transaction around them. Responses get lost, attempts
for one entry overlap and work on stale copies, handlers die halfway. This project models that protocol and proves
what holds in spite of it, and exactly when the things that do not always hold do.

There are two layers.

* **State machines whose steps are single SQL statements.** `Schema` holds a node's tables, every write its handlers
  issue (`Stmt`), when PostgreSQL refuses it (`Accepts`) and what it does (`Exec`). On top of it: `ReceivePipeline`,
  `Confluence`, `Uninterrupted` and `SingleRun` (one delivery on the receiving node), `Outbox`, `OutboxSerial` and
  `OutboxTiming` (the sending node's queue), `Delivery` and `Acknowledgements` (any number of nodes, with a network
  that loses, delays, duplicates and reorders), `Chats`, `Sessions`, `Draining`, `Nonces`, `NodeAuth` and `AuthRuns`,
  and `Codec` and `Urls` for the text formats.
* **The code that changes the tables.** `Repository.Database` is a class with the tables as fields and one method
  per repository function; `Handlers` has the request handlers, the delivery tasks, one round of the polling loop
  and the node authentication. Each method is proved to do what the state machine does when nothing comes between its
  statements, so the theorems about the state machines are about this code.

`dafny verify dfyconfig.toml` checks the whole project.

## Assumptions

* Every SQL statement is atomic and sees all earlier ones.
* A generated primary key is a value carried by the statement. A collision is a refused statement, not something
  assumed away; where a result needs keys that are new, it says so (`Uninterrupted.Lucky`), and such keys always exist
  (`Uninterrupted.LuckyExists`).
* Signatures are ideal (Ed25519, RFC 8032): a key verifies only what was signed with it. The signature covers
  method, path, timestamp and nonce but not the body, so the network is taken not to alter bodies, and the
  registry to be honest.
* Timestamps are unbounded integers: microseconds for clocks, whole seconds in the header.
* Whether an attempt is answered, and what the registry replies, is arbitrary. Serialising a payload and reading it
  back gives the same payload; an outbox row that does not decode is still modelled.
* A node puts only its own users' addresses, which end in its own name, into the requests it makes. The receiving
  handler does not compare the address with the authenticated peer.
* A peer is identified by its node name; `home_node_id` is that name. Node names contain no `@`.
* New message rows start undelivered, as the column default says.
* A drained batch counts as returned once its UPDATE has run. A handler or a response that is lost after that loses
  the batch, as nothing records that the client received it; that loss is not in the model.
* HTTP clients serialise the path and query of a URL as the URL Standard says (sections 4.4 and 4.5, with the path and
  query percent-encode sets, `^` among the escaped characters). What a proxy in front of a receiver does to the request
  target is to remove one prefix, any prefix or none.

## Where the code and its documentation differ

The model follows the code.

* The first recorded wait is 20 s and the nine waits sum to 8700 s (`OutboxSerial.ScheduleIs`). The tables at
  src/federation/outbox.rs:16-22, docs/API.md:797-810 and sql_models/seed.sql:385-387 start at 10 s: the worker passes
  `attempt_count + 1` and the wait is 10 * 2^attempt.
* 'delivered' is not final. A worker whose copy had seen nine failures can turn it into 'failed'
  (`Outbox.DeliveredCanFail`); `Outbox.DeliveredIsFinalIff` says in which states no run does.
* docs/API.md:1071 says that a 404 from the peer fails the entry at once, and docs/API.md:1075 that an invalid
  signature is not retried. Every failed attempt is treated alike; `Outbox.PendingFailsIff` says when one is final.
* The default API URL ends in `/api` (src/main.rs:39-40). A GET signs the path with that prefix, a POST without it, so
  whatever prefix is removed in front of the receiver, not both verify (`Urls.DefaultUrlNeverAgrees`).
* A GET signs its path as it is formatted (src/federation/client.rs:72, 109-111) and the receiver checks the serialised
  one, so a request for the keys of a user whose name needs an escape is refused (`NodeAuth.SpaceInNameRefused`);
  `Urls.KeysRoutePlainIff` says for which names it is not.
* The receiver cuts the sender's username at its first `@` (`Codec.SenderNameCut`, `Codec.SenderNameIff`).
* `POST /s2s/ack` marks every pending entry of a logical identifier, whatever its target, and so can mark one that is
  not stored (`Acknowledgements.AckCanBreak`); `Acknowledgements.AckSafeIff` says when it cannot.
* A drain of pending messages can lose rows and can return rows twice (`Draining.DrainCanLose`,
  `Draining.DrainCanRepeat`). Over whole runs with overlapping drains, `Draining.LostForGoodIff` and
  `Draining.UpdateLosesIff` say exactly which rows are lost, and `Draining.ReturnedPerHolder` and
  `Draining.ReturnsLeftIff` how often a row is returned.
* `resolve_node` caches a registry record that lacks a URL or a key with an empty one, where `resolve_peer` refuses
  it (`Handlers.ResolveNode`, `NodeAuth.FirstContact`).

## Model

| member | source | states |
|---|---|---|
| Schema.ExecKeepsValid | sql_models/seed.sql:7-147 | every write, accepted or refused, keeps all constraints: unique names and addresses, references, strictly ordered unique direct chats, one row per message key, one session per ordered device pair |
| Schema.ExecExtends | src/repository/federation_repository.rs:166-236 | no write removes a user, device, chat, message or session, and of them only a shadow's username and a message's delivery time can change; a pending session goes exactly when it is the one being deleted |
| Codec.ParseAddress | src/federation/mod.rs:11-14 | parsing `u@n` gives back (u, n) if and only if n has no `@` |
| Codec.ParseThenFormat | src/federation/mod.rs:11-14 | a successful parse rebuilds its input; parsing fails exactly when there is no `@` |
| Codec.AddressInjective | src/controllers/messages_controller.rs:100 | addresses of different users or nodes differ |
| Codec.SenderNameIff | src/controllers/federation_controller.rs:258-262 | the receiver's split at the first `@` yields the sender's own username if and only if it has no `@` |
| Codec.SenderNameCut | src/controllers/federation_controller.rs:258-262 | the user "a@b" of any node is shadowed under the name "a" |
| Urls.UrlPathIs | src/federation/client.rs:176-185 | the path of scheme://authority/path is everything from the first slash after the authority |
| Urls.SentAsIsIff | src/middlewares/node_auth.rs:92-97 | a path is received as it was formatted if and only if it has no character that is escaped or dropped and no dot segment |
| Urls.KeysRoutePlainIff | src/federation/client.rs:67-80 | that holds for the route of a key request if and only if the username (without slash and question mark) needs no escape and is not a dot segment |
| Urls.KeysRouteSent | src/federation/client.rs:67-80 | what is sent for the keys of a user is the route of the escaped name, except that the names `.` and `..` (escaped or not) take it to another route |
| Urls.EscapedDecodes | src/controllers/federation_controller.rs:35-40 | undoing the escapes of a sent segment gives the octets of the username, if it has no `%` of its own |
| Urls.GetPathAgreesIff | src/federation/client.rs:109-121 | a GET signs the path that is received if and only if the path is sent as it was formatted and no prefix of it is removed on the way |
| Urls.PostPathAgreesIff | src/federation/client.rs:123-142 | a POST signs the path that is received if and only if what is removed is what was sent before the route, which for a path that is sent as formatted is exactly the path prefix of the API URL |
| Urls.SignedPathsAgreeIff | src/middlewares/node_auth.rs:92-97 | whatever prefix is removed, both do if and only if the API URL has no path prefix, the route is sent as formatted and nothing is removed from it |
| Urls.DefaultUrlNeverAgrees | src/main.rs:39-40 | with the default API URL of any host, whatever prefix is removed, not both do |
| Codec.CanonicalInjective | src/middlewares/node_auth.rs:97 | canonical strings of newline-free fields are equal if and only if the fields are |
| Codec.TimestampRoundTrip | src/federation/client.rs:148-152 | the receiver reads the timestamp the sender wrote, and it has no newline |
| Nonces.WindowWidth | src/middlewares/node_auth.rs:69-81 | two passes of the window check for one timestamp are less than 121 s apart |
| Nonces.RowLives | src/repository/federation_repository.rs:51-68 | an accepted nonce is still stored 300 s later, whatever purges ran |
| Nonces.NoReplayIff | src/middlewares/node_auth.rs:69-137 | over every run with purges at any time, no request is accepted twice if and only if the check-to-claim delays (clock skew included) spread over at most 179 s and 1 µs |
| NodeAuth.HonestRequestAcceptedIff | src/middlewares/node_auth.rs:59-141 | an honestly signed request is authenticated if and only if the signed path is the received one, the clock is in the window, the cached record has that key and is not blocked or, with none cached, the registry has a complete record with that key, and the nonce is new |
| NodeAuth.RefusedEarly | src/middlewares/node_auth.rs:63-81 | missing headers, unreadable timestamps and timestamps outside the window are refused for just that, with nothing cached or claimed |
| NodeAuth.FirstContact | src/middlewares/node_auth.rs:159-213 | for a node that is not cached: refused for the registry's failure, and cached nowhere, without a complete record; otherwise cached, unblocked, whatever the verdict |
| NodeAuth.KnownPeer | src/middlewares/node_auth.rs:84-140 | for a cached node each verdict is given exactly when its check is the first to fail, the signature being over the method, path, timestamp and nonce joined by newlines; the cached record stays |
| NodeAuth.AuthenticatedMeansSigned | src/middlewares/node_auth.rs:92-139 | an authenticated request was signed by the peer's own key for exactly this method, path, timestamp and nonce, and its nonce was new and is now claimed |
| NodeAuth.RefusedClaimsNothing | src/middlewares/node_auth.rs:131-140 | the nonce table changes if and only if the request is authenticated |
| AuthRuns.ClaimIs | src/repository/federation_repository.rs:51-60 | an authenticated request adds exactly its own row, dated with the time of the claim, and leaves every other row as it was; any other request leaves all |
| AuthRuns.ClaimStays | src/repository/federation_repository.rs:51-68 | what an authenticated call claimed is still stored before any later event until 300 s have passed, whatever calls, purges and changes came between |
| AuthRuns.NoneTwiceIff | src/middlewares/node_auth.rs:59-141 | over every run of authentication calls, purges and changes of the cached peers, from any state, no two calls with the same node, second and nonce are authenticated if and only if the check-to-claim delays spread over at most 179 s and 1 µs |
| NodeAuth.GetVerifiesIff | src/federation/client.rs:109-121 | with everything else in order a GET verifies if and only if its path is sent as formatted and no prefix is removed from it; otherwise the signature is invalid |
| NodeAuth.SpaceInNameRefused | src/federation/client.rs:67-80 | the request for the keys of "bob smith" is refused for its signature |
| NodeAuth.PostVerifiesIff | src/federation/client.rs:123-142 | with everything else in order a POST verifies if and only if what is removed is what was sent before the route |
| NodeAuth.HonestPathsVerify | src/federation/client.rs:109-167 | with an API URL scheme://authority, in-window requests with a new nonce verify, for GET and for POST, if and only if the route is sent as formatted |
| ReceivePipeline.PcStable | src/controllers/federation_controller.rs:232-321 | what a handler has established is not invalidated by any write of anybody |
| ReceivePipeline.AdvanceOk | src/controllers/federation_controller.rs:218-365 | each statement of the handler keeps the schema, only adds, and leaves its next position justified by the tables |
| ReceivePipeline.ReportsNewIff | src/repository/message_repository.rs:66-86 | the handler's insert answers `Ok(true)` if and only if the message table gains the row |
| Confluence.PlayKeepsInv | src/controllers/federation_controller.rs:218-365 | any schedule of overlapping and dying runs adds nothing but what one delivery may add |
| Confluence.ScheduleDelivers | src/controllers/federation_controller.rs:323-364 | any schedule in which some run answers has done the whole delivery: renamed shadow, device, chat of the two users, a row per key |
| Confluence.DeliveryIsDetermined | src/repository/federation_repository.rs:166-236 | two states that both contain the whole delivery and nothing else agree on users, devices, chats and messages, generated identifiers aside |
| Confluence.Confluent | src/controllers/federation_controller.rs:218-365 | two schedules of any number of complete and aborted runs, each with one that answers, leave the same tables, generated identifiers and insertion times aside |
| Uninterrupted.DeliveredWasDeliverable | src/controllers/federation_controller.rs:232-355 | what some schedule delivered met, beforehand, a condition on the tables: the named local user exists and is not the sender, the sender's name is free, its device is known or its key unused by it, and every target device is known |
| Uninterrupted.NotRefused | src/controllers/federation_controller.rs:264-355 | under that condition no statement of a run left alone is refused |
| Uninterrupted.AnsweredIffDeliverable | src/controllers/federation_controller.rs:218-365 | after any schedule of runs, a run left alone is answered if and only if the condition held at the start, and no run is answered otherwise |
| Uninterrupted.RetryAnswers | src/federation/outbox.rs:82-162 | if some schedule of a request gets an answer, then after any other schedule of it a retry left alone gets one too, and leaves the same tables |
| Uninterrupted.LuckyExists | src/repository/federation_repository.rs:166-236 | for any tables there are generated identifiers that collide with nothing |
| Uninterrupted.SameAsUninterrupted | src/controllers/federation_controller.rs:218-365 | if any schedule gets an answer, one run left alone answers too, and both leave the same tables |
| SingleRun.ResponseIsHonest | src/controllers/federation_controller.rs:232-364 | with any identifiers, a run that has ended is acknowledged if and only if the whole delivery is stored, with "delivered" exactly when a row was added and "duplicate" otherwise; 404 exactly when no local user has the name |
| SingleRun.EndedIff | src/controllers/federation_controller.rs:232-364 | a run that has ended, with any identifiers, got to its answer if and only if the whole delivery is in the tables: no refused statement leaves it complete |
| SingleRun.AcknowledgedIffDeliverable | src/controllers/federation_controller.rs:232-364 | with identifiers that collide with nothing, a run is acknowledged if and only if the condition on the initial tables held |
| SingleRun.NewUserIsForeign | src/controllers/federation_controller.rs:258-280 | the one user a delivery can add has the peer as its home node, the sender's address, and the name before the first `@`; it is never a local user |
| SingleRun.DeliveryMerges | src/controllers/federation_controller.rs:323-355 | the stored contents are the old ones merged with the payload list item by item, the first writer of a key winning, for repeated devices and the empty list too |
| SingleRun.SecondRunIsDuplicate | src/repository/message_repository.rs:55-87 | delivering the same request again changes no table at all and answers "duplicate" |
| Outbox.NextOverlapSafe | src/federation/outbox.rs:82-162 | every event keeps the attempt count in 0..10, at most 9 for pending entries and live copies, and every copy's target and body those of its entry |
| Outbox.RunOverlapSafe | src/federation/outbox.rs:62-163 | the same over every interleaving with stale copies; entries are never dropped, redirected, altered or made pending again |
| Outbox.EnqueuedIsDue | src/repository/federation_repository.rs:72-102 | a queued message is pending with no attempts and due at once, and its immediate task has its target and body |
| Outbox.NeverFetchedAgain | src/repository/federation_repository.rs:90-102 | an entry that has left 'pending' is in no later batch |
| Outbox.DeliveredIsFinalIff | src/federation/outbox.rs:82-162 | a delivered entry stays delivered in every run from here if and only if no live worker task for it is at its last attempt or holds a body that does not decode |
| Outbox.DeliveredStaysIff | src/repository/federation_repository.rs:130-162 | one event leaves a delivered entry delivered if and only if it is not a stale task giving up on it |
| Outbox.DeliveredCanFail | src/federation/outbox.rs:136-161 | a run from the empty queue in which two overlapping attempts, fetched one poll interval apart, turn 'delivered' into 'failed' |
| Outbox.PendingFailsIff | src/federation/outbox.rs:87-160 | a pending entry is given up if and only if the failing task had seen nine failures or the body does not decode |
| OutboxSerial.SerialRunSafeFor | src/federation/outbox.rs:82-162 | when one entry is never fetched while an attempt for it is alive, whatever happens to others, its copies agree with its row, its outcome is final, and 'failed' means ten attempts |
| OutboxSerial.SerialRunSafe | src/federation/outbox.rs:82-162 | the same for all entries at once |
| OutboxSerial.FailureUsesAttemptIff | src/repository/federation_repository.rs:146-160 | a recorded failure uses up an attempt if and only if its task's copy was not stale |
| OutboxSerial.RetriesEnd | src/repository/federation_repository.rs:130-162 | the attempts left over all pending entries drop with every recorded outcome |
| OutboxSerial.QueueSettles | src/federation/outbox.rs:62-163 | a fixed queue of n entries records at most 10 n outcomes, and when all attempts are used nothing is pending |
| OutboxSerial.ScheduleIs | src/repository/federation_repository.rs:147 | the waits are 20 s to 2560 s and then 3600 s; the nine recorded ones sum to 8700 s |
| OutboxSerial.BackoffShape | src/repository/federation_repository.rs:147 | the wait never shrinks, lies between 10 s and an hour, and is an hour from the ninth attempt on |
| OutboxTiming.TenthFailureIsLate | src/federation/outbox.rs:145-160 | in every run whose attempts for the entry are serial, its tenth failure comes at least 8700 s after the first |
| OutboxTiming.SettledInTime | src/federation/outbox.rs:42-163 | with polls at most G apart that take the entry when it is due, and serial attempts for it that are recorded within D, it is pending for at most 8700 s + 9 (G + D) after its first failure, whatever happens to other entries |
| OutboxTiming.EachPollServesHundred | src/repository/federation_repository.rs:90-102 | a poll that passes over an overdue entry takes a hundred of those in front of it, and no event puts another one there |
| OutboxTiming.NoStarvation | src/federation/outbox.rs:62-163 | with k pending entries in front, an overdue entry is fetched, or delivered by its immediate attempt, at the latest by the poll that comes after k / 100 others, if worker attempts write their outcome before the next poll |
| Delivery.NextKeepsWorld | src/federation/outbox.rs:82-162 | every step of every node, handler, task or client, and every acknowledgement whose entries the sender's queue and an answered letter vouch for, keeps the invariant of the whole system |
| Delivery.DeliveredMeansStored | src/controllers/messages_controller.rs:128-166 | in every reachable state, an entry marked 'delivered' has a row on its target for every one of its keys |
| Delivery.DeliveredOwnCiphertext | src/federation/outbox.rs:136-144 | and that row carries the entry's own header and ciphertext when nobody else used the key |
| Delivery.FederatedRowsAreSent | src/controllers/federation_controller.rs:323-355 | no invention: each row no local client wrote reads like an item of an outbox entry addressed to this node |
| Delivery.StoredOnce | src/repository/message_repository.rs:9-87 | each key has at most one row over local and federated writers; the inserts that answered `Ok(true)` are as many as the rows handlers made appear; every row is local or federated and not both |
| Delivery.FederatedRowsArePlaced | src/controllers/federation_controller.rs:232-355 | each federated row refers to existing devices, its sender's shadow, a local recipient, and the chat of exactly those two |
| Delivery.ShadowsAreSenders | src/repository/federation_repository.rs:166-184 | two federated rows share a sender record if and only if the same user of the same node sent them |
| Acknowledgements.AckSafeIff | src/repository/federation_repository.rs:114-126 | once a letter was answered, an acknowledgement keeps "delivered means stored" in every world that satisfies the invariant and has the sender's queue and that answer, if and only if every pending entry it marks is vouched for key by key, by the answered letter or by entries to the same node that count as delivered |
| Acknowledgements.AckCanBreak | src/controllers/federation_controller.rs:369-388 | a run from empty queues after which every delivered entry is stored, one of two pending entries with the same logical identifier is answered and stored, and an acknowledgement marks the other one, which is not |
| Chats.OneChatPerPair | src/repository/session_repository.rs:98-148 | over every interleaving of both chat routines and all other writes, two finished calls hold the same chat if and only if they are about the same two users |
| Chats.RetryFindsWinner | src/repository/federation_repository.rs:206-236 | the loser of a race for a pair is refused, and asking again gives it the winner's chat |
| Sessions.ConfirmedOutcome | src/controllers/session_controller.rs:178-243 | any schedule of overlapping, aborted and repeated confirmations with one success ends with the pair's chat, one session from sender to receiver and the pending session gone, and nothing else changed |
| Sessions.RetryConfirmsIff | src/controllers/session_controller.rs:183-237 | after any schedule of overlapping and aborted runs, a further run left alone succeeds if and only if one could have from the start and none has yet, with the outcome it would have had; no schedule has a success otherwise |
| Sessions.AloneConfirmsIff | src/controllers/session_controller.rs:183-237 | a confirmation left alone succeeds if and only if the caller owns the pending session and the two devices exist and belong to different users |
| Sessions.AloneOutcome | src/repository/session_repository.rs:150-182 | an uninterrupted confirmation that succeeds has that same outcome |
| Draining.DrainingConserves | src/repository/message_repository.rs:89-124 | over runs with nothing for the device between a SELECT and its UPDATE, rows returned and rows undelivered make up all rows, and none is returned twice |
| Draining.WindowOnlyAdds | src/repository/message_repository.rs:9-87 | statements other than a drain's UPDATE only add undelivered rows |
| Draining.MissedExactly | src/repository/message_repository.rs:93-121 | in a window without another UPDATE, the rows a drain marks though it did not select them are exactly those added in the window |
| Draining.ReturnedPerHolder | src/repository/message_repository.rs:89-124 | over any run, a row is returned once for each drain that selects it, less the drains that are abandoned and those still open |
| Draining.ReturnsLeftIff | src/repository/message_repository.rs:114-124 | once a row is marked delivered, some run returns it k more times if and only if at least k open drains hold it |
| Draining.LostForGoodIff | src/repository/message_repository.rs:89-124 | a row is returned in no run from here if and only if it has not been, is marked delivered, and no open drain holds it |
| Draining.UpdateLosesIff | src/repository/message_repository.rs:114-121 | an UPDATE loses an undelivered row for good if and only if no open drain of the device has selected it |
| Draining.UndeliveredIff | src/repository/message_repository.rs:114-121 | whatever statements run, an undelivered row stays so if and only if none of them drains its device |
| Draining.OverlapReturnsTwiceIff | src/repository/message_repository.rs:93-121 | a second drain returns rows of a non-empty first batch if and only if no UPDATE for the device came between the two SELECTs, and then it returns all of them |
| Draining.DrainCanLose | src/repository/message_repository.rs:89-124 | a run of one drain and one insert from valid tables after which the message is there and no continuation returns it |
| Draining.DrainCanRepeat | src/repository/message_repository.rs:89-124 | a run of two drains from valid tables that returns one message twice |
| Repository.Database.constructor | sql_models/seed.sql:7-147 | empty tables satisfy the constraints |
| Repository.Database.UpsertFederationNode | src/repository/federation_repository.rs:11-33 | replaces URL and key of a peer and leaves its block flag |
| Repository.Database.ClaimNonce | src/repository/federation_repository.rs:51-60 | true if and only if the pair was not stored; the first claim's time stays |
| Repository.Database.PurgeExpiredNonces | src/repository/federation_repository.rs:62-68 | drops exactly the rows older than five minutes |
| Repository.Database.EnqueueOutbox | src/repository/federation_repository.rs:72-88 | adds one pending entry with the given logical identifier, due now, with no attempts |
| Repository.Database.FetchDueOutboxEntries | src/repository/federation_repository.rs:90-102 | at most a hundred distinct due entries, in order, all of them or a hundred, none later than one left out |
| Repository.Database.MarkOutboxDelivered | src/repository/federation_repository.rs:104-112 | sets status and last attempt of one entry whatever its status |
| Repository.Database.MarkOutboxDeliveredByLogicalId | src/repository/federation_repository.rs:114-126 | marks exactly the pending entries of the logical identifier |
| Repository.Database.RecordOutboxFailure | src/repository/federation_repository.rs:130-162 | sets the count it is given; gives up at the limit, else schedules the next attempt |
| Repository.Database.GetLocalUserIdByUsername | src/repository/federation_repository.rs:240-251 | a user of that name without home node, and none only if there is none |
| Repository.Database.UpsertShadowUser | src/repository/federation_repository.rs:166-184 | renames the one user with the address, or adds one with that home node, and returns it, touching no other user; fails exactly on a name or key clash, changing nothing |
| Repository.Database.UpsertShadowDevice | src/repository/federation_repository.rs:186-204 | adds the device unless its identifier exists; fails exactly on a missing owner or a second identifier for the same key |
| Repository.Database.GetOrCreateDirectChat | src/repository/federation_repository.rs:206-236 | the two statements of the chat model back to back |
| Repository.Database.GetOrCreateChatId | src/repository/session_repository.rs:98-148 | the same for the routine by devices, a missing device counting for nothing |
| Repository.GetOrCreateIs | src/repository/federation_repository.rs:206-236 | returns the pair's chat if there is one; else adds it under the new identifier, unless the users are the same, one is missing or the identifier is in use, and then changes nothing |
| Repository.GetOrCreateByDevices | src/repository/session_repository.rs:98-148 | by devices it does what it does for their owners, and fails when a device is missing |
| Repository.GetOrCreateAgain | src/repository/session_repository.rs:98-148 | called again for the same users, by either routine and in either order, it returns the same chat and changes nothing |
| Repository.Database.InsertMessage | src/repository/message_repository.rs:9-44 | keeps exactly the rows of the longest insertable prefix of the items; each is undelivered, created now, and has its item's device, header and ciphertext and the message's sender, recipient and chat; succeeds if and only if the whole message is insertable |
| Repository.AcceptedRows | src/repository/message_repository.rs:15-41 | accepted inserts add exactly one row per item, undelivered for its device, with the item's contents, the sender, recipient and chat and the current time, and leave all old rows alone |
| Repository.AcceptedIff | src/repository/message_repository.rs:9-44 | all inserts of a message are accepted if and only if its chat, users and devices exist, no item's device has a row of the message already or a second item, and the identifiers are new and distinct |
| Repository.Database.InsertFederatedMessage | src/repository/message_repository.rs:55-87 | adds the row unless its key exists; reports true exactly when it did |
| Repository.Database.FetchPendingMessages | src/repository/message_repository.rs:89-124 | returns exactly the undelivered rows of the device, each once, oldest first, marks exactly those delivered now, and leaves none undelivered |
| Repository.Database.InsertOrUpdateSession | src/repository/session_repository.rs:150-174 | adds the session unless the ordered device pair has one |
| Repository.Database.DeletePendingSession | src/repository/session_repository.rs:176-182 | removes the pending session if it is there |
| Handlers.ReceiveMessages | src/controllers/federation_controller.rs:218-365 | acknowledged if and only if the whole delivery is stored and, with identifiers that are not in use, if and only if it was deliverable; "delivered" exactly when a row is new; 404 exactly when no local user has the name; new rows are undelivered and dated now, old rows untouched; reply and tables are those of an uninterrupted run of the statement machine |
| Handlers.StoreItems | src/controllers/federation_controller.rs:323-355 | the insert loop is the storing part of that run, with the same `any_new` |
| Handlers.Poll | src/federation/outbox.rs:62-87 | drops the nonces older than five minutes, and makes one task for each of at most a hundred pending entries that are due, all of them if they are fewer, with the entry's current target, body and count |
| Handlers.WorkerAttempt | src/federation/outbox.rs:87-162 | for a body that decodes: marked delivered when the lookup works, the target is known and the peer answers; untouched when the lookup fails; otherwise one more failure, failed from the tenth on and else due after the backoff; a body that does not decode is failed with count 10; no other entry changes; this is what the queue model's event writes |
| Handlers.ImmediateAttempt | src/controllers/messages_controller.rs:156-166 | marks its entry delivered on an answer and otherwise writes nothing; no other entry changes |
| Handlers.ResolveNode | src/controllers/messages_controller.rs:192-252 | a cached peer unless it is blocked; with none, the registry's record with missing fields empty, cached unblocked; nothing and no change when the registry has no record |
| Handlers.GoesOrStays | src/controllers/messages_controller.rs:33-45 | every message either stays here or goes to exactly one user of exactly one other node |
| Handlers.SendMessage | src/controllers/messages_controller.rs:23-169 | for an address u@n of another node: no message row, and unless the sender is unknown, the peer blocked or unknown, or the identifier in use, one entry for n, due at once, whose request names u and carries the message's identifier and items with the sender's own address, device and key; for any other address the queue and the peers stay, and the longest insertable prefix of the items is stored as undelivered rows |
| Handlers.ConfirmSession | src/controllers/session_controller.rs:178-243 | with an identifier that is not in use, succeeds if and only if the caller owns the pending session and the two devices exist and have different owners; success has the outcome above, failure leaves sessions and pending sessions; tables and result are those of an uninterrupted confirmation |
| Handlers.FromRequestParts | src/middlewares/node_auth.rs:59-141 | the nonce table gains exactly the request's own pair, dated at the claim, when it is authenticated, and is untouched otherwise; verdict and cached peers are those of the authentication model |

## Left out

- HTTP, axum extraction, reqwest, JSON and base64: input and output and library code; the replies and failures they give are arbitrary in the model.
- Ed25519, JWT, key files, enrollment tokens: library primitives and early-exit checks.
- X3DH and the Double Ratchet: described in the documentation, with no code in the repository.
- Realtime listener, WebSocket fan-out and the notification triggers: what is hard there is the broadcast buffer, which is not part of this model.
- User, device, chat and key listings, registration at the registry, root and health: thin queries.
- Database errors other than refused statements: they end a handler, which the state machines allow between any two statements.
- Acknowledgements.AckSafeIff: the worlds it ranges over satisfy the invariant that every reachable one does, but some of them may not be reachable themselves; `AckCanBreak` is a reachable one.
- The nonce claim is not a step of `Delivery`: requests may arrive any number of times there, so its results hold with and without replay protection.
- `receive_session` and `create_session` as handlers: their statements (shadow upserts, `CreatePending`) are in `Schema.Stmt` and may run at any time in `Delivery`, `Chats` and `Draining`.
- Group chats and `chat_type`: nothing creates one; every chat is direct.
- Uniqueness of pending sessions: the insert has no key to conflict on, so repeated requests may add several.
- Deletion of users, devices and chats and its cascades: no modelled handler deletes them.
- `updated_at`, `last_seen`, `last_message_id`, labels, tokens and prekeys: no branch of the modelled code reads them.
- The endless loop of `run`: `Handlers.Poll` is one round; runs of any number of rounds are runs of `Outbox` and `OutboxTiming`.
- Handlers.ReceiveMessages: proved without other statements in between; with them, `Confluence` and `Delivery` speak about the same statements.
