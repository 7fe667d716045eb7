# Chat server coordination core, modelled in Dafny

This project models the coordination logic of a real-time chat server. The
server has five kinds of record: users, friend requests, direct (one-to-one)
conversations, group chats and call logs. Clients act through socket events:
connect and `end`, `friend_request`, `accept_request`,
`start_conversation`, `start_group`, `get_messages`, `text_message`,
`group_message`, and the audio and video call signalling events. A few HTTP
controllers list users, start calls and format the call history.

The model is an in-memory store, the class `Server.Store`. It has one
sequence field per collection. Each socket handler is a method of the
store. The method changes the store as the handler's database calls would.
It returns the notifications the handler emits, in emission order, as
(target socket id, event name, payload) entries. A notification for a user
who does not exist, or who has no socket id, is not delivered and does not
appear in the list.

A handler that would throw before writing anything returns
`Failure(NotFound)` or `Failure(ValidationError)` and leaves the store
unchanged. A handler throws when it dereferences a missing record or when
the schema rejects a field. The model stops at that store effect: the
rejected promise that reaches the process-level `unhandledRejection`
handler, which closes the server, is not modelled. Time (`Date.now()`) and generated record ids are
method parameters. A generated id is required to be fresh in its
collection. The runtime's cast of a `Date` to the string kept in
`lastMsgTime` is the store constant `dateText`.

Files:
- `seqs.dfy` holds `Option`, `Result` and the three collection queries: the
  first match (`findOne`/`findById`), the ordered filter, and a delete by
  position.
- `users.dfy` holds ids and errors, and the user and friend-request records
  with their lookups and updates.
- `call_log.dfy` holds the call-log schema.
- `chat_schema.dfy` holds the direct-conversation and group-chat schemas.
- `server.dfy` holds the socket handlers.
- `server_lemmas.dfy` holds properties that relate several handlers.
- `user_controller.dfy` holds the user listings, call start and
  call-history classification.

The store invariant `Store.Valid` is kept by every handler. It says:
- ids are distinct in each collection except users;
- each conversation's summary fields describe its last message;
- direct messages carry a `to` and group messages do not;
- group names are non-empty;
- each call log's participants are `[from, to]`;
- a call log with no verdict is still Ongoing, and a missed, denied or busy
  call has Ended.

Five behaviours of the code that a reader may not expect, which the model
keeps:
- `accept_request` appends to the friend lists without checking for an
  existing entry, so a repeated or self-addressed request adds duplicates.
- `end` sets the status to Offline and keeps the stored socket id.
- A later call signal overwrites an earlier verdict. A denied call that is
  then accepted reads Accepted, with status still Ended.
- The call handlers write a field named `endedAt`, which the call-log schema
  does not declare. The write is dropped, and `endTime` is never set.
- The not-picked signal notifies the callee (`to`). The other signals
  notify the caller (`from`).

## Model

| member | source | states |
|---|---|---|
| Seqs.FirstIndex | server.js:131-133 | the index found is the first whose record satisfies the query; none means no record does |
| Seqs.Keep | controllers/userController.js:62-68 | a filter keeps exactly the elements that satisfy the predicate, and no more of them than there were |
| Seqs.KeepAppend | controllers/userController.js:62-68 | filtering two stretches and concatenating equals filtering their concatenation, so order is kept |
| Users.FindUser | server.js:85-86 | `findById` returns a stored user with that id, and returns none exactly when no stored user has it |
| Users.SocketOf | server.js:73-78 | the delivery target is the found user's socket id; there is none when the user is missing |
| Users.UpdateUser | server.js:53-56 | an update by id rewrites the user with that id by the update and leaves every other id's lookup unchanged |
| Users.UpdateAtFirstMatch | server.js:53-56 | replacing the first match for an id is seen by that id's lookup and by no other lookup |
| CallLogSchema.CreateCallLog | models/callLog.js:23-36 | creation fills `startTime` with the creation time; status defaults to Ended; verdict and `endTime` stay unset |
| ChatSchema.ParseMessageType | models/OneToOneMessage.js:26-29 | a name is accepted exactly when it is one of Text, Media, Document, Link, and parses back to that name |
| ChatSchema.CheckMessageType | models/GroupChat.js:26-29 | an unset `type` passes as unset; a valid name passes as that type; a string outside the enum is a validation error and nothing else is |
| ChatSchema.SummaryOf | server.js:219-221 | `lastMsg`, `lastMsgFrom` and `lastMsgTime` are the message's text, sender name and creation time as a string |
| Server.IsPairExactly | server.js:131-133 | for two distinct users the pair query matches exactly [a, b] and [b, a]; for one user named twice it matches any two-entry list holding that user |
| Server.FindDirect | server.js:131-133 | the first conversation whose participants are exactly the two users; none exactly when no conversation's are |
| Server.FindCallLog | server.js:318-322 | the first log whose participants are the pair and whose kind matches, with no condition on status; none exactly when no log matches |
| Server.SignalVerdict | server.js:312-396 | not-picked writes Missed, accepted Accepted, denied Denied and busy Busy, each verdict coming from exactly one signal |
| Server.SignalTarget | server.js:312-396 | the not-picked handler notifies `to`; the accepted, denied and busy handlers notify `from` |
| Server.CallEventName | server.js:312-396 | not-picked emits "<kind>_call_missed", accepted "<kind>_call_accepted", denied "<kind>_call_denied" and busy "on_another_<kind>_call" |
| Server.CallEventNamesDistinct | server.js:312-502 | the eight signalling handlers of both call kinds emit eight different events |
| Server.Deliveries | server.js:280-289 | at most one notification per listed id, none for an empty list; DeliveriesTargets and DeliveriesAppend state which and in what order |
| Server.Notify | server.js:73-75 | a notification is produced exactly when the target user has a socket id, and it goes to that socket |
| Server.DeliveriesTargets | server.js:280-288 | the notifications of a fan-out are exactly the listed users that have a socket, each with the same event and payload |
| Server.DeliveriesAppend | server.js:280-288 | fanning out to two lists in turn equals fanning out to their concatenation |
| Server.Others | server.js:281 | the fan-out list holds exactly the participant entries whose id differs from the sender's |
| Server.FanOut | server.js:280-289 | the `forEach` loop produces exactly the deliveries to the non-sender participant entries, in participant order |
| Server.WithMessage | server.js:208-221 | the message is appended at the end, id and participants are unchanged, and the summary describes the new last message |
| Server.GroupWithMessage | server.js:258-271 | the same append and summary update on a group, which keeps its name, participants and avatar |
| Server.BuildMessage | server.js:245-252 | the message carries the sender's id, "firstName lastName", the sender's avatar, the type, the time and the text |
| Server.ApplySignal | server.js:318-325 | an acceptance writes only the verdict Accepted, so an ongoing call it accepts stays Ongoing; every other signal writes its verdict and status Ended; all other fields are kept, and so is verdict/status consistency |
| Server.DeleteRequest | server.js:94 | deleting the request by id leaves request ids distinct and no request with that id |
| Server.ReplaceDirect | server.js:196-222 | saving a valid conversation in place keeps the direct conversations valid |
| Server.ReplaceGroup | server.js:255-272 | saving a valid group in place keeps the groups valid |
| Server.Store.constructor | server.js:34-37 | the initial database contents: the registered users and no requests, conversations, groups or logs |
| Server.Store.Connect | server.js:51-56 | with a truthy `user_id`, that user's socket id becomes the connection's and status Online; otherwise nothing changes |
| Server.Store.End | server.js:505-511 | with a truthy `user_id`, that user's status becomes Offline and the socket id is kept; otherwise nothing changes |
| Server.Store.SendFriendRequest | server.js:63-79 | exactly one request {from → to} is appended with no duplicate check; `to` gets `new_friend_request`, then `from` gets `request_sent` |
| Server.Store.AcceptRequest | server.js:81-106 | each side is appended to the other's friends, the request is deleted, both are notified sender first; a missing request, sender or recipient changes nothing |
| Server.Store.DirectConversationsOf | server.js:108-114 | exactly the direct conversations the user takes part in |
| Server.Store.GroupConversationsOf | server.js:116-122 | exactly the group chats the user takes part in |
| Server.Store.StartConversation | server.js:124-152 | answers the caller's socket with the first two-member conversation holding both users, and creates [to, from] only when there is none |
| Server.Store.StartGroup | server.js:154-171 | always appends a new group with the generated avatar URL and answers the caller; a missing or empty name is a validation error that creates nothing |
| Server.Store.GetMessages | server.js:173-184 | "individual" reads a direct conversation's messages, any other chat type a group's; none exactly when the id does not resolve |
| Server.Store.TextMessage | server.js:187-237 | appends one message and sets the summary from it; `to` then `from` get the same `new_message`; a missing sender or conversation, or a bad type, writes nothing |
| Server.Store.GroupMessage | server.js:240-290 | appends one message and sets the summary; the sender gets one copy, then each participant entry other than the sender gets one |
| Server.Store.RelayCallStart | server.js:295-309 | only the callee is notified, with the caller's record, the room id, `from` as stream id and `to` as user id and user name |
| Server.Store.CallSignalEvent | server.js:312-396 | the first log for the pair and kind, whatever its status, gets the signal's verdict and status; the target is the callee for not-picked, the caller otherwise (the video handlers at 418-502 are the same) |
| Server.Store.CreateCall | controllers/userController.js:164-170 | appends one log for [from, to] of the given kind, Ongoing, with no verdict |
| ServerProperties.FindDirectSymmetric | server.js:131-133 | the pair query gives the same answer whichever user is `to` |
| ServerProperties.FindDirectAfterCreate | server.js:136-140 | after a conversation is created, the pair query finds it from either side |
| ServerProperties.FindDirectKeptByCreate | server.js:136-140 | creating a conversation leaves an existing match of any pair query where it was |
| ServerProperties.FindDirectAfterMessage | server.js:208-209 | appending messages never changes which conversation the pair query finds |
| ServerProperties.StartConversationTwice | server.js:124-152 | two `start_conversation` calls for the same users, the second in the same order or swapped, answer with the same conversation and create at most one |
| ServerProperties.AcceptMakesFriends | server.js:89-93 | accepting between two users appends each to the other's friends once and leaves all other users unchanged |
| ServerProperties.AcceptSelfRequest | server.js:89-93 | a self-addressed request adds the user to their own friends twice |
| ServerProperties.ConnectThenEnd | server.js:505-511 | after a connection and then `end`, the user is Offline and still holds that connection's socket id |
| ServerProperties.StaleLogMatched | server.js:318-325 | with no status filter, an Ended log for the pair is updated ahead of a newer Ongoing one |
| ServerProperties.NewCallSignalsOldLog | server.js:318-322 | after a second call between the same users, signals for the pair and kind still update the older log |
| ServerProperties.VerdictOverwritten | server.js:334-376 | a denied call that is then accepted reads Accepted with status Ended |
| ServerProperties.SignalsHitSameLog | server.js:318-325 | updating the matched log keeps it the match, so later signals for the pair and kind land on the same log |
| ServerProperties.GroupOfThreeFanOut | server.js:274-289 | in a group of three reachable users, a message reaches the sender, then each other member, once each |
| ServerProperties.SocketsOfThree | server.js:282-283 | each of three users with distinct ids is looked up to their own socket |
| ServerProperties.OthersOfThree | server.js:281 | the fan-out list of a three-member group, sent from the first, is the other two in order |
| UserController.VerifiedUsers | controllers/userController.js:43-45 | exactly the verified users |
| UserController.RequestSenders | controllers/userController.js:50-57 | exactly the users who have sent the caller a request |
| UserController.RequestRecipients | controllers/userController.js:53-60 | exactly the users the caller has sent a request to |
| UserController.GetUsers | controllers/userController.js:42-75 | a user is listed exactly when verified, not a friend, not the caller, and with no request on record in either direction |
| UserController.GetAllVerifiedUsers | controllers/userController.js:77-91 | exactly the verified users other than the caller |
| UserController.ListingsKeepOrder | controllers/userController.js:62-68 | both listings keep the store's order |
| UserController.RequestHidesBothWays | controllers/userController.js:62-68 | once a request exists, neither party is offered to the other |
| UserController.AcceptedFriendsHidden | controllers/userController.js:62-68 | after `accept_request` between two users, neither is offered to the other by `getUsers` |
| UserController.StartCall | controllers/userController.js:157-182 | creates one Ongoing, verdict-free log [from, to] and answers with its id as room id; a missing caller fails only the answer and the log stays |
| UserController.InvolvedLogs | controllers/userController.js:214-216 | exactly the logs whose participants contain the user |
| UserController.Classify | controllers/userController.js:218-246 | the other party is `to` when the user placed the call, `from` otherwise; missed exactly when the verdict is not Accepted; incoming exactly when the user is not `from`; always online |
| UserController.CallLogsOf | controllers/userController.js:211-250 | one classified entry per involved log, in store order |
| UserController.StartedCallReadsFromBothSides | controllers/userController.js:164-237 | a new call shows as outgoing and missed for the caller, and as incoming and missed for the callee |
| UserController.MissedAfterSignal | controllers/userController.js:221 | after any signal a log reads missed exactly when the signal was not an acceptance |

## Left out

- Concurrency between asynchronous handlers: each handler is modelled as one atomic step. The races between pushing a message and reading the last one are not captured.
- The socket.io transport and `socket.disconnect`: delivery is a returned list, and a missing socket id means no delivery.
- Server.FanOut: the per-participant lookups are awaited inside `forEach`, so their emissions may interleave in any order. The model emits them in participant order.
- `populate` and `select` projections: records are returned whole, and referenced users stay ids.
- The other party's name and avatar in `getCallLogs`: they come from a populate. `UserController.CallLogEntry` keeps the other party's id.
- The IST time string in `getCallLogs`: it depends on timezone and locale data.
- `Date.now()` and ObjectId generation: both are parameters. A generated id is required to be fresh.
- The `Date` to string cast behind `lastMsgTime`: it is the store constant `dateText`.
- The subdocument `_id` of each message, and `created_at`'s schema default: every handler sets `created_at` itself.
- ObjectId casting errors for malformed ids: ids are plain strings.
- Server.Store.TextMessage: `to` is always given. The code stores a direct message without `to` when the client leaves it out, and the model does not capture that case.
- `generateZegoToken`: a foreign token library.
- `getMe`, `updateMe`, `getRequests`, `getFriends` and `filterObj`: thin store wrappers outside this model.
- controllers/authController.js and app.js: authentication and middleware configuration are not part of this model.
- models/user.js and models/friendRequest.js are not part of this model. Only the fields the handlers read or write are kept.
- Process-level handlers and the database and server bootstrap.
