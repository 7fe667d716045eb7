/** The socket event handlers of server.js over an in-memory store. Each
    handler is a method of `Store`; it changes the store as the handler's
    database calls would, and returns the notifications the handler emits, in
    emission order, as (target socket, event name, payload) entries. A
    notification for a user who does not exist or has no `socket_id` is not
    delivered and does not appear. */
module Server {
  import opened Seqs
  import opened Common
  import opened Users
  import opened ChatSchema
  import opened CallLogSchema

  /** The `chat_type` of a `new_message` notification. */
  datatype ChatKind = Individual | Group

  datatype Payload =
    | Notice(text: string)
    | ChatStarted(conversation: DirectConversation)
    | GroupStarted(group: GroupChat)
    | NewMessage(chatKind: ChatKind, chatId: Id, message: Message)
    | IncomingCall(caller: Option<User>, roomId: Id, streamId: Id, userId: Id, userName: Id)
    | CallParties(from: Id, to: Id)

  datatype Notification = Notification(target: SocketId, event: string, payload: Payload)

  /** `io.to(user?.socket_id).emit(event, payload)` for the user with id `id`. */
  function Notify(users: seq<User>, id: Id, event: string, payload: Payload): (r: seq<Notification>)
    ensures r == [] <==> SocketOf(users, id).None?
    ensures r != [] ==> r == [Notification(SocketOf(users, id).value, event, payload)]
  {
    match SocketOf(users, id)
    case None => []
    case Some(s) => [Notification(s, event, payload)]
  }

  /** One `Notify` per entry of `ids`, in order: at most one notification per
      entry, and none at all for an empty list. */
  function Deliveries(users: seq<User>, ids: seq<Id>, event: string, payload: Payload): (r: seq<Notification>)
    ensures |r| <= |ids|
    ensures ids == [] ==> r == []
  {
    if |ids| == 0 then []
    else Notify(users, ids[0], event, payload) + Deliveries(users, ids[1..], event, payload)
  }

  /** Exactly the reachable entries of `ids` are notified, each with the same
      event and payload. */
  lemma {:induction false} DeliveriesTargets(users: seq<User>, ids: seq<Id>, event: string, payload: Payload)
    ensures forall n :: n in Deliveries(users, ids, event, payload) <==>
      n.event == event && n.payload == payload &&
      exists k :: 0 <= k < |ids| && SocketOf(users, ids[k]) == Some(n.target)
  {
    if |ids| > 0 {
      DeliveriesTargets(users, ids[1..], event, payload);
      assert forall k :: 1 <= k < |ids| ==> ids[k] == ids[1..][k - 1];
      forall n: Notification | n.event == event && n.payload == payload &&
                 exists k :: 0 <= k < |ids| && SocketOf(users, ids[k]) == Some(n.target)
        ensures n in Deliveries(users, ids, event, payload)
      {
        var k :| 0 <= k < |ids| && SocketOf(users, ids[k]) == Some(n.target);
        if k > 0 {
          assert ids[1..][k - 1] == ids[k];
        }
      }
    }
  }

  lemma {:induction false} DeliveriesAppend(users: seq<User>, a: seq<Id>, b: seq<Id>, event: string, payload: Payload)
    ensures Deliveries(users, a + b, event, payload) == Deliveries(users, a, event, payload) + Deliveries(users, b, event, payload)
  {
    if |a| == 0 {
      assert a + b == b;
    } else {
      assert (a + b)[0] == a[0];
      assert (a + b)[1..] == a[1..] + b;
      DeliveriesAppend(users, a[1..], b, event, payload);
    }
  }

  /** The participant entries whose id differs from the sender's. */
  function Others(participants: seq<Id>, from: Id): (r: seq<Id>)
    ensures forall p :: p in r <==> p in participants && p != from
  {
    Keep(participants, (p: Id) => p != from)
  }

  lemma OthersSnoc(ps: seq<Id>, p: Id, from: Id)
    ensures Others(ps + [p], from) == Others(ps, from) + (if p != from then [p] else [])
  {
    KeepAppend(ps, [p], (q: Id) => q != from);
    assert [p][1..] == [];
  }

  lemma DeliveriesSnoc(users: seq<User>, ids: seq<Id>, id: Id, event: string, payload: Payload)
    ensures Deliveries(users, ids + [id], event, payload) == Deliveries(users, ids, event, payload) + Notify(users, id, event, payload)
  {
    DeliveriesAppend(users, ids, [id], event, payload);
    assert [id][1..] == [];
  }

  /** One more participant entry adds its delivery, unless it is the sender. */
  lemma FanOutStep(users: seq<User>, participants: seq<Id>, i: nat, from: Id, payload: Payload)
    requires i < |participants|
    ensures Deliveries(users, Others(participants[..i + 1], from), "new_message", payload) ==
      Deliveries(users, Others(participants[..i], from), "new_message", payload) +
      (if participants[i] != from then Notify(users, participants[i], "new_message", payload) else [])
  {
    var p := participants[i];
    assert participants[..i + 1] == participants[..i] + [p];
    OthersSnoc(participants[..i], p, from);
    if p != from {
      DeliveriesSnoc(users, Others(participants[..i], from), p, "new_message", payload);
    } else {
      assert Others(participants[..i + 1], from) == Others(participants[..i], from);
    }
  }

  /** The `forEach` over a group's participants in `group_message`: one
      `new_message` per participant entry other than the sender. */
  method FanOut(users: seq<User>, participants: seq<Id>, from: Id, payload: Payload) returns (notes: seq<Notification>)
    ensures notes == Deliveries(users, Others(participants, from), "new_message", payload)
  {
    notes := [];
    var i := 0;
    while i < |participants|
      invariant 0 <= i <= |participants|
      invariant notes == Deliveries(users, Others(participants[..i], from), "new_message", payload)
    {
      FanOutStep(users, participants, i, from, payload);
      if participants[i] != from {
        notes := notes + Notify(users, participants[i], "new_message", payload);
      }
      i := i + 1;
    }
    assert participants[..i] == participants;
  }

  /** The query `participants: { $size: 2, $all: [a, b] }`. */
  predicate IsPair(participants: seq<Id>, a: Id, b: Id)
  {
    |participants| == 2 && a in participants && b in participants
  }

  /** For two distinct users the query matches exactly the lists [a, b] and
      [b, a]; for one user asked twice it matches any two-entry list holding
      that user. */
  lemma IsPairExactly(participants: seq<Id>, a: Id, b: Id)
    ensures IsPair(participants, a, b) <==>
      |participants| == 2 &&
      (participants == [a, b] || participants == [b, a] || (a == b && a in participants))
  {
    if |participants| == 2 && a in participants && b in participants && a != b {
      assert participants == [participants[0], participants[1]];
    }
  }

  /** The direct conversation `start_conversation` finds for `to` and `from`:
      the first whose participants are exactly the pair; none when no
      conversation's are. */
  function FindDirect(directs: seq<DirectConversation>, to: Id, from: Id): (r: Option<nat>)
    ensures r.Some? ==> r.value < |directs| && IsPair(directs[r.value].participants, to, from)
    ensures r.Some? ==> forall j :: 0 <= j < r.value ==> !IsPair(directs[j].participants, to, from)
    ensures r.None? <==> forall c :: c in directs ==> !IsPair(c.participants, to, from)
  {
    var r := FirstIndex(directs, IsPairChat(to, from));
    assert r.None? ==> forall c :: c in directs ==> !IsPairChat(to, from)(c);
    r
  }

  function IsPairChat(to: Id, from: Id): DirectConversation -> bool
  {
    (c: DirectConversation) => IsPair(c.participants, to, from)
  }

  function DirectIndex(directs: seq<DirectConversation>, id: Id): Option<nat>
  {
    FirstIndex(directs, DirectIdIs(id))
  }

  function DirectIdIs(id: Id): DirectConversation -> bool
  {
    (c: DirectConversation) => c.id == id
  }

  function GroupIndex(groups: seq<GroupChat>, id: Id): Option<nat>
  {
    FirstIndex(groups, GroupIdIs(id))
  }

  function GroupIdIs(id: Id): GroupChat -> bool
  {
    (g: GroupChat) => g.id == id
  }

  function RequestIndex(requests: seq<FriendRequest>, id: Id): Option<nat>
  {
    FirstIndex(requests, (q: FriendRequest) => q.id == id)
  }

  /** The call log the signalling handlers update: the first whose participants
      are the pair and whose kind matches, whatever its status. */
  function FindCallLog(logs: seq<CallLog>, to: Id, from: Id, kind: CallType): (r: Option<nat>)
    ensures r.Some? ==> r.value < |logs|
    ensures r.Some? ==> IsPair(logs[r.value].participants, to, from) && logs[r.value].callType == kind
    ensures r.Some? ==> forall j :: 0 <= j < r.value ==>
      !(IsPair(logs[j].participants, to, from) && logs[j].callType == kind)
    ensures r.None? <==> forall l :: l in logs ==> !(IsPair(l.participants, to, from) && l.callType == kind)
  {
    var r := FirstIndex(logs, LogMatches(to, from, kind));
    assert r.None? ==> forall l :: l in logs ==> !LogMatches(to, from, kind)(l);
    r
  }

  function LogMatches(to: Id, from: Id, kind: CallType): CallLog -> bool
  {
    (l: CallLog) => IsPair(l.participants, to, from) && l.callType == kind
  }

  /** The update `connect` applies to the user. */
  function GoOnline(socket: SocketId): User -> User
  {
    (u: User) => u.(socketId := Some(socket), status := Some(Online))
  }

  /** The update `end` applies to the user. */
  function GoOffline(): User -> User
  {
    (u: User) => u.(status := Some(Offline))
  }

  /** The `friends.push(friend)` `accept_request` applies to each side. */
  function AddFriend(friend: Id): User -> User
  {
    (u: User) => u.(friends := u.friends + [friend])
  }

  /** JavaScript truthiness of the `user_id` a connection or `end` event
      carries: present and not the empty string. */
  predicate Truthy(userId: Option<string>)
  {
    userId.Some? && userId.value != ""
  }

  /** `chat.messages.push(m)`, then the summary copied from the last element. */
  function WithMessage(c: DirectConversation, m: Message, dateText: Time -> string): (r: DirectConversation)
    ensures r.id == c.id && r.participants == c.participants
    ensures r.messages == c.messages + [m]
    ensures SummaryAgrees(r.messages, r.summary, dateText)
  {
    var messages := c.messages + [m];
    c.(messages := messages, summary := SummaryOf(messages[|messages| - 1], dateText))
  }

  /** The same append and summary update on a group chat. */
  function GroupWithMessage(g: GroupChat, m: Message, dateText: Time -> string): (r: GroupChat)
    ensures r.id == g.id && r.participants == g.participants && r.groupName == g.groupName && r.avatar == g.avatar
    ensures r.messages == g.messages + [m]
    ensures SummaryAgrees(r.messages, r.summary, dateText)
  {
    var messages := g.messages + [m];
    g.(messages := messages, summary := SummaryOf(messages[|messages| - 1], dateText))
  }

  /** The message a handler builds for `from`, with the sender's display fields. */
  function BuildMessage(sender: User, to: Option<Id>, kind: Option<MessageType>, now: Time, text: Option<string>): (m: Message)
    ensures m.from == sender.id && m.to == to && m.kind == kind && m.text == text
    ensures m.fromName == sender.firstName + " " + sender.lastName && m.fromImg == sender.avatar
    ensures m.createdAt == now && m.file.None?
  {
    Message(to, sender.id, FullName(sender), sender.avatar, kind, now, text, None)
  }

  /** The avatar URL `start_group` gives a new group. */
  function GroupAvatar(name: string): string
  {
    "https://ui-avatars.com/api/?rounded=true&format=svg&bold=true&name=" + name
  }

  /** The call-signalling events. */
  datatype CallSignal = NotPicked | CallAccepted | CallDenied | UserBusy

  /** The verdict each signal writes: not-picked is Missed, busy is Busy. */
  function SignalVerdict(sig: CallSignal): (v: Verdict)
    ensures v == Accepted <==> sig == CallAccepted
    ensures v == Denied <==> sig == CallDenied
    ensures v == Missed <==> sig == NotPicked
    ensures v == Busy <==> sig == UserBusy
  {
    match sig
    case NotPicked => Missed
    case CallAccepted => Accepted
    case CallDenied => Denied
    case UserBusy => Busy
  }

  /** The user a signalling handler notifies: the callee (`to`) for not-picked,
      the caller (`from`) otherwise. */
  function SignalTarget(sig: CallSignal, to: Id, from: Id): (r: Id)
    ensures sig == NotPicked ==> r == to
    ensures sig != NotPicked ==> r == from
    ensures r == to || r == from
  {
    if sig == NotPicked then to else from
  }

  /** The event a signalling handler emits: it names the call kind, and
      each signal has its own wording. */
  function CallEventName(kind: CallType, sig: CallSignal): (e: string)
    ensures sig == NotPicked ==> e == CallTypeName(kind) + "_call_missed"
    ensures sig == CallAccepted ==> e == CallTypeName(kind) + "_call_accepted"
    ensures sig == CallDenied ==> e == CallTypeName(kind) + "_call_denied"
    ensures sig == UserBusy ==> e == "on_another_" + CallTypeName(kind) + "_call"
    ensures sig != UserBusy ==> CallTypeName(kind) <= e
  {
    match sig
    case NotPicked => CallTypeName(kind) + "_call_missed"
    case CallAccepted => CallTypeName(kind) + "_call_accepted"
    case CallDenied => CallTypeName(kind) + "_call_denied"
    case UserBusy => "on_another_" + CallTypeName(kind) + "_call"
  }

  /** The eight signalling handlers emit eight different events, so the
      event alone tells a client which handler ran and for which call kind. */
  lemma CallEventNamesDistinct(k1: CallType, s1: CallSignal, k2: CallType, s2: CallSignal)
    requires CallEventName(k1, s1) == CallEventName(k2, s2)
    ensures k1 == k2 && s1 == s2
  {
    var e := CallEventName(k1, s1);
    assert e[0] == 'o' <==> s1 == UserBusy;
    assert CallEventName(k2, s2)[0] == 'o' <==> s2 == UserBusy;
    if s1 == UserBusy {
      assert e[11] == CallTypeName(k1)[0];
      assert CallEventName(k2, s2)[11] == CallTypeName(k2)[0];
    } else {
      assert e[0] == CallTypeName(k1)[0];
      assert CallEventName(k2, s2)[0] == CallTypeName(k2)[0];
      assert e[11] == CallEventName(k2, s2)[11];
    }
  }

  /** A call log's verdict and status agree: no verdict yet means the call is
      still ongoing, and a missed, denied or busy call has ended. */
  predicate LogConsistent(l: CallLog)
  {
    (l.verdict.None? ==> l.status == Ongoing) &&
    (l.verdict.Some? && l.verdict.value != Accepted ==> l.status == Ended)
  }

  /** The update document a signalling handler applies to the matched log. */
  function ApplySignal(l: CallLog, sig: CallSignal): (r: CallLog)
    ensures r.verdict == Some(SignalVerdict(sig))
    ensures r.verdict == Some(Accepted) <==> sig == CallAccepted
    ensures sig == CallAccepted ==> r == l.(verdict := Some(Accepted))
    ensures sig != CallAccepted ==> r == l.(verdict := Some(SignalVerdict(sig)), status := Ended)
    ensures r.status == Ongoing ==> sig == CallAccepted && l.status == Ongoing
    ensures LogConsistent(l) ==> LogConsistent(r)
    ensures r.id == l.id && r.callType == l.callType && r.participants == l.participants
    ensures r.from == l.from && r.to == l.to && r.startTime == l.startTime && r.endTime == l.endTime
  {
    if sig == CallAccepted then l.(verdict := Some(Accepted))
    else l.(verdict := Some(SignalVerdict(sig)), status := Ended)
  }

  ghost predicate DirectValid(c: DirectConversation, dateText: Time -> string)
  {
    SummaryAgrees(c.messages, c.summary, dateText) &&
    forall m :: m in c.messages ==> m.to.Some?
  }

  ghost predicate GroupValid(g: GroupChat, dateText: Time -> string)
  {
    SummaryAgrees(g.messages, g.summary, dateText) && g.groupName != "" &&
    forall m :: m in g.messages ==> m.to.None?
  }

  ghost predicate LogValid(l: CallLog)
  {
    LogConsistent(l) && l.participants == [l.from, l.to]
  }

  /** Request ids are distinct. */
  ghost predicate RequestsValid(requests: seq<FriendRequest>)
  {
    forall i, j :: 0 <= i < j < |requests| ==> requests[i].id != requests[j].id
  }

  /** Deleting the request with a given id from requests with distinct ids
      keeps the ids distinct and leaves no request with that id. */
  lemma DeleteRequest(requests: seq<FriendRequest>, id: Id, i: nat)
    requires RequestsValid(requests)
    requires RequestIndex(requests, id) == Some(i)
    ensures RequestsValid(RemoveAt(requests, i))
    ensures RequestIndex(RemoveAt(requests, i), id).None?
  {
    var r := RemoveAt(requests, i);
    forall j | 0 <= j < |r|
      ensures r[j].id != id
    {
      if j < i {
        assert r[j] == requests[j];
      } else {
        assert r[j] == requests[j + 1];
      }
    }
  }

  /** Conversation ids are distinct, and every conversation is valid. */
  ghost predicate DirectsValid(directs: seq<DirectConversation>, dateText: Time -> string)
  {
    (forall i, j :: 0 <= i < j < |directs| ==> directs[i].id != directs[j].id) &&
    (forall i :: 0 <= i < |directs| ==> DirectValid(directs[i], dateText))
  }

  /** Group ids are distinct, and every group is valid. */
  ghost predicate GroupsValid(groups: seq<GroupChat>, dateText: Time -> string)
  {
    (forall i, j :: 0 <= i < j < |groups| ==> groups[i].id != groups[j].id) &&
    (forall i :: 0 <= i < |groups| ==> GroupValid(groups[i], dateText))
  }

  /** Replacing a conversation by a valid one with the same id keeps the
      collection valid. */
  lemma ReplaceDirect(directs: seq<DirectConversation>, i: nat, c: DirectConversation, dateText: Time -> string)
    requires DirectsValid(directs, dateText) && i < |directs|
    requires c.id == directs[i].id && DirectValid(c, dateText)
    ensures DirectsValid(directs[i := c], dateText)
  {
  }

  /** Replacing a group by a valid one with the same id keeps the collection
      valid. */
  lemma ReplaceGroup(groups: seq<GroupChat>, i: nat, g: GroupChat, dateText: Time -> string)
    requires GroupsValid(groups, dateText) && i < |groups|
    requires g.id == groups[i].id && GroupValid(g, dateText)
    ensures GroupsValid(groups[i := g], dateText)
  {
  }

  /** Call-log ids are distinct, and every log is valid. */
  ghost predicate LogsValid(logs: seq<CallLog>)
  {
    (forall i, j :: 0 <= i < j < |logs| ==> logs[i].id != logs[j].id) &&
    (forall i :: 0 <= i < |logs| ==> LogValid(logs[i]))
  }

  class Store {
    var users: seq<User>
    var requests: seq<FriendRequest>
    var directs: seq<DirectConversation>
    var groups: seq<GroupChat>
    var callLogs: seq<CallLog>
    /** How the runtime casts a `Date` to the string stored in `lastMsgTime`. */
    const dateText: Time -> string

    ghost predicate Valid()
      reads this
    {
      RequestsValid(requests) && DirectsValid(directs, dateText) &&
      GroupsValid(groups, dateText) && LogsValid(callLogs)
    }

    /** A store holding the registered users and nothing else. */
    constructor (initialUsers: seq<User>, dateText: Time -> string)
      ensures Valid()
      ensures users == initialUsers && requests == [] && directs == [] && groups == [] && callLogs == []
      ensures this.dateText == dateText
    {
      users, requests, directs, groups, callLogs := initialUsers, [], [], [], [];
      this.dateText := dateText;
    }

    // ---------------------------------------------------------------- presence

    /** A connection with `user_id` in its handshake: when the id is truthy,
        the user's `socket_id` becomes this socket and its status Online. */
    method Connect(userId: Option<string>, socket: SocketId)
      requires Valid()
      modifies this
      ensures Valid()
      ensures requests == old(requests) && directs == old(directs) && groups == old(groups) && callLogs == old(callLogs)
      ensures users == if Truthy(userId)
        then UpdateUser(old(users), userId.value, GoOnline(socket))
        else old(users)
      ensures Truthy(userId) && FindUser(old(users), userId.value).Some? ==>
        FindUser(users, userId.value) == Some(FindUser(old(users), userId.value).value.(socketId := Some(socket), status := Some(Online)))
    {
      if userId.Some? && userId.value != "" {
        users := UpdateUser(users, userId.value, GoOnline(socket));
      }
    }

    /** The `end` event: when `user_id` is truthy the user's status becomes
        Offline; `socket_id` is left as it was. */
    method End(userId: Option<string>)
      requires Valid()
      modifies this
      ensures Valid()
      ensures requests == old(requests) && directs == old(directs) && groups == old(groups) && callLogs == old(callLogs)
      ensures users == if Truthy(userId)
        then UpdateUser(old(users), userId.value, GoOffline())
        else old(users)
      ensures Truthy(userId) && FindUser(old(users), userId.value).Some? ==>
        FindUser(users, userId.value) == Some(FindUser(old(users), userId.value).value.(status := Some(Offline)))
    {
      if userId.Some? && userId.value != "" {
        users := UpdateUser(users, userId.value, GoOffline());
      }
    }

    // --------------------------------------------------------- friend requests

    /** `friend_request`: records a request from `from` to `to` (with no check
        for an existing one) and notifies `to`, then `from`. */
    method SendFriendRequest(from: Id, to: Id, newId: Id) returns (notes: seq<Notification>)
      requires Valid()
      requires forall q :: q in requests ==> q.id != newId
      modifies this
      ensures Valid()
      ensures users == old(users) && directs == old(directs) && groups == old(groups) && callLogs == old(callLogs)
      ensures requests == old(requests) + [FriendRequest(newId, from, to)]
      ensures notes == Notify(users, to, "new_friend_request", Notice("New friend request received"))
                     + Notify(users, from, "request_sent", Notice("Request Sent successfully!"))
    {
      requests := requests + [FriendRequest(newId, from, to)];
      notes := Notify(users, to, "new_friend_request", Notice("New friend request received"))
             + Notify(users, from, "request_sent", Notice("Request Sent successfully!"));
    }

    /** `accept_request`: appends the sender to the recipient's friends and the
        recipient to the sender's (in that save order), deletes the request and
        notifies the sender, then the recipient. A missing request, sender or
        recipient stops the handler before anything is written. */
    method AcceptRequest(requestId: Id) returns (r: Result<seq<Notification>, Error>)
      requires Valid()
      modifies this
      ensures Valid()
      ensures directs == old(directs) && groups == old(groups) && callLogs == old(callLogs)
      ensures r.Failure? ==> r.error == NotFound && users == old(users) && requests == old(requests)
      ensures r.Failure? <==>
        RequestIndex(old(requests), requestId).None? ||
        FindUser(old(users), old(requests)[RequestIndex(old(requests), requestId).value].sender).None? ||
        FindUser(old(users), old(requests)[RequestIndex(old(requests), requestId).value].recipient).None?
      ensures r.Success? ==>
        var i := RequestIndex(old(requests), requestId).value;
        var q := old(requests)[i];
        users == UpdateUser(UpdateUser(old(users), q.recipient, AddFriend(q.sender)),
                            q.sender, AddFriend(q.recipient)) &&
        requests == RemoveAt(old(requests), i) && RequestIndex(requests, requestId).None? &&
        r.value == Notify(old(users), q.sender, "request_accepted", Notice("Friend Request Accepted"))
                 + Notify(old(users), q.recipient, "request_accepted", Notice("Friend Request Accepted"))
    {
      var found := RequestIndex(requests, requestId);
      if found.None? {
        return Failure(NotFound);
      }
      var i := found.value;
      var q := requests[i];
      if FindUser(users, q.sender).None? || FindUser(users, q.recipient).None? {
        return Failure(NotFound);
      }
      DeleteRequest(requests, requestId, i);
      var before := users;
      users := UpdateUser(users, q.recipient, AddFriend(q.sender));
      users := UpdateUser(users, q.sender, AddFriend(q.recipient));
      requests := RemoveAt(requests, i);
      r := Success(Notify(before, q.sender, "request_accepted", Notice("Friend Request Accepted"))
                  + Notify(before, q.recipient, "request_accepted", Notice("Friend Request Accepted")));
    }

    // ----------------------------------------------------------- conversations

    /** `get_direct_conversations`: the direct conversations `userId` takes part in. */
    function DirectConversationsOf(userId: Id): (r: seq<DirectConversation>)
      reads this
      ensures forall c :: c in r <==> c in directs && userId in c.participants
    {
      Keep(directs, (c: DirectConversation) => userId in c.participants)
    }

    /** `get_group_conversations`: the group chats `userId` takes part in. */
    function GroupConversationsOf(userId: Id): (r: seq<GroupChat>)
      reads this
      ensures forall g :: g in r <==> g in groups && userId in g.participants
    {
      Keep(groups, (g: GroupChat) => userId in g.participants)
    }

    /** `start_conversation`: answers the calling socket with the first direct
        conversation whose participants are exactly `to` and `from`, creating
        one with participants [to, from] only when there is none. */
    method StartConversation(socket: SocketId, to: Id, from: Id, newId: Id) returns (notes: seq<Notification>)
      requires Valid()
      requires forall c :: c in directs ==> c.id != newId
      modifies this
      ensures Valid()
      ensures users == old(users) && requests == old(requests) && groups == old(groups) && callLogs == old(callLogs)
      ensures FindDirect(old(directs), to, from).Some? ==>
        directs == old(directs) &&
        notes == [Notification(socket, "start_chat", ChatStarted(old(directs)[FindDirect(old(directs), to, from).value]))]
      ensures FindDirect(old(directs), to, from).None? ==>
        directs == old(directs) + [DirectConversation(newId, [to, from], [], NoSummary)] &&
        notes == [Notification(socket, "start_chat", ChatStarted(DirectConversation(newId, [to, from], [], NoSummary)))]
    {
      var found := FindDirect(directs, to, from);
      if found.Some? {
        notes := [Notification(socket, "start_chat", ChatStarted(directs[found.value]))];
      } else {
        var c := DirectConversation(newId, [to, from], [], NoSummary);
        directs := directs + [c];
        notes := [Notification(socket, "start_chat", ChatStarted(c))];
      }
    }

    /** `start_group`: always creates a new group, with the generated avatar,
        and answers only the calling socket. A missing or empty group name fails
        the schema's `required` check and creates nothing. */
    method StartGroup(socket: SocketId, groupName: Option<string>, participants: seq<Id>, newId: Id)
      returns (r: Result<seq<Notification>, Error>)
      requires Valid()
      requires forall g :: g in groups ==> g.id != newId
      modifies this
      ensures Valid()
      ensures users == old(users) && requests == old(requests) && directs == old(directs) && callLogs == old(callLogs)
      ensures r.Failure? <==> groupName.None? || groupName.value == ""
      ensures r.Failure? ==> r.error == ValidationError && groups == old(groups)
      ensures r.Success? ==>
        var g := GroupChat(newId, groupName.value, participants, [], Some(GroupAvatar(groupName.value)), NoSummary);
        groups == old(groups) + [g] && r.value == [Notification(socket, "start_group_chat", GroupStarted(g))]
    {
      if groupName.None? || groupName.value == "" {
        return Failure(ValidationError);
      }
      var g := GroupChat(newId, groupName.value, participants, [], Some(GroupAvatar(groupName.value)), NoSummary);
      groups := groups + [g];
      r := Success([Notification(socket, "start_group_chat", GroupStarted(g))]);
    }

    /** `get_messages`: the messages of a direct conversation when `chat_type`
        is "individual", of a group chat otherwise; none when the id does not
        resolve. */
    function GetMessages(chatType: string, conversationId: Id): (r: Option<seq<Message>>)
      reads this
      ensures chatType == "individual" ==>
        (r.Some? <==> exists c :: c in directs && c.id == conversationId) &&
        (r.Some? ==> exists c :: c in directs && c.id == conversationId && c.messages == r.value)
      ensures chatType != "individual" ==>
        (r.Some? <==> exists g :: g in groups && g.id == conversationId) &&
        (r.Some? ==> exists g :: g in groups && g.id == conversationId && g.messages == r.value)
    {
      if chatType == "individual" then
        match DirectIndex(directs, conversationId)
        case None => None
        case Some(i) => Some(directs[i].messages)
      else
        match GroupIndex(groups, conversationId)
        case None => None
        case Some(i) => Some(groups[i].messages)
    }

    // ---------------------------------------------------------------- messages

    /** `text_message`: appends a message from `from` to `to` to the
        conversation, copies the summary from it, and sends the same
        `new_message` to `to` and then to `from`. A missing sender or
        conversation, or a `type` outside the enum, writes nothing. */
    method TextMessage(conversationId: Id, from: Id, to: Id, text: Option<string>, kind: Option<string>, now: Time)
      returns (r: Result<seq<Notification>, Error>)
      requires Valid()
      modifies this
      ensures Valid()
      ensures users == old(users) && requests == old(requests) && groups == old(groups) && callLogs == old(callLogs)
      ensures r.Failure? ==> directs == old(directs)
      ensures r == Failure(NotFound) <==>
        FindUser(users, from).None? || DirectIndex(old(directs), conversationId).None?
      ensures r == Failure(ValidationError) <==>
        FindUser(users, from).Some? && DirectIndex(old(directs), conversationId).Some? &&
        CheckMessageType(kind).Failure?
      ensures r.Success? ==>
        var i := DirectIndex(old(directs), conversationId).value;
        var m := BuildMessage(FindUser(users, from).value, Some(to), CheckMessageType(kind).value, now, text);
        directs == old(directs)[i := WithMessage(old(directs)[i], m, dateText)] &&
        directs[i].summary == Summary(Some(m.fromName), m.text, Some(dateText(now))) &&
        GetMessages("individual", conversationId) == Some(old(directs)[i].messages + [m]) &&
        r.value == Notify(users, to, "new_message", NewMessage(Individual, conversationId, m))
                 + Notify(users, from, "new_message", NewMessage(Individual, conversationId, m))
    {
      var sender := FindUser(users, from);
      var found := DirectIndex(directs, conversationId);
      if sender.None? || found.None? {
        return Failure(NotFound);
      }
      var checked := CheckMessageType(kind);
      if checked.Failure? {
        return Failure(ValidationError);
      }
      var i := found.value;
      var m := BuildMessage(sender.value, Some(to), checked.value, now, text);
      var c := WithMessage(directs[i], m, dateText);
      assert DirectValid(c, dateText) by {
        assert DirectValid(directs[i], dateText);
        assert forall x :: x in c.messages ==> x in directs[i].messages || x == m;
      }
      FirstIndexAfterUpdate(directs, DirectIdIs(conversationId), i, c);
      ReplaceDirect(directs, i, c, dateText);
      directs := directs[i := c];
      r := Success(Notify(users, to, "new_message", NewMessage(Individual, conversationId, m))
                 + Notify(users, from, "new_message", NewMessage(Individual, conversationId, m)));
    }

    /** `group_message`: appends a message from `from` to the group, copies the
        summary from it, and sends `new_message` to the sender once and then to
        every participant entry whose id differs from the sender's. */
    method GroupMessage(groupId: Id, from: Id, text: Option<string>, kind: Option<string>, now: Time)
      returns (r: Result<seq<Notification>, Error>)
      requires Valid()
      modifies this
      ensures Valid()
      ensures users == old(users) && requests == old(requests) && directs == old(directs) && callLogs == old(callLogs)
      ensures r.Failure? ==> groups == old(groups)
      ensures r == Failure(NotFound) <==>
        FindUser(users, from).None? || GroupIndex(old(groups), groupId).None?
      ensures r == Failure(ValidationError) <==>
        FindUser(users, from).Some? && GroupIndex(old(groups), groupId).Some? &&
        CheckMessageType(kind).Failure?
      ensures r.Success? ==>
        var i := GroupIndex(old(groups), groupId).value;
        var m := BuildMessage(FindUser(users, from).value, None, CheckMessageType(kind).value, now, text);
        var payload := NewMessage(Group, groupId, m);
        groups == old(groups)[i := GroupWithMessage(old(groups)[i], m, dateText)] &&
        groups[i].summary == Summary(Some(m.fromName), m.text, Some(dateText(now))) &&
        GetMessages("group", groupId) == Some(old(groups)[i].messages + [m]) &&
        r.value == Notify(users, from, "new_message", payload)
                 + Deliveries(users, Others(old(groups)[i].participants, from), "new_message", payload)
    {
      var sender := FindUser(users, from);
      var found := GroupIndex(groups, groupId);
      if sender.None? || found.None? {
        return Failure(NotFound);
      }
      var checked := CheckMessageType(kind);
      if checked.Failure? {
        return Failure(ValidationError);
      }
      var i := found.value;
      var m := BuildMessage(sender.value, None, checked.value, now, text);
      var payload := NewMessage(Group, groupId, m);
      var g := GroupWithMessage(groups[i], m, dateText);
      assert GroupValid(g, dateText) by {
        assert GroupValid(groups[i], dateText);
        assert forall x :: x in g.messages ==> x in groups[i].messages || x == m;
      }
      FirstIndexAfterUpdate(groups, GroupIdIs(groupId), i, g);
      ReplaceGroup(groups, i, g, dateText);
      var participants := groups[i].participants;
      groups := groups[i := g];
      var others := FanOut(users, participants, from, payload);
      r := Success(Notify(users, from, "new_message", payload) + others);
    }

    // ------------------------------------------------------------------- calls

    /** `start_audio_call` / `start_video_call`: relays the call to `to`; the
        store is not touched. */
    method RelayCallStart(kind: CallType, from: Id, to: Id, roomId: Id) returns (notes: seq<Notification>)
      ensures notes == Notify(users, to, CallTypeName(kind) + "_call_notification",
                              IncomingCall(FindUser(users, from), roomId, from, to, to))
    {
      notes := Notify(users, to, CallTypeName(kind) + "_call_notification",
                      IncomingCall(FindUser(users, from), roomId, from, to, to));
    }

    /** The not-picked, accepted, denied and busy handlers of both call kinds:
        update the first log for the pair and kind (if any) and notify the
        callee for not-picked, the caller otherwise. */
    method CallSignalEvent(kind: CallType, sig: CallSignal, to: Id, from: Id) returns (notes: seq<Notification>)
      requires Valid()
      modifies this
      ensures Valid()
      ensures users == old(users) && requests == old(requests) && directs == old(directs) && groups == old(groups)
      ensures FindCallLog(old(callLogs), to, from, kind).None? ==> callLogs == old(callLogs)
      ensures FindCallLog(old(callLogs), to, from, kind).Some? ==>
        var i := FindCallLog(old(callLogs), to, from, kind).value;
        callLogs == old(callLogs)[i := ApplySignal(old(callLogs)[i], sig)]
      ensures notes == Notify(users, SignalTarget(sig, to, from), CallEventName(kind, sig), CallParties(from, to))
    {
      var found := FindCallLog(callLogs, to, from, kind);
      if found.Some? {
        var i := found.value;
        callLogs := callLogs[i := ApplySignal(callLogs[i], sig)];
      }
      notes := Notify(users, SignalTarget(sig, to, from), CallEventName(kind, sig), CallParties(from, to));
    }

    /** `CallLog.create` as the call controllers issue it: a log of `kind` from
        `from` to `to`, status Ongoing and no verdict. */
    method CreateCall(kind: CallType, from: Id, to: Id, now: Time, newId: Id) returns (log: CallLog)
      requires Valid()
      requires forall l :: l in callLogs ==> l.id != newId
      modifies this
      ensures Valid()
      ensures users == old(users) && requests == old(requests) && directs == old(directs) && groups == old(groups)
      ensures log == CreateCallLog(newId, kind, [from, to], from, to, now, Some(Ongoing))
      ensures callLogs == old(callLogs) + [log]
    {
      log := CreateCallLog(newId, kind, [from, to], from, to, now, Some(Ongoing));
      callLogs := callLogs + [log];
    }
  }
}
