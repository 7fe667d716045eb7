/** The parts of controllers/userController.js that shape records: the two
    user listings, the creation of a call log when a call starts, and the
    per-log classification of the call history. */
module UserController {
  import opened Seqs
  import opened Common
  import opened Users
  import opened CallLogSchema
  import opened Server
  import ServerProperties

  /** A friend request from `sender` to `recipient` is on record. */
  predicate HasRequest(requests: seq<FriendRequest>, sender: Id, recipient: Id)
  {
    exists q :: q in requests && q.sender == sender && q.recipient == recipient
  }

  /** `User.find({ verified: true })`, in store order. */
  function VerifiedUsers(users: seq<User>): (r: seq<User>)
    ensures forall u :: u in r <==> u in users && u.verified
  {
    Keep(users, (u: User) => u.verified)
  }

  /** The senders of the requests received by `me` (`receivedRequests.map(sender)`). */
  function RequestSenders(requests: seq<FriendRequest>, me: Id): (r: seq<Id>)
    ensures forall x :: x in r <==> HasRequest(requests, x, me)
  {
    if |requests| == 0 then []
    else
      var rest := RequestSenders(requests[1..], me);
      assert forall q :: q in requests[1..] ==> q in requests;
      assert forall q :: q in requests ==> q == requests[0] || q in requests[1..];
      (if requests[0].recipient == me then [requests[0].sender] else []) + rest
  }

  /** The recipients of the requests sent by `me` (`sentRequests.map(recipient)`). */
  function RequestRecipients(requests: seq<FriendRequest>, me: Id): (r: seq<Id>)
    ensures forall x :: x in r <==> HasRequest(requests, me, x)
  {
    if |requests| == 0 then []
    else
      var rest := RequestRecipients(requests[1..], me);
      assert forall q :: q in requests[1..] ==> q in requests;
      assert forall q :: q in requests ==> q == requests[0] || q in requests[1..];
      (if requests[0].sender == me then [requests[0].recipient] else []) + rest
  }

  /** `getUsers`: the verified users `me` could send a friend request to: not
      a friend, not `me`, and with no request on record in either direction. */
  function GetUsers(users: seq<User>, requests: seq<FriendRequest>, me: User): (r: seq<User>)
    ensures forall u :: u in r <==>
      u in users && u.verified && u.id !in me.friends && u.id != me.id &&
      !HasRequest(requests, u.id, me.id) && !HasRequest(requests, me.id, u.id)
  {
    var senders := RequestSenders(requests, me.id);
    var recipients := RequestRecipients(requests, me.id);
    Keep(VerifiedUsers(users), (u: User) =>
      u.id !in me.friends && u.id != me.id && u.id !in senders && u.id !in recipients)
  }

  /** `getAllVerifiedUsers`: every verified user except `me`. */
  function GetAllVerifiedUsers(users: seq<User>, me: Id): (r: seq<User>)
    ensures forall u :: u in r <==> u in users && u.verified && u.id != me
  {
    Keep(VerifiedUsers(users), (u: User) => u.id != me)
  }

  /** Both listings keep the store's order: listing two stretches of users is
      listing each and concatenating. */
  lemma ListingsKeepOrder(a: seq<User>, b: seq<User>, requests: seq<FriendRequest>, me: User)
    ensures GetUsers(a + b, requests, me) == GetUsers(a, requests, me) + GetUsers(b, requests, me)
    ensures GetAllVerifiedUsers(a + b, me.id) == GetAllVerifiedUsers(a, me.id) + GetAllVerifiedUsers(b, me.id)
  {
    KeepAppend(a, b, (u: User) => u.verified);
    var senders := RequestSenders(requests, me.id);
    var recipients := RequestRecipients(requests, me.id);
    KeepAppend(VerifiedUsers(a), VerifiedUsers(b), (u: User) =>
      u.id !in me.friends && u.id != me.id && u.id !in senders && u.id !in recipients);
    KeepAppend(VerifiedUsers(a), VerifiedUsers(b), (u: User) => u.id != me.id);
  }

  /** Once `from` has sent `to` a request, neither is offered to the other by
      `getUsers`. */
  lemma RequestHidesBothWays(users: seq<User>, requests: seq<FriendRequest>, id: Id, from: User, to: User)
    ensures var after := requests + [FriendRequest(id, from.id, to.id)];
      to !in GetUsers(users, after, from) && from !in GetUsers(users, after, to)
  {
    var after := requests + [FriendRequest(id, from.id, to.id)];
    assert FriendRequest(id, from.id, to.id) in after;
    assert HasRequest(after, from.id, to.id);
  }

  /** Once `accept_request` has run between two users, neither is offered to
      the other by `getUsers`, whatever requests remain. */
  lemma AcceptedFriendsHidden(users: seq<User>, requests: seq<FriendRequest>, s: Id, t: Id)
    requires FindUser(users, s).Some? && FindUser(users, t).Some? && s != t
    ensures var after := UpdateUser(UpdateUser(users, t, AddFriend(s)), s, AddFriend(t));
      FindUser(after, s).Some? && FindUser(after, t).Some? &&
      (forall u: User :: u.id == t ==> u !in GetUsers(after, requests, FindUser(after, s).value)) &&
      (forall u: User :: u.id == s ==> u !in GetUsers(after, requests, FindUser(after, t).value))
  {
    ServerProperties.AcceptMakesFriends(users, s, t);
  }

  /** The answer to a call start: the callee's record (sent under the key
      `from`), the room id (the new log's id), `streamID` = `to`, `userID` =
      `from`, and the caller's display name. */
  datatype CallInvitation = CallInvitation(callee: Option<User>, roomId: Id, streamId: Id, userId: Id, userName: string)

  /** `startAudioCall` / `startVideoCall`: creates one call log of `kind` from
      `from` to `to`, Ongoing and with no verdict, and answers with its id as the
      room id. The log is created before the caller's name is read, so a missing
      caller leaves the log in place and fails only the answer. */
  method StartCall(store: Store, kind: CallType, from: Id, to: Id, now: Time, newId: Id) returns (r: Option<CallInvitation>)
    requires store.Valid()
    requires forall l :: l in store.callLogs ==> l.id != newId
    modifies store
    ensures store.Valid()
    ensures store.users == old(store.users) && store.requests == old(store.requests)
    ensures store.directs == old(store.directs) && store.groups == old(store.groups)
    ensures store.callLogs == old(store.callLogs) + [CreateCallLog(newId, kind, [from, to], from, to, now, Some(Ongoing))]
    ensures var l := store.callLogs[|store.callLogs| - 1];
      l.status == Ongoing && l.verdict.None? && l.participants == [from, to] && l.callType == kind
    ensures r.Some? <==> FindUser(store.users, from).Some?
    ensures r.Some? ==> r.value == CallInvitation(FindUser(store.users, to), newId, to, from, FullName(FindUser(store.users, from).value))
  {
    var log := store.CreateCall(kind, from, to, now, newId);
    var caller := FindUser(store.users, from);
    if caller.None? {
      return None;
    }
    r := Some(CallInvitation(FindUser(store.users, to), log.id, to, from, FullName(caller.value)));
  }

  /** One formatted entry of `getCallLogs`. The other party is kept as an id;
      its name and avatar come from a populate that is not modelled. */
  datatype CallLogEntry = CallLogEntry(id: Id, other: Id, online: bool, incoming: bool, missed: bool, callType: CallType)

  /** `CallLog.find({ participants: user_id })`. */
  function InvolvedLogs(logs: seq<CallLog>, me: Id): (r: seq<CallLog>)
    ensures forall l :: l in r <==> l in logs && me in l.participants
  {
    Keep(logs, (l: CallLog) => me in l.participants)
  }

  /** How one log reads to `me`: missed unless accepted (an unset verdict
      included), incoming unless `me` placed it, always shown online. */
  function Classify(l: CallLog, me: Id): (e: CallLogEntry)
    ensures e.id == l.id && e.callType == l.callType && e.online
    ensures e.missed <==> l.verdict != Some(Accepted)
    ensures e.incoming <==> l.from != me
    ensures e.incoming ==> e.other == l.from
    ensures !e.incoming ==> e.other == l.to
  {
    var other := if l.from == me then l.to else l.from;
    CallLogEntry(l.id, other, true, l.from != me, l.verdict != Some(Accepted), l.callType)
  }

  /** `getCallLogs`: the logs `me` takes part in, each classified, in store order. */
  function CallLogsOf(logs: seq<CallLog>, me: Id): (r: seq<CallLogEntry>)
    ensures |r| == |InvolvedLogs(logs, me)|
    ensures forall i :: 0 <= i < |r| ==> r[i] == Classify(InvolvedLogs(logs, me)[i], me)
  {
    var involved := InvolvedLogs(logs, me);
    seq(|involved|, i requires 0 <= i < |involved| => Classify(involved[i], me))
  }

  /** A call started from `from` to another user `to` shows in both histories:
      as an outgoing call to `to` for the caller and an incoming call from `from`
      for the callee, both missed until it is accepted. */
  lemma StartedCallReadsFromBothSides(logs: seq<CallLog>, kind: CallType, from: Id, to: Id, now: Time, id: Id)
    requires from != to
    ensures var l := CreateCallLog(id, kind, [from, to], from, to, now, Some(Ongoing));
      l in InvolvedLogs(logs + [l], from) && l in InvolvedLogs(logs + [l], to) &&
      Classify(l, from) == CallLogEntry(id, to, true, false, true, kind) &&
      Classify(l, to) == CallLogEntry(id, from, true, true, true, kind)
  {
  }

  /** After any signal, a log reads as missed to both parties exactly when the
      signal was not an acceptance. */
  lemma MissedAfterSignal(l: CallLog, sig: CallSignal, me: Id)
    ensures Classify(ApplySignal(l, sig), me).missed <==> sig != CallAccepted
  {
  }
}
