/** Properties that relate several handlers of server.js: conversation
    find-or-create is idempotent, accepting a request makes two friends, the
    call-log matching ignores status, and a group message reaches each other
    participant once. */
module ServerProperties {
  import opened Seqs
  import opened Common
  import opened Users
  import opened ChatSchema
  import opened CallLogSchema
  import opened Server

  /** The pair query does not depend on which side is `to` and which `from`. */
  lemma FindDirectSymmetric(directs: seq<DirectConversation>, a: Id, b: Id)
    ensures FindDirect(directs, a, b) == FindDirect(directs, b, a)
  {
    match FindDirect(directs, a, b)
    case None =>
      assert forall j :: 0 <= j < |directs| ==> !IsPair(directs[j].participants, b, a);
    case Some(i) =>
      FirstIndexIs(directs, IsPairChat(b, a), i);
  }

  /** After `start_conversation` created [to, from], the pair query finds the new
      conversation, whichever side asks. */
  lemma FindDirectAfterCreate(directs: seq<DirectConversation>, id: Id, to: Id, from: Id)
    requires FindDirect(directs, to, from).None?
    ensures var c := DirectConversation(id, [to, from], [], NoSummary);
      FindDirect(directs + [c], to, from) == Some(|directs|) &&
      FindDirect(directs + [c], from, to) == Some(|directs|)
  {
    var c := DirectConversation(id, [to, from], [], NoSummary);
    FirstIndexAfterAppend(directs, IsPairChat(to, from), c);
    FindDirectSymmetric(directs + [c], to, from);
  }

  /** Creating a conversation for another pair leaves an existing match of the
      pair query where it was. */
  lemma FindDirectKeptByCreate(directs: seq<DirectConversation>, c: DirectConversation, a: Id, b: Id)
    requires FindDirect(directs, a, b).Some?
    ensures FindDirect(directs + [c], a, b) == FindDirect(directs, a, b)
  {
    FirstIndexKeptByAppend(directs, IsPairChat(a, b), c);
  }

  /** Appending a message changes no conversation's participants, so no answer
      of the pair query either. */
  lemma FindDirectAfterMessage(directs: seq<DirectConversation>, i: nat, c: DirectConversation, a: Id, b: Id)
    requires i < |directs| && c.participants == directs[i].participants
    ensures FindDirect(directs[i := c], a, b) == FindDirect(directs, a, b)
  {
    var p := IsPairChat(a, b);
    match FindDirect(directs, a, b)
    case None =>
      var t := directs[i := c];
      assert forall j :: 0 <= j < |t| ==> !p(t[j]);
    case Some(k) =>
      FirstIndexIs(directs[i := c], p, k);
  }

  /** Two `start_conversation` calls for the same two users, the second with
      the users in the same order or swapped, answer with the same
      conversation, and at most one conversation is created. */
  method StartConversationTwice(store: Store, socket: SocketId, a: Id, b: Id, swapped: bool, id1: Id, id2: Id)
    returns (first: Notification, second: Notification)
    requires store.Valid()
    requires forall c :: c in store.directs ==> c.id != id1 && c.id != id2
    requires id1 != id2
    modifies store
    ensures first.payload.ChatStarted? && second.payload.ChatStarted?
    ensures first.payload.conversation.id == second.payload.conversation.id
    ensures |store.directs| <= |old(store.directs)| + 1
  {
    var notes1 := store.StartConversation(socket, a, b, id1);
    if FindDirect(old(store.directs), a, b).None? {
      FindDirectAfterCreate(old(store.directs), id1, a, b);
    } else {
      FindDirectSymmetric(store.directs, a, b);
    }
    var notes2;
    if swapped {
      notes2 := store.StartConversation(socket, b, a, id2);
    } else {
      notes2 := store.StartConversation(socket, a, b, id2);
    }
    first, second := notes1[0], notes2[0];
  }

  /** `accept_request` between two distinct users appends each to the other's
      friend list exactly once and leaves every other user as it was. */
  lemma AcceptMakesFriends(users: seq<User>, s: Id, t: Id)
    requires FindUser(users, s).Some? && FindUser(users, t).Some? && s != t
    ensures var after := UpdateUser(UpdateUser(users, t, AddFriend(s)),
                                    s, AddFriend(t));
      FindUser(after, s).Some? && FindUser(after, t).Some? &&
      FindUser(after, s).value.friends == FindUser(users, s).value.friends + [t] &&
      FindUser(after, t).value.friends == FindUser(users, t).value.friends + [s] &&
      forall x :: x != s && x != t ==> FindUser(after, x) == FindUser(users, x)
  {
  }

  /** The append is unconditional: a request a user sent to themself adds
      them to their own friends twice. */
  lemma AcceptSelfRequest(users: seq<User>, s: Id)
    requires FindUser(users, s).Some?
    ensures var after := UpdateUser(UpdateUser(users, s, AddFriend(s)),
                                    s, AddFriend(s));
      FindUser(after, s).value.friends == FindUser(users, s).value.friends + [s, s]
  {
  }

  /** A connection followed by `end` leaves the user Offline but still holding
      the socket id of that connection. */
  lemma ConnectThenEnd(users: seq<User>, id: Id, socket: SocketId)
    requires FindUser(users, id).Some?
    ensures var online := UpdateUser(users, id, GoOnline(socket));
      var offline := UpdateUser(online, id, GoOffline());
      FindUser(offline, id).value.status == Some(Offline) &&
      FindUser(offline, id).value.socketId == Some(socket)
  {
  }

  /** Matching has no status filter: with an ended log and a newer ongoing log
      for the same pair and kind, the signal handlers update the ended one. */
  lemma StaleLogMatched(stale: CallLog, current: CallLog, to: Id, from: Id)
    requires stale.participants == [from, to] && current.participants == [from, to]
    requires stale.callType == current.callType
    requires stale.status == Ended && current.status == Ongoing
    ensures FindCallLog([stale, current], to, from, current.callType) == Some(0)
  {
    FirstIndexIs([stale, current], LogMatches(to, from, current.callType), 0);
  }

  /** A second call between the same two users creates a new log, but the
      signalling handlers keep matching the first one: the new call's accept,
      deny, busy or not-picked lands on the older log. */
  lemma NewCallSignalsOldLog(logs: seq<CallLog>, l: CallLog, to: Id, from: Id, kind: CallType)
    requires FindCallLog(logs, to, from, kind).Some?
    ensures FindCallLog(logs + [l], to, from, kind) == FindCallLog(logs, to, from, kind)
    ensures FindCallLog(logs + [l], to, from, kind).value < |logs|
  {
    FirstIndexKeptByAppend(logs, LogMatches(to, from, kind), l);
  }

  /** A later signal overwrites an earlier verdict: a denied call that is then
      accepted reads Accepted while its status stays Ended. */
  lemma VerdictOverwritten(l: CallLog)
    ensures var r := ApplySignal(ApplySignal(l, CallDenied), CallAccepted);
      r.verdict == Some(Accepted) && r.status == Ended && r.endTime == l.endTime
  {
  }

  /** Updating the matched log keeps it the match, so every later signal for
      the same pair and kind lands on the same record. */
  lemma SignalsHitSameLog(logs: seq<CallLog>, to: Id, from: Id, kind: CallType, sig: CallSignal)
    requires FindCallLog(logs, to, from, kind).Some?
    ensures var i := FindCallLog(logs, to, from, kind).value;
      FindCallLog(logs[i := ApplySignal(logs[i], sig)], to, from, kind) == Some(i)
  {
    var i := FindCallLog(logs, to, from, kind).value;
    FirstIndexAfterUpdate(logs, LogMatches(to, from, kind), i, ApplySignal(logs[i], sig));
  }

  /** A group of three distinct reachable users: a message from the first
      reaches the sender once and each of the other two once, in participant
      order. */
  lemma GroupOfThreeFanOut(ua: User, ub: User, uc: User, sa: SocketId, sb: SocketId, sc: SocketId, payload: Payload)
    requires ua.id != ub.id && ua.id != uc.id && ub.id != uc.id
    requires ua.socketId == Some(sa) && ub.socketId == Some(sb) && uc.socketId == Some(sc)
    ensures var users := [ua, ub, uc];
      Notify(users, ua.id, "new_message", payload)
        + Deliveries(users, Others([ua.id, ub.id, uc.id], ua.id), "new_message", payload)
      == [Notification(sa, "new_message", payload), Notification(sb, "new_message", payload),
          Notification(sc, "new_message", payload)]
  {
    var users := [ua, ub, uc];
    SocketsOfThree(ua, ub, uc);
    OthersOfThree(ua.id, ub.id, uc.id);
    var e := "new_message";
    assert [ub.id, uc.id][1..] == [uc.id];
    assert Deliveries(users, [uc.id], e, payload) == [Notification(sc, e, payload)];
  }

  lemma SocketsOfThree(ua: User, ub: User, uc: User)
    requires ua.id != ub.id && ua.id != uc.id && ub.id != uc.id
    ensures SocketOf([ua, ub, uc], ua.id) == ua.socketId
    ensures SocketOf([ua, ub, uc], ub.id) == ub.socketId
    ensures SocketOf([ua, ub, uc], uc.id) == uc.socketId
  {
    var users := [ua, ub, uc];
    FirstIndexIs(users, HasId(ua.id), 0);
    FirstIndexIs(users, HasId(ub.id), 1);
    FirstIndexIs(users, HasId(uc.id), 2);
  }

  lemma OthersOfThree(a: Id, b: Id, c: Id)
    requires a != b && a != c
    ensures Others([a, b, c], a) == [b, c]
  {
    var ps := [a, b, c];
    var p := (q: Id) => q != a;
    assert ps[1..] == [b, c];
    assert ps[1..][1..] == [c];
    assert [c][1..] == [];
    assert Keep([c], p) == [c];
    assert Keep(ps[1..], p) == [b, c];
  }
}
