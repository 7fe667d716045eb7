/** Identifiers, time and the failures a handler can end in. */
module Common {

  /** A record identifier (a MongoDB ObjectId, compared through its hex string). */
  type Id = string

  /** The identifier of a live transport connection (a socket.io socket id). */
  type SocketId = string

  /** Milliseconds since the epoch, as `Date.now()` returns them. */
  type Time = int

  /** Why a handler stopped before writing anything: a record it dereferences
      does not exist, or the schema rejected a field on save. */
  datatype Error = NotFound | ValidationError
}

/** The user and friend-request records as the handlers read and write them.
    models/user.js and models/friendRequest.js are not part of this model: the
    shapes below hold exactly the fields the core reads or writes. */
module Users {
  import opened Seqs
  import opened Common

  datatype Presence = Online | Offline

  datatype User = User(
    id: Id,
    firstName: string,
    lastName: string,
    avatar: Option<string>,
    verified: bool,
    friends: seq<Id>,
    socketId: Option<SocketId>,
    status: Option<Presence>)

  datatype FriendRequest = FriendRequest(id: Id, sender: Id, recipient: Id)

  /** The condition `findById(id)` selects users by. */
  function HasId(id: Id): User -> bool
  {
    (u: User) => u.id == id
  }

  /** Position of the user `findById(id)` returns. */
  function UserIndex(users: seq<User>, id: Id): Option<nat>
  {
    FirstIndex(users, HasId(id))
  }

  /** `User.findById(id)`: the user with that id, or none (the source's `null`). */
  function FindUser(users: seq<User>, id: Id): (r: Option<User>)
    ensures r.Some? ==> r.value in users && r.value.id == id
    ensures r.None? <==> forall u :: u in users ==> u.id != id
  {
    match UserIndex(users, id)
    case None => None
    case Some(i) => Some(users[i])
  }

  /** `findById(id)?.socket_id`: where a notification for `id` is delivered,
      if anywhere. */
  function SocketOf(users: seq<User>, id: Id): (r: Option<SocketId>)
    ensures r.Some? ==> FindUser(users, id).Some? && FindUser(users, id).value.socketId == r
    ensures FindUser(users, id).None? ==> r.None?
    ensures FindUser(users, id).Some? ==> r == FindUser(users, id).value.socketId
  {
    match FindUser(users, id)
    case None => None
    case Some(u) => u.socketId
  }

  /** The display name the handlers build as `${firstName} ${lastName}`. */
  function FullName(u: User): string
  {
    u.firstName + " " + u.lastName
  }

  /** `User.findByIdAndUpdate(id, ...)` and `findById` followed by `save`:
      rewrites the user with that id by `f`; with no such user nothing changes. */
  function UpdateUser(users: seq<User>, id: Id, f: User -> User): (r: seq<User>)
    requires forall u :: f(u).id == u.id
    ensures |r| == |users|
    ensures FindUser(r, id) == (match FindUser(users, id) case None => None case Some(u) => Some(f(u)))
    ensures forall x :: x != id ==> FindUser(r, x) == FindUser(users, x)
  {
    match UserIndex(users, id)
    case None => users
    case Some(i) =>
      UpdateAtFirstMatch(users, id, i, f(users[i]));
      users[i := f(users[i])]
  }

  /** Rewriting the user at the first match for `id` by a record with the same
      id is seen by a lookup of `id` and by no lookup of another id. */
  lemma UpdateAtFirstMatch(users: seq<User>, id: Id, i: nat, v: User)
    requires UserIndex(users, id) == Some(i)
    requires v.id == id
    ensures FindUser(users[i := v], id) == Some(v)
    ensures forall x :: x != id ==> FindUser(users[i := v], x) == FindUser(users, x)
  {
    FirstIndexAfterUpdate(users, HasId(id), i, v);
    forall x | x != id
      ensures FindUser(users[i := v], x) == FindUser(users, x)
    {
      FirstIndexUnaffected(users, HasId(x), i, v);
    }
  }
}
