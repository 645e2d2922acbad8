/**
 * The User collection. Of the user schema only what the handlers touch is
 * assumed: an id, a name, an email, a password hash, an optional role and a
 * creation stamp.
 */
module UserModel {
  import opened Wrappers
  import opened Tables

  datatype User = User(id: nat, name: string, email: string, password: string, role: Option<string>, createdAt: nat)

  /** A user as `select("-password")` returns it. */
  datatype PublicUser = PublicUser(id: nat, name: string, email: string, role: Option<string>, createdAt: nat)

  function WithoutPassword(u: User): PublicUser {
    PublicUser(u.id, u.name, u.email, u.role, u.createdAt)
  }

  function IdOf(u: User): int { u.id }
  function EmailOf(u: User): string { u.email }
  function StampOf(u: User): int { u.createdAt }

  /** `User.findOne({ email })`: the first user with exactly this email. */
  function FindByEmail(rows: seq<User>, email: string): (r: Option<User>)
    ensures r.Some? ==> r.value in rows && r.value.email == email
    ensures r.None? <==> forall i :: 0 <= i < |rows| ==> rows[i].email != email
  {
    match IndexOf(rows, EmailOf, email)
    case None => None
    case Some(i) => Some(rows[i])
  }

  /** `User.findById(id)`. */
  function FindById(rows: seq<User>, id: nat): (r: Option<User>)
    ensures r.Some? ==> r.value in rows && r.value.id == id
    ensures r.None? <==> forall i :: 0 <= i < |rows| ==> rows[i].id != id
  {
    match IndexOf(rows, IdOf, id)
    case None => None
    case Some(i) => Some(rows[i])
  }

  /** `User.find().sort({ createdAt: -1 })`, assuming stamps grow with insertion. */
  function NewestFirst(rows: seq<User>): seq<User> {
    Reverse(rows)
  }

  function AllWithoutPassword(rows: seq<User>): (r: seq<PublicUser>)
    ensures |r| == |rows|
    ensures forall i :: 0 <= i < |rows| ==> r[i] == WithoutPassword(rows[i])
  {
    if rows == [] then [] else [WithoutPassword(rows[0])] + AllWithoutPassword(rows[1..])
  }

  ghost predicate WellFormed(rows: seq<User>) {
    Increasing(rows, IdOf) && Increasing(rows, StampOf)
  }

  /** The collection as a store that assigns ids and stamps from one clock. */
  class UserCollection {
    var rows: seq<User>
    var clock: nat

    ghost predicate Valid()
      reads this
    {
      && WellFormed(rows)
      && forall i :: 0 <= i < |rows| ==> rows[i].id < clock && rows[i].createdAt < clock
    }

    constructor ()
      ensures Valid() && rows == [] && clock == 0
    {
      rows := [];
      clock := 0;
    }

    /** `User.create(...)`: the new user gets the next id and the next stamp. */
    method Create(name: string, email: string, password: string, role: Option<string>) returns (u: User)
      requires Valid()
      modifies this
      ensures Valid()
      ensures u == User(old(clock), name, email, password, role, old(clock))
      ensures rows == old(rows) + [u] && clock == old(clock) + 1
    {
      u := User(clock, name, email, password, role, clock);
      rows := rows + [u];
      clock := clock + 1;
    }

    /** `User.findByIdAndDelete(id)`: removes the user with that id, if any. */
    method FindByIdAndDelete(id: nat)
      requires Valid()
      modifies this
      ensures Valid() && clock == old(clock)
      ensures IndexOf(old(rows), IdOf, id).None? ==> rows == old(rows)
      ensures IndexOf(old(rows), IdOf, id).Some? ==> rows == RemoveAt(old(rows), IndexOf(old(rows), IdOf, id).value)
      ensures forall u :: u in rows <==> u in old(rows) && u.id != id
    {
      match IndexOf(rows, IdOf, id)
      case None =>
      case Some(i) =>
        RemoveOnlyThat(rows, IdOf, id);
        RemovePreservesIncreasing(rows, i, StampOf);
        rows := RemoveAt(rows, i);
    }
  }
}
