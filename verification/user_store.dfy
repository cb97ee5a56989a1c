/** The `User` collection as the handlers use it: records keyed by id, read
    with `findById`, `findOne` and `find`, and written with `findByIdAndUpdate`
    and a document `save`. */
module UserStore {
  import opened Common

  type Id = string

  /** A signed refresh token: bound to the id of the user it was issued for
      (the `_id` that verification decodes) and made unique by a serial. */
  datatype RefreshToken = RefreshToken(subject: Id, serial: nat)

  /** A user record. `password` is the stored hash; `refreshToken` is the one
      refresh token currently accepted for this user, if any. */
  datatype User = User(
    fullName: string,
    email: string,
    mobileNumber: string,
    password: string,
    role: Role,
    refreshToken: Option<RefreshToken>,
    isActive: bool,
    isDeleted: bool)

  /** An update document for `findByIdAndUpdate`: the fields to set. A field
      that is `None` is not part of the update and is left untouched. */
  datatype Patch = Patch(
    fullName: Option<string>,
    email: Option<string>,
    mobileNumber: Option<string>,
    isDeleted: Option<bool>)

  /** `u` with the fields named by `p` set. */
  function Apply(u: User, p: Patch): (v: User)
    ensures v.password == u.password && v.role == u.role && v.refreshToken == u.refreshToken
    ensures v.isActive == u.isActive
    ensures p == Patch(None, None, None, None) ==> v == u
  {
    u.(fullName := if p.fullName.Some? then p.fullName.value else u.fullName,
       email := if p.email.Some? then p.email.value else u.email,
       mobileNumber := if p.mobileNumber.Some? then p.mobileNumber.value else u.mobileNumber,
       isDeleted := if p.isDeleted.Some? then p.isDeleted.value else u.isDeleted)
  }

  /** The store after `findByIdAndUpdate(id, p)`: the record at `id`, if there
      is one, has `p` applied; every other record is as it was. */
  function Patched(docs: map<Id, User>, id: Id, p: Patch): (d: map<Id, User>)
    ensures d.Keys == docs.Keys
    ensures forall k :: k in docs && k != id ==> d[k] == docs[k]
    ensures forall k :: k in docs ==> d[k].refreshToken == docs[k].refreshToken && d[k].role == docs[k].role
  {
    if id in docs then docs[id := Apply(docs[id], p)] else docs
  }

  /** The query of a `find`: `role: {$in: roles}` with equality on both lifecycle flags. */
  datatype Query = Query(roles: set<Role>, isActive: bool, isDeleted: bool)

  predicate Matches(u: User, q: Query)
  {
    u.role in q.roles && u.isActive == q.isActive && u.isDeleted == q.isDeleted
  }

  /** The filter of the login lookup: `{email, isActive: true, isDeleted: false}`. */
  predicate LoginCandidate(u: User, email: string)
  {
    u.email == email && u.isActive && !u.isDeleted
  }

  /** `found` is an acceptable answer of the login `findOne` for `email`: a
      matching record, or nothing when no record matches. */
  predicate FoundOne(docs: map<Id, User>, email: string, found: Option<Id>)
  {
    match found
    case Some(id) => id in docs && LoginCandidate(docs[id], email)
    case None => forall id :: id in docs ==> !LoginCandidate(docs[id], email)
  }

  class UserCollection {
    var docs: map<Id, User>

    constructor (docs: map<Id, User>)
      ensures this.docs == docs
    {
      this.docs := docs;
    }

    /** `findById(id)`: the record, or nothing. */
    function FindById(id: Id): (r: Option<User>)
      reads this
      ensures r.Some? <==> id in docs
      ensures r.Some? ==> r.value == docs[id]
    {
      if id in docs then Some(docs[id]) else None
    }

    /** `find(q)`: every record that matches `q`, and only those. */
    function Find(q: Query): (r: map<Id, User>)
      reads this
      ensures r.Keys <= docs.Keys
      ensures forall id :: id in docs ==> (id in r <==> Matches(docs[id], q))
      ensures forall id :: id in r ==> r[id] == docs[id]
    {
      map id | id in docs && Matches(docs[id], q) :: docs[id]
    }

    /** `findOne({email, isActive: true, isDeleted: false})`: the id of some
        matching record, or nothing when none matches. */
    method FindOne(email: string) returns (found: Option<Id>)
      ensures FoundOne(docs, email, found)
    {
      if exists id :: id in docs && LoginCandidate(docs[id], email) {
        var id :| id in docs && LoginCandidate(docs[id], email);
        found := Some(id);
      } else {
        found := None;
      }
    }

    /** `findByIdAndUpdate(id, p, {new: true})`: applies `p` to the record at
        `id` and returns the updated record, or returns nothing and changes
        nothing when `id` does not resolve. */
    method FindByIdAndUpdate(id: Id, p: Patch) returns (r: Option<User>)
      modifies this
      ensures docs == Patched(old(docs), id, p)
      ensures r.Some? <==> id in old(docs)
      ensures r.Some? ==> r.value == Apply(old(docs)[id], p) == docs[id]
    {
      if id in docs {
        docs := docs[id := Apply(docs[id], p)];
        r := Some(docs[id]);
      } else {
        r := None;
      }
    }

    /** `user.refreshToken = t; user.save()` on a loaded record. */
    method SaveRefreshToken(id: Id, t: RefreshToken)
      requires id in docs
      modifies this
      ensures docs == old(docs)[id := old(docs)[id].(refreshToken := Some(t))]
    {
      docs := docs[id := docs[id].(refreshToken := Some(t))];
    }
  }
}
