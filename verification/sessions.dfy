/** Sequences of requests against one user store: logins, refreshes, user
    updates and soft deletes, in any order. A refresh token that has been
    rotated out is never accepted again, whatever requests follow. */
module Sessions {
  import opened Common
  import opened UserStore
  import opened Auth
  import UserController

  /** The persistent state the requests share. */
  datatype State = State(docs: map<Id, User>, next: nat)

  /** A request. A login carries the answer `found` that its `findOne`
      lookup gives; a trace is admissible only if that answer is one the
      lookup can give. */
  datatype Request =
    | LoginRequest(email: Option<string>, password: Option<string>, found: Option<Id>)
    | RefreshRequest(header: Option<RefreshToken>, body: Option<RefreshToken>)
    | UpdateRequest(userId: Id, fields: UserController.UpdateBody)
    | DeleteRequest(userId: Id)

  /** The collaborators no request controls: the id check, the password
      check and token verification. */
  datatype Oracles = Oracles(
    isValidObjectId: Id -> bool,
    isPasswordCorrect: (User, string) -> bool,
    verify: RefreshToken -> bool)

  /** The state after one request, or `None` when a login's `found` is not
      an answer its lookup can give. */
  function Handle(s: State, req: Request, o: Oracles): Option<State>
  {
    match req
    case LoginRequest(email, password, found) =>
      if Supplied(email) && Supplied(password) && !FoundOne(s.docs, email.value, found) then None
      else
        var st := Login(s.docs, s.next, email, password, found, o.isPasswordCorrect);
        Some(State(st.docs, st.next))
    case RefreshRequest(header, body) =>
      var st := Refresh(s.docs, s.next, if header.Some? then header else body, o.verify);
      Some(State(st.docs, st.next))
    case UpdateRequest(userId, fields) =>
      if o.isValidObjectId(userId) then Some(State(Patched(s.docs, userId, UserController.UpdatePatch(fields)), s.next))
      else Some(s)
    case DeleteRequest(userId) =>
      if o.isValidObjectId(userId) then Some(State(Patched(s.docs, userId, UserController.DeletePatch), s.next))
      else Some(s)
  }

  /** The state after a sequence of requests, if the trace is admissible. */
  function Run(s: State, reqs: seq<Request>, o: Oracles): Option<State>
    decreases |reqs|
  {
    if reqs == [] then Some(s)
    else match Handle(s, reqs[0], o)
      case None => None
      case Some(s') => Run(s', reqs[1..], o)
  }

  /** `t` has been minted and is not the token stored for its user. */
  predicate Revoked(s: State, t: RefreshToken)
  {
    t.serial < s.next && (t.subject in s.docs ==> s.docs[t.subject].refreshToken != Some(t))
  }

  /** One request keeps the token invariant and keeps a revoked token revoked. */
  lemma HandleKeepsRevoked(s: State, req: Request, o: Oracles, t: RefreshToken)
    requires TokensValid(s.docs, s.next) && Revoked(s, t)
    requires Handle(s, req, o).Some?
    ensures TokensValid(Handle(s, req, o).value.docs, Handle(s, req, o).value.next)
    ensures Revoked(Handle(s, req, o).value, t)
  {
  }

  /** After any admissible trace, a revoked refresh token is still revoked,
      so presenting it fails. */
  lemma {:induction false} RevokedStaysRevoked(s: State, reqs: seq<Request>, o: Oracles, t: RefreshToken)
    requires TokensValid(s.docs, s.next) && Revoked(s, t)
    requires Run(s, reqs, o).Some?
    ensures TokensValid(Run(s, reqs, o).value.docs, Run(s, reqs, o).value.next)
    ensures Revoked(Run(s, reqs, o).value, t)
    ensures Refresh(Run(s, reqs, o).value.docs, Run(s, reqs, o).value.next, Some(t), o.verify).result.Err?
    decreases |reqs|
  {
    if reqs != [] {
      HandleKeepsRevoked(s, reqs[0], o, t);
      RevokedStaysRevoked(Handle(s, reqs[0], o).value, reqs[1..], o, t);
    }
  }

  /** A refresh token that was exchanged once is refused by every later
      refresh, whatever requests come in between. */
  lemma UsedTokenNeverAcceptedAgain(s: State, t: RefreshToken, reqs: seq<Request>, o: Oracles)
    requires TokensValid(s.docs, s.next)
    requires Refresh(s.docs, s.next, Some(t), o.verify).result.Ok?
    requires var st := Refresh(s.docs, s.next, Some(t), o.verify); Run(State(st.docs, st.next), reqs, o).Some?
    ensures var st := Refresh(s.docs, s.next, Some(t), o.verify);
      var final := Run(State(st.docs, st.next), reqs, o).value;
      Refresh(final.docs, final.next, Some(t), o.verify).result.Err?
  {
    var st := Refresh(s.docs, s.next, Some(t), o.verify);
    assert t.serial < s.next;
    assert Revoked(State(st.docs, st.next), t);
    RevokedStaysRevoked(State(st.docs, st.next), reqs, o, t);
  }
}
