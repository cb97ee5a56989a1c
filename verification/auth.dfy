/** The token service: login and refresh-token rotation over the `User`
    collection. Signing is abstract: a minted token is a fresh value taken
    from a counter, verification of a presented refresh token (signature and
    expiry) is the parameter `verify`, and the password check is the
    parameter `isPasswordCorrect`. */
module Auth {
  import opened Common
  import opened UserStore

  /** A signed access token, bound to the user's id and role. */
  datatype AccessToken = AccessToken(subject: Id, role: Role, serial: nat)

  datatype TokenPair = TokenPair(accessToken: AccessToken, refreshToken: RefreshToken)

  const TokenGenerationFailed := ApiError(500, "Something went wrong while generating refresh and access token")
  const CredentialsRequired := ApiError(400, "Email and password are required")
  const LoginUserNotFound := ApiError(400, "User not found")
  const InvalidCredentials := ApiError(401, "Invalid credentials")
  const RefreshTokenMissing := ApiError(401, "Unauthorized request, refresh token is missing")
  /** Stands for the message of the verification library's own error. */
  const TokenNotVerified := ApiError(401, "Invalid refresh token signature or expiry")
  const InvalidRefreshToken := ApiError(401, "Invalid refresh token")
  const RefreshTokenUsed := ApiError(401, "Refresh token is expired or used")

  /** The token invariant: each stored refresh token was issued to the user
      that holds it and was minted before the counter's current value, so
      every token minted from now on differs from it. */
  ghost predicate TokensValid(docs: map<Id, User>, next: nat)
  {
    forall id :: id in docs && docs[id].refreshToken.Some? ==>
      docs[id].refreshToken.value.subject == id && docs[id].refreshToken.value.serial < next
  }

  /** What a request leaves behind: its response, the store and the counter. */
  datatype Step = Step(result: Result<TokenPair>, docs: map<Id, User>, next: nat)

  /** A request that answers `e` and changes nothing. */
  function Fail(docs: map<Id, User>, next: nat, e: ApiError): Step
  {
    Step(Err(e), docs, next)
  }

  /** `generateAccessAndRefreshTokens(userId)`: mints a pair for the user and
      overwrites the user's stored refresh token with the new one. */
  function Issue(docs: map<Id, User>, next: nat, userId: Id): (s: Step)
    ensures userId !in docs ==> s == Fail(docs, next, TokenGenerationFailed)
    ensures userId in docs ==> s.result.Ok? && s.next == next + 1
    ensures s.result.Ok? ==> var t := s.result.value.refreshToken;
      && t.subject == userId && t.serial == next
      && s.result.value.accessToken == AccessToken(userId, docs[userId].role, next)
      && s.docs == docs[userId := docs[userId].(refreshToken := Some(t))]
    ensures TokensValid(docs, next) ==> TokensValid(s.docs, s.next)
  {
    if userId !in docs then Fail(docs, next, TokenGenerationFailed)
    else
      var pair := TokenPair(AccessToken(userId, docs[userId].role, next), RefreshToken(userId, next));
      Step(Ok(pair), docs[userId := docs[userId].(refreshToken := Some(pair.refreshToken))], next + 1)
  }

  /** `loginUser`, given the answer `found` of the `findOne` lookup. */
  function Login(docs: map<Id, User>, next: nat, email: Option<string>, password: Option<string>,
                 found: Option<Id>, isPasswordCorrect: (User, string) -> bool): (s: Step)
    requires Supplied(email) && Supplied(password) ==> FoundOne(docs, email.value, found)
    ensures s.result.Err? ==> s.docs == docs && s.next == next
    ensures s.result.Err? ==> s.result.error.statusCode in {400, 401}
    ensures !Supplied(email) || !Supplied(password) ==> s.result == Err(CredentialsRequired)
    ensures Supplied(email) && Supplied(password) && found.None? ==> s.result == Err(LoginUserNotFound)
    ensures (Supplied(email) && Supplied(password) && found.Some?
             && !isPasswordCorrect(docs[found.value], password.value)) ==> s.result == Err(InvalidCredentials)
    ensures s.result.Ok? <==>
      && Supplied(email) && Supplied(password) && found.Some?
      && isPasswordCorrect(docs[found.value], password.value)
    ensures s.result.Ok? ==> var u := found.value;
      && LoginCandidate(docs[u], email.value)
      && s.docs == docs[u := docs[u].(refreshToken := Some(s.result.value.refreshToken))]
      && s.result.value.refreshToken == RefreshToken(u, next)
    ensures TokensValid(docs, next) ==> TokensValid(s.docs, s.next)
  {
    if !Supplied(email) || !Supplied(password) then Fail(docs, next, CredentialsRequired)
    else match found
      case None => Fail(docs, next, LoginUserNotFound)
      case Some(id) =>
        if !isPasswordCorrect(docs[id], password.value) then Fail(docs, next, InvalidCredentials)
        else Issue(docs, next, id)
  }

  /** The `catch` of `refreshAccessToken`: every error raised in its `try`
      becomes a 401 that keeps its message, or says "Invalid refresh token"
      when the message is empty. */
  function As401(e: ApiError): (r: ApiError)
    ensures r.statusCode == 401 && r.message != ""
    ensures e.message != "" ==> r.message == e.message
    ensures e.message == "" ==> r.message == InvalidRefreshToken.message
    ensures e.statusCode == 401 && e.message != "" ==> r == e
  {
    ApiError(401, if e.message != "" then e.message else InvalidRefreshToken.message)
  }

  /** `refreshAccessToken` for the presented token (header first, then body). */
  function Refresh(docs: map<Id, User>, next: nat, presented: Option<RefreshToken>,
                   verify: RefreshToken -> bool): (s: Step)
    ensures s.result.Err? ==> s.docs == docs && s.next == next && s.result.error.statusCode == 401
    ensures presented.None? ==> s.result == Err(RefreshTokenMissing)
    ensures presented.Some? && !verify(presented.value) ==> s.result == Err(TokenNotVerified)
    ensures (presented.Some? && verify(presented.value) && presented.value.subject !in docs)
            ==> s.result == Err(InvalidRefreshToken)
    ensures (presented.Some? && verify(presented.value) && presented.value.subject in docs
             && docs[presented.value.subject].refreshToken != presented) ==> s.result == Err(RefreshTokenUsed)
    ensures s.result.Ok? <==>
      && presented.Some? && verify(presented.value)
      && presented.value.subject in docs
      && docs[presented.value.subject].refreshToken == presented
    ensures s.result.Ok? ==> var u := presented.value.subject;
      && s.result.value.refreshToken == RefreshToken(u, next)
      && s.docs == docs[u := docs[u].(refreshToken := Some(s.result.value.refreshToken))]
    ensures TokensValid(docs, next) ==> TokensValid(s.docs, s.next)
  {
    match presented
    case None => Fail(docs, next, RefreshTokenMissing)
    case Some(t) =>
      var s := RefreshTry(docs, next, t, verify);
      match s.result
      case Err(e) => Fail(docs, next, As401(e))
      case Ok(_) => s
  }

  /** The `try` block of `refreshAccessToken` for a presented token `t`,
      with the errors it raises left as raised. */
  function RefreshTry(docs: map<Id, User>, next: nat, t: RefreshToken, verify: RefreshToken -> bool): (s: Step)
    ensures s.result.Err? ==> s.docs == docs && s.next == next
    ensures !verify(t) ==> s.result == Err(TokenNotVerified)
    ensures verify(t) && t.subject !in docs ==> s.result == Err(InvalidRefreshToken)
    ensures (verify(t) && t.subject in docs && docs[t.subject].refreshToken != Some(t))
            ==> s.result == Err(RefreshTokenUsed)
    ensures s.result.Ok? <==> verify(t) && t.subject in docs && docs[t.subject].refreshToken == Some(t)
    ensures s.result.Ok? ==>
      && s.result.value.refreshToken == RefreshToken(t.subject, next)
      && s.docs == docs[t.subject := docs[t.subject].(refreshToken := Some(s.result.value.refreshToken))]
    ensures TokensValid(docs, next) ==> TokensValid(s.docs, s.next)
  {
    if !verify(t) then Fail(docs, next, TokenNotVerified)
    else if t.subject !in docs then Fail(docs, next, InvalidRefreshToken)
    else if docs[t.subject].refreshToken != Some(t) then Fail(docs, next, RefreshTokenUsed)
    else Issue(docs, next, t.subject)
  }

  /** Rotation is single-shot: once `r1` has been exchanged for a new pair,
      presenting `r1` again fails as used, and the new refresh token is the
      one that is now accepted. */
  lemma RefreshRotates(docs: map<Id, User>, next: nat, r1: RefreshToken, verify: RefreshToken -> bool)
    requires TokensValid(docs, next)
    requires Refresh(docs, next, Some(r1), verify).result.Ok?
    ensures var s1 := Refresh(docs, next, Some(r1), verify);
      var r2 := s1.result.value.refreshToken;
      && r2 != r1
      && Refresh(s1.docs, s1.next, Some(r1), verify).result == Err(RefreshTokenUsed)
      && (verify(r2) ==> Refresh(s1.docs, s1.next, Some(r2), verify).result.Ok?)
  {
  }

  /** A login of a user invalidates any refresh token issued to that user
      before it. */
  lemma LoginRevokesEarlierToken(docs: map<Id, User>, next: nat, email: Option<string>, password: Option<string>,
                                 found: Option<Id>, isPasswordCorrect: (User, string) -> bool,
                                 earlier: RefreshToken, verify: RefreshToken -> bool)
    requires TokensValid(docs, next)
    requires Supplied(email) && Supplied(password) ==> FoundOne(docs, email.value, found)
    requires Login(docs, next, email, password, found, isPasswordCorrect).result.Ok?
    requires found.Some? && earlier.subject == found.value && earlier.serial < next
    ensures var s := Login(docs, next, email, password, found, isPasswordCorrect);
      Refresh(s.docs, s.next, Some(earlier), verify).result.Err?
  {
  }

  /** Refresh does not look at the lifecycle flags: a user that is deleted
      (or inactive), and so can no longer log in, can still exchange the
      refresh token stored for it. */
  lemma RefreshIgnoresLifecycle(docs: map<Id, User>, next: nat, t: RefreshToken, verify: RefreshToken -> bool,
                                password: string, isPasswordCorrect: (User, string) -> bool)
    requires t.subject in docs && docs[t.subject].refreshToken == Some(t) && verify(t)
    requires !docs[t.subject].isActive || docs[t.subject].isDeleted
    requires password != "" && docs[t.subject].email != ""
    ensures Refresh(docs, next, Some(t), verify).result.Ok?
    ensures forall found: Option<Id> | FoundOne(docs, docs[t.subject].email, found) ::
      found != Some(t.subject) &&
      (found.None? ==> Login(docs, next, Some(docs[t.subject].email), Some(password), found, isPasswordCorrect).result
                       == Err(LoginUserNotFound))
  {
  }

  /** Each user has one refresh-token slot, so at most one refresh token is
      accepted for a user at any time. */
  lemma OneAcceptedTokenPerUser(docs: map<Id, User>, next: nat, t1: RefreshToken, t2: RefreshToken,
                                verify: RefreshToken -> bool)
    requires t1.subject == t2.subject
    requires Refresh(docs, next, Some(t1), verify).result.Ok?
    requires Refresh(docs, next, Some(t2), verify).result.Ok?
    ensures t1 == t2
  {
  }

  /** The service: the shared `User` collection and the counter that makes
      every minted token fresh. */
  class TokenService {
    const users: UserCollection
    var nextSerial: nat

    ghost predicate Valid()
      reads this, users
    {
      TokensValid(users.docs, nextSerial)
    }

    constructor (users: UserCollection, nextSerial: nat)
      requires TokensValid(users.docs, nextSerial)
      ensures Valid() && this.users == users && this.nextSerial == nextSerial
    {
      this.users := users;
      this.nextSerial := nextSerial;
    }

    /** `generateAccessAndRefreshTokens`. */
    method GenerateAccessAndRefreshTokens(userId: Id) returns (r: Result<TokenPair>)
      requires Valid()
      modifies this, users
      ensures Valid()
      ensures Step(r, users.docs, nextSerial) == Issue(old(users.docs), old(nextSerial), userId)
    {
      var user := users.FindById(userId);
      if user.None? {
        return Err(TokenGenerationFailed);
      }
      var accessToken := AccessToken(userId, user.value.role, nextSerial);
      var refreshToken := RefreshToken(userId, nextSerial);
      nextSerial := nextSerial + 1;
      users.SaveRefreshToken(userId, refreshToken);
      r := Ok(TokenPair(accessToken, refreshToken));
    }

    /** `loginUser`; `found` is the record the lookup settled on. */
    method LoginUser(email: Option<string>, password: Option<string>, isPasswordCorrect: (User, string) -> bool)
      returns (r: Result<TokenPair>, ghost found: Option<Id>)
      requires Valid()
      modifies this, users
      ensures Valid()
      ensures Supplied(email) && Supplied(password) ==> FoundOne(old(users.docs), email.value, found)
      ensures Step(r, users.docs, nextSerial)
           == Login(old(users.docs), old(nextSerial), email, password, found, isPasswordCorrect)
    {
      found := None;
      if !Supplied(email) || !Supplied(password) {
        return Err(CredentialsRequired), found;
      }
      var user := users.FindOne(email.value);
      found := user;
      if user.None? {
        return Err(LoginUserNotFound), found;
      }
      if !isPasswordCorrect(users.docs[user.value], password.value) {
        return Err(InvalidCredentials), found;
      }
      r := GenerateAccessAndRefreshTokens(user.value);
    }

    /** `refreshAccessToken`: the token comes from the header, or from the
        body when the header has none. */
    method RefreshAccessToken(header: Option<RefreshToken>, body: Option<RefreshToken>,
                              verify: RefreshToken -> bool)
      returns (r: Result<TokenPair>)
      requires Valid()
      modifies this, users
      ensures Valid()
      ensures Step(r, users.docs, nextSerial)
           == Refresh(old(users.docs), old(nextSerial), if header.Some? then header else body, verify)
    {
      var incoming := if header.Some? then header else body;
      if incoming.None? {
        return Err(RefreshTokenMissing);
      }
      var t := incoming.value;
      if !verify(t) {
        r := Err(TokenNotVerified);
      } else {
        var user := users.FindById(t.subject);
        if user.None? {
          r := Err(InvalidRefreshToken);
        } else if user.value.refreshToken != incoming {
          r := Err(RefreshTokenUsed);
        } else {
          r := GenerateAccessAndRefreshTokens(t.subject);
        }
      }
      match r
      case Err(e) => r := Err(As401(e));
      case Ok(_) =>
    }
  }
}
