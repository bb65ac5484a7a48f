/**
 * The authorization middleware of middleware/auth.js.
 *
 * A request context holds what the middleware reads and writes: the `_token`
 * of the query string and of the body, the route parameters, and
 * `res.locals.user`. `authenticateJWT` writes `res.locals.user`; the four
 * guards only read and end in `Continue` (call `next()`) or `Reject` (call
 * `next(err)`).
 */
module Auth {
  import opened Wrappers
  import opened ExpressErrors
  import opened JsValues

  /** What a middleware hands to the next stage. */
  datatype Outcome = Continue | Reject(error: ExpressError)

  /** The error the message guards raise. */
  const InvalidUserRequest := Unauthorized(Some("Invalid user request"))

  /**
   * What `message.from_username` and `message.to_username` evaluate to in
   * the message guards, where `message` is whatever `Message.get` returned.
   */
  datatype MessageRef = MessageRef(fromUsername: JsValue, toUsername: JsValue)

  /**
   * The guards call `Message.get` without awaiting it, so `message` is a
   * pending promise, and both properties read from it are undefined.
   */
  const PendingMessage := MessageRef(Undefined, Undefined)

  /** A message as the message store holds it, once the lookup has completed. */
  datatype MessageRecord = MessageRecord(fromUsername: string, toUsername: string)

  /** The two properties read from an awaited message record. */
  function Fields(m: MessageRecord): MessageRef {
    MessageRef(Str(m.fromUsername), Str(m.toUsername))
  }

  /**
   * `req.query._token || req.body._token`: the query token whenever it is
   * truthy, the body token otherwise.
   */
  function TokenFromRequest(queryToken: JsValue, bodyToken: JsValue): (token: JsValue)
    ensures Truthy(queryToken) ==> token == queryToken
    ensures !Truthy(queryToken) ==> token == bodyToken
  {
    Or(queryToken, bodyToken)
  }

  /**
   * `res.locals.user` after `authenticateJWT`: the payload `verify` decodes
   * from the chosen token, or what was there before when verification fails.
   * `verify` stands for `jwt.verify(token, SECRET_KEY)`; `None` is a throw.
   */
  function ResolvedUser(verify: JsValue -> Option<JsValue>, queryToken: JsValue, bodyToken: JsValue,
                        prior: JsValue): (user: JsValue)
    ensures user == prior || verify(queryToken) == Some(user) || verify(bodyToken) == Some(user)
    ensures user != prior ==> verify(TokenFromRequest(queryToken, bodyToken)) == Some(user)
  {
    match verify(TokenFromRequest(queryToken, bodyToken))
    case Some(payload) => payload
    case None => prior
  }

  /** The username claim of a resolved identity, when it carries a string one. */
  function Identity(user: JsValue): Option<string> {
    match user
    case Obj(props) =>
      if "username" in props && props["username"].Str? then Some(props["username"].s) else None
    case _ => None
  }

  /** The documented read rule: the caller is the sender or the recipient. */
  predicate CanRead(identity: string, m: MessageRecord): (admitted: bool)
    ensures admitted <==> identity in {m.fromUsername, m.toUsername}
  {
    identity == m.fromUsername || identity == m.toUsername
  }

  /** The documented mark-read rule: only the intended recipient. */
  predicate CanMarkRead(identity: string, m: MessageRecord): (admitted: bool)
    ensures admitted ==> CanRead(identity, m)
    ensures identity != m.toUsername ==> !admitted
    ensures CanRead(identity, m) && identity != m.fromUsername ==> admitted
  {
    identity == m.toUsername
  }

  class RequestContext {
    /** `req.query._token` */
    var queryToken: JsValue
    /** `req.body._token` */
    var bodyToken: JsValue
    /** `req.params` */
    var params: map<string, string>
    /** `res.locals.user` */
    var localsUser: JsValue

    /** A fresh request: nothing is in `res.locals` yet. */
    constructor (queryToken: JsValue, bodyToken: JsValue, params: map<string, string>)
      ensures this.queryToken == queryToken && this.bodyToken == bodyToken && this.params == params
      ensures localsUser == Undefined
    {
      this.queryToken := queryToken;
      this.bodyToken := bodyToken;
      this.params := params;
      localsUser := Undefined;
    }

    /** `req.params[name]`: undefined when the route has no such parameter. */
    function Param(name: string): JsValue
      reads this
    {
      if name in params then Str(params[name]) else Undefined
    }

    /**
     * `authenticateJWT`: verify the query token, or the body token when the
     * query has none, and store the payload in `res.locals.user`. Whatever
     * happens, the request continues; nothing but `res.locals.user` changes.
     */
    method AuthenticateJWT(verify: JsValue -> Option<JsValue>) returns (outcome: Outcome)
      modifies this
      ensures outcome == Continue
      ensures localsUser == ResolvedUser(verify, old(queryToken), old(bodyToken), old(localsUser))
      ensures queryToken == old(queryToken) && bodyToken == old(bodyToken) && params == old(params)
    {
      var token := TokenFromRequest(queryToken, bodyToken);
      var verified := verify(token);
      if verified.Some? {
        localsUser := verified.value;
      }
      outcome := Continue;
    }

    /**
     * `ensureLoggedIn`: admits exactly the requests whose `res.locals.user` is
     * truthy, and refuses the rest with a bare `UnauthorizedError`.
     */
    function EnsureLoggedIn(): (outcome: Outcome)
      reads this
      ensures outcome.Continue? <==> Truthy(localsUser)
      ensures outcome.Reject? ==> outcome == Reject(Unauthorized(None))
    {
      if !Truthy(localsUser) then Reject(Unauthorized(None)) else Continue
    }

    /**
     * `ensureCorrectUser`: on a route with a `:username` parameter, admits
     * exactly the identities whose `username` claim is that parameter,
     * character for character. On a route without one, a truthy user with no
     * `username` claim would pass. Refusals are a bare `UnauthorizedError`.
     */
    function EnsureCorrectUser(): (outcome: Outcome)
      reads this
      ensures "username" in params ==> (outcome.Continue? <==> Identity(localsUser) == Some(params["username"]))
      ensures "username" !in params ==>
                (outcome.Continue? <==> Truthy(localsUser) && UsernameProp(localsUser) == Undefined)
      ensures outcome.Reject? ==> outcome == Reject(Unauthorized(None))
    {
      if !Truthy(localsUser) || !StrictEquals(UsernameProp(localsUser), Param("username"))
      then Reject(Unauthorized(None))
      else Continue
    }

    /**
     * `ensureCorrectMessageAccess`, as written: `user !== from || user !== to`
     * rejects, so it continues only when `res.locals.user` is one primitive
     * value equal to both the sender and the recipient.
     */
    function EnsureCorrectMessageAccess(message: MessageRef): (outcome: Outcome)
      reads this
      ensures outcome.Continue? <==>
                (!localsUser.Obj? && localsUser == message.fromUsername && localsUser == message.toUsername)
      ensures outcome.Reject? ==> outcome == Reject(InvalidUserRequest)
    {
      if !StrictEquals(localsUser, message.fromUsername) || !StrictEquals(localsUser, message.toUsername)
      then Reject(InvalidUserRequest)
      else Continue
    }

    /**
     * `ensureRecipientAccess`, as written: compares `res.locals.user` itself
     * with the recipient, so it continues only when that value is a primitive
     * equal to `to_username`.
     */
    function EnsureRecipientAccess(message: MessageRef): (outcome: Outcome)
      reads this
      ensures outcome.Continue? <==> (!localsUser.Obj? && localsUser == message.toUsername)
      ensures outcome.Reject? ==> outcome == Reject(InvalidUserRequest)
    {
      if !StrictEquals(localsUser, message.toUsername) then Reject(InvalidUserRequest) else Continue
    }

    /**
     * The read guard as its documentation describes it: the message lookup is
     * awaited (a missing message is `NotFound`), the caller's `username` claim
     * is compared, and either participant is admitted.
     */
    function CheckedMessageAccess(lookup: Option<MessageRecord>): (outcome: Outcome)
      reads this
      ensures outcome.Continue? <==>
                lookup.Some? && Identity(localsUser).Some? && CanRead(Identity(localsUser).value, lookup.value)
      ensures lookup.None? ==> outcome == Reject(NotFound)
      ensures outcome.Reject? && lookup.Some? ==> outcome == Reject(InvalidUserRequest)
    {
      match lookup
      case None => Reject(NotFound)
      case Some(m) =>
        if !Truthy(localsUser)
           || (!StrictEquals(UsernameProp(localsUser), Str(m.fromUsername))
               && !StrictEquals(UsernameProp(localsUser), Str(m.toUsername)))
        then Reject(InvalidUserRequest)
        else Continue
    }

    /** The mark-read guard as its documentation describes it. */
    function CheckedRecipientAccess(lookup: Option<MessageRecord>): (outcome: Outcome)
      reads this
      ensures outcome.Continue? <==>
                lookup.Some? && Identity(localsUser).Some? && CanMarkRead(Identity(localsUser).value, lookup.value)
      ensures lookup.None? ==> outcome == Reject(NotFound)
      ensures outcome.Reject? && lookup.Some? ==> outcome == Reject(InvalidUserRequest)
    {
      match lookup
      case None => Reject(NotFound)
      case Some(m) =>
        if !Truthy(localsUser) || !StrictEquals(UsernameProp(localsUser), Str(m.toUsername))
        then Reject(InvalidUserRequest)
        else Continue
    }
  }

  // ---------------------------------------------------------------------------
  // authenticateJWT

  /**
   * A successful verification installs the payload; a failed one leaves
   * `res.locals.user` as it was.
   */
  lemma ResolvedUserCases(verify: JsValue -> Option<JsValue>, queryToken: JsValue, bodyToken: JsValue,
                          prior: JsValue)
    ensures verify(TokenFromRequest(queryToken, bodyToken)).Some? ==>
              ResolvedUser(verify, queryToken, bodyToken, prior) == verify(TokenFromRequest(queryToken, bodyToken)).value
    ensures verify(TokenFromRequest(queryToken, bodyToken)).None? ==>
              ResolvedUser(verify, queryToken, bodyToken, prior) == prior
  {
  }

  /**
   * A token that fails verification has the same effect as sending no token
   * at all, provided that a missing token does not verify either.
   */
  lemma InvalidTokenSameAsNoToken(verify: JsValue -> Option<JsValue>, token: JsValue, prior: JsValue)
    requires verify(Undefined).None? && verify(token).None?
    ensures ResolvedUser(verify, token, Undefined, prior) == ResolvedUser(verify, Undefined, Undefined, prior)
    ensures ResolvedUser(verify, Undefined, token, prior) == prior
    ensures ResolvedUser(verify, token, Undefined, prior) == prior
  {
  }

  /**
   * On a fresh request the identity is either absent or a payload obtained by
   * verifying one of the two tokens the request carried; route parameters
   * play no part in it.
   */
  lemma NoUnverifiedIdentity(verify: JsValue -> Option<JsValue>, queryToken: JsValue, bodyToken: JsValue)
    ensures var user := ResolvedUser(verify, queryToken, bodyToken, Undefined);
            user == Undefined || verify(queryToken) == Some(user) || verify(bodyToken) == Some(user)
  {
  }

  // ---------------------------------------------------------------------------
  // ensureLoggedIn and ensureCorrectUser

  /**
   * After `authenticateJWT` on a fresh request, `ensureLoggedIn` admits it
   * exactly when the chosen token verified to a truthy payload.
   */
  lemma LoggedInIffVerified(ctx: RequestContext, verify: JsValue -> Option<JsValue>,
                            queryToken: JsValue, bodyToken: JsValue)
    requires ctx.localsUser == ResolvedUser(verify, queryToken, bodyToken, Undefined)
    ensures ctx.EnsureLoggedIn().Continue? <==>
              (var verified := verify(TokenFromRequest(queryToken, bodyToken));
               verified.Some? && Truthy(verified.value))
  {
  }

  /** A request that carries no token is refused by `ensureLoggedIn`. */
  lemma NoTokenNotLoggedIn(ctx: RequestContext, verify: JsValue -> Option<JsValue>)
    requires verify(Undefined).None?
    requires ctx.localsUser == ResolvedUser(verify, Undefined, Undefined, Undefined)
    ensures ctx.EnsureLoggedIn() == Reject(Unauthorized(None))
  {
  }

  /** Whatever `ensureCorrectUser` admits, `ensureLoggedIn` admits as well. */
  lemma CorrectUserImpliesLoggedIn(ctx: RequestContext)
    ensures ctx.EnsureCorrectUser().Continue? ==> ctx.EnsureLoggedIn().Continue?
  {
  }

  // ---------------------------------------------------------------------------
  // ensureCorrectMessageAccess, as written

  /**
   * On a stored message, whatever the read guard admits the documented rule
   * admits too, and only for a message a user sent to themself.
   */
  lemma ReadGuardWithinCanRead(ctx: RequestContext, m: MessageRecord)
    requires ctx.EnsureCorrectMessageAccess(Fields(m)).Continue?
    ensures ctx.localsUser.Str? && CanRead(ctx.localsUser.s, m)
    ensures ctx.localsUser.s == m.fromUsername == m.toUsername
  {
  }

  /** The read guard rejects the sender of a message to someone else, whom the documented rule admits. */
  lemma ReadGuardRejectsSender(ctx: RequestContext)
    requires ctx.localsUser == Str("alice")
    ensures CanRead("alice", MessageRecord("alice", "bob"))
    ensures ctx.EnsureCorrectMessageAccess(Fields(MessageRecord("alice", "bob"))) == Reject(InvalidUserRequest)
  {
  }

  /**
   * An identity installed from an object payload is never admitted by the read
   * guard, since the object is compared with the username fields themselves.
   */
  lemma ReadGuardRejectsObjectIdentity(ctx: RequestContext, message: MessageRef)
    requires ctx.localsUser.Obj?
    ensures ctx.EnsureCorrectMessageAccess(message) == Reject(InvalidUserRequest)
  {
  }

  // ---------------------------------------------------------------------------
  // ensureRecipientAccess, as written

  /**
   * On a stored message the mark-read guard admits only the recipient: neither
   * a sender different from the recipient nor a third party passes.
   */
  lemma RecipientGuardWithinCanMarkRead(ctx: RequestContext, m: MessageRecord)
    ensures ctx.EnsureRecipientAccess(Fields(m)).Continue? ==>
              ctx.localsUser.Str? && CanMarkRead(ctx.localsUser.s, m)
    ensures m.fromUsername != m.toUsername && ctx.localsUser == Str(m.fromUsername) ==>
              ctx.EnsureRecipientAccess(Fields(m)) == Reject(InvalidUserRequest)
    ensures ctx.localsUser != Str(m.fromUsername) && ctx.localsUser != Str(m.toUsername) ==>
              ctx.EnsureRecipientAccess(Fields(m)) == Reject(InvalidUserRequest)
  {
  }

  /**
   * The recipient, authenticated with the `{username}` payload that login
   * issues, is rejected by the mark-read guard.
   */
  lemma RecipientGuardRejectsResolvedRecipient(ctx: RequestContext)
    requires ctx.localsUser == Obj(map["username" := Str("bob")])
    ensures Identity(ctx.localsUser) == Some("bob") && CanMarkRead("bob", MessageRecord("alice", "bob"))
    ensures ctx.EnsureRecipientAccess(Fields(MessageRecord("alice", "bob"))) == Reject(InvalidUserRequest)
  {
  }

  /**
   * On any stored message, the mark-read guard as written and the documented
   * one admit disjoint sets of callers: a string identity never carries a
   * `username` claim, and an object identity never equals a username.
   */
  lemma RecipientGuardsDisjoint(ctx: RequestContext, m: MessageRecord)
    ensures ctx.EnsureRecipientAccess(Fields(m)).Continue? ==> !ctx.CheckedRecipientAccess(Some(m)).Continue?
    ensures ctx.CheckedRecipientAccess(Some(m)).Continue? ==>
              ctx.EnsureRecipientAccess(Fields(m)) == Reject(InvalidUserRequest)
  {
  }

  // ---------------------------------------------------------------------------
  // The un-awaited message lookup

  /**
   * With the lookup left pending, both message guards admit exactly the
   * requests that carry no identity at all.
   */
  lemma PendingMessageAdmitsAnonymous(ctx: RequestContext)
    ensures ctx.EnsureCorrectMessageAccess(PendingMessage).Continue? <==> ctx.localsUser == Undefined
    ensures ctx.EnsureRecipientAccess(PendingMessage).Continue? <==> ctx.localsUser == Undefined
  {
  }

  // ---------------------------------------------------------------------------
  // The checked guards against the literal ones

  /**
   * The sender, identified by its `username` claim, passes the checked read
   * guard, and passes the checked mark-read guard only on a message to itself.
   */
  lemma CheckedGuardsOnSender(ctx: RequestContext, m: MessageRecord)
    requires Identity(ctx.localsUser) == Some(m.fromUsername)
    ensures ctx.CheckedMessageAccess(Some(m)) == Continue
    ensures ctx.CheckedRecipientAccess(Some(m)).Continue? <==> m.fromUsername == m.toUsername
  {
  }

  /** The checked guards tell a missing message apart from a refused caller. */
  lemma CheckedGuardsSeparateNotFound(ctx: RequestContext, m: MessageRecord)
    ensures ctx.CheckedMessageAccess(None) == Reject(NotFound)
    ensures ctx.CheckedRecipientAccess(None) == Reject(NotFound)
    ensures ctx.CheckedMessageAccess(Some(m)) != Reject(NotFound)
    ensures ctx.CheckedRecipientAccess(Some(m)) != Reject(NotFound)
  {
  }

  /** Whatever the checked mark-read guard admits, the checked read guard admits too. */
  lemma CheckedMarkReadImpliesRead(ctx: RequestContext, lookup: Option<MessageRecord>)
    ensures ctx.CheckedRecipientAccess(lookup).Continue? ==> ctx.CheckedMessageAccess(lookup).Continue?
  {
  }
}
