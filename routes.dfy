/**
 * Which guard stands in front of which route (routes/users.js and
 * routes/messages.js), and `authenticateJWT` composed with a guard on one
 * request, as the application places them.
 */
module Routes {
  import opened Wrappers
  import opened ExpressErrors
  import opened JsValues
  import opened Auth

  datatype Guard = LoggedIn | CorrectUser | CorrectMessageAccess | RecipientAccess

  datatype Route = Route(verb: string, path: string, guard: Guard)

  const UserRoutes: seq<Route> := [
    Route("GET", "/users/", LoggedIn),
    Route("GET", "/users/:username", CorrectUser),
    Route("GET", "/users/:username/to", CorrectUser),
    Route("GET", "/users/:username/from", CorrectUser)
  ]

  const MessageRoutes: seq<Route> := [
    Route("GET", "/messages/:id", CorrectMessageAccess),
    Route("POST", "/messages/", LoggedIn),
    Route("POST", "/messages/:id", RecipientAccess)
  ]

  /** The guards middleware/auth.js exports (besides `authenticateJWT`). */
  const ExportedGuards: set<Guard> := {LoggedIn, CorrectUser}

  /** Every user route uses an exported guard; the two message routes with an id do not. */
  lemma MessageRoutesUseUnexportedGuards()
    ensures forall i :: 0 <= i < |UserRoutes| ==> UserRoutes[i].guard in ExportedGuards
    ensures MessageRoutes[0].guard !in ExportedGuards && MessageRoutes[2].guard !in ExportedGuards
    ensures MessageRoutes[1].guard in ExportedGuards
  {
  }

  /** The export list the routes need: every guard of the middleware module. */
  const CompleteExports: set<Guard> := {LoggedIn, CorrectUser, CorrectMessageAccess, RecipientAccess}

  /** With the complete export list, every guard any route names is defined. */
  lemma CompleteExportsCoverRoutes()
    ensures forall i :: 0 <= i < |UserRoutes| ==> UserRoutes[i].guard in CompleteExports
    ensures forall i :: 0 <= i < |MessageRoutes| ==> MessageRoutes[i].guard in CompleteExports
    ensures ExportedGuards < CompleteExports
  {
  }

  /**
   * The user-detail requests of routes/users.test.js: the token signed for
   * `test1`, sent in the body, passes `ensureCorrectUser` on `/users/test1`
   * and is refused on `/users/user_that_doesnt_exist`.
   */
  method UserDetailRequests(verify: JsValue -> Option<JsValue>, token: JsValue)
    returns (own: Outcome, other: Outcome)
    requires verify(token).Some? && Identity(verify(token).value) == Some("test1")
    ensures own == Continue
    ensures other == Reject(Unauthorized(None))
  {
    var ctx := new RequestContext(Undefined, token, map["username" := "test1"]);
    var _ := ctx.AuthenticateJWT(verify);
    own := ctx.EnsureCorrectUser();

    var ctx2 := new RequestContext(Undefined, token, map["username" := "user_that_doesnt_exist"]);
    var _ := ctx2.AuthenticateJWT(verify);
    other := ctx2.EnsureCorrectUser();
  }

  /**
   * A token that does not verify (forged, or signed with another secret) on a
   * route behind `ensureLoggedIn` is refused with 401, exactly as a request
   * with no token is.
   */
  method UnverifiedTokenRequest(verify: JsValue -> Option<JsValue>, token: JsValue)
    returns (withToken: Outcome, withoutToken: Outcome)
    requires verify(token).None? && verify(Undefined).None?
    ensures withToken == withoutToken == Reject(Unauthorized(None))
  {
    var ctx := new RequestContext(token, Undefined, map[]);
    var _ := ctx.AuthenticateJWT(verify);
    withToken := ctx.EnsureLoggedIn();

    var bare := new RequestContext(Undefined, Undefined, map[]);
    var _ := bare.AuthenticateJWT(verify);
    withoutToken := bare.EnsureLoggedIn();
  }

  /**
   * `POST /messages/:id` on a message from alice to bob. With the guard as
   * written, bob, holding the `{username: "bob"}` token login issues, is
   * refused and a request without any token is let through; with the checked
   * guard, bob passes and alice is refused.
   */
  method MarkReadRequests(verify: JsValue -> Option<JsValue>, bobToken: JsValue, aliceToken: JsValue)
    returns (bobAsWritten: Outcome, anonymousAsWritten: Outcome, bobChecked: Outcome, aliceChecked: Outcome)
    requires Truthy(bobToken) && verify(bobToken) == Some(Obj(map["username" := Str("bob")]))
    requires Truthy(aliceToken) && verify(aliceToken) == Some(Obj(map["username" := Str("alice")]))
    requires verify(Undefined).None?
    ensures bobAsWritten == Reject(InvalidUserRequest)
    ensures anonymousAsWritten == Continue
    ensures bobChecked == Continue
    ensures aliceChecked == Reject(InvalidUserRequest)
  {
    var message := MessageRecord("alice", "bob");

    var bob := new RequestContext(bobToken, Undefined, map["id" := "1"]);
    var _ := bob.AuthenticateJWT(verify);
    bobAsWritten := bob.EnsureRecipientAccess(PendingMessage);
    bobChecked := bob.CheckedRecipientAccess(Some(message));

    var anonymous := new RequestContext(Undefined, Undefined, map["id" := "1"]);
    var _ := anonymous.AuthenticateJWT(verify);
    anonymousAsWritten := anonymous.EnsureRecipientAccess(PendingMessage);

    var alice := new RequestContext(aliceToken, Undefined, map["id" := "1"]);
    var _ := alice.AuthenticateJWT(verify);
    aliceChecked := alice.CheckedRecipientAccess(Some(message));
  }
}
