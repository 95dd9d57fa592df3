/**
 * The authorization attributes of the routes: `AccountController` is marked
 * `[Authorize]` and its `Login` action `[AllowAnonymous]`; `CategoryController`
 * carries neither.
 */
module Routing {

  datatype Controller = Account | Categories

  datatype Route =
    | RegisterAccount | LoginAccount
    | ListCategories | GetCategory | CreateCategory | UpdateCategory | DeleteCategory

  function ControllerOf(r: Route): Controller {
    if r == RegisterAccount || r == LoginAccount then Account else Categories
  }

  /** The controller-level `[Authorize]` attribute. */
  predicate ControllerAuthorizes(c: Controller) {
    c == Account
  }

  /** The action-level `[AllowAnonymous]` attribute. */
  predicate AllowsAnonymous(r: Route) {
    r == LoginAccount
  }

  /** A route needs a valid token when its controller authorizes and the action does not opt out. */
  predicate RequiresAuthentication(r: Route) {
    ControllerAuthorizes(ControllerOf(r)) && !AllowsAnonymous(r)
  }

  /** Whether the authorization gate lets a request through to the action. */
  predicate Admits(r: Route, hasValidToken: bool) {
    !RequiresAuthentication(r) || hasValidToken
  }

  /**
   * Registration is the one route that demands a token: it inherits the
   * controller's `[Authorize]`, while `Login` opts out and the category routes
   * never opted in.
   */
  lemma OnlyRegistrationRequiresToken(r: Route)
    ensures RequiresAuthentication(r) <==> r == RegisterAccount
    ensures Admits(r, false) <==> r != RegisterAccount
    ensures AllowsAnonymous(r) <==> r == LoginAccount
  {
  }
}
