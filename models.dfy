/**
 * The persisted entities the controllers work on and the outcome of a call
 * into the database context.
 */
module Models {
  import opened Wrappers

  /** A category row: its database identity, its display name and its slug. */
  datatype Category = Category(id: int, name: string, slug: string)

  /** A role: its display name and the slug used as the role claim's value. */
  datatype Role = Role(name: string, slug: string)

  /**
   * An account. `passwordHash` is null for accounts provisioned without a
   * password; `roles` is null when the role association was not loaded.
   */
  datatype User = User(
    name: string,
    email: string,
    slug: string,
    passwordHash: Option<string>,
    roles: Option<seq<Role>>)

  /**
   * What the database context did with a request: nothing went wrong, it threw
   * a `DbUpdateException` while saving, or it threw any other exception.
   */
  datatype Fault = NoFault | UpdateFailure | OtherFailure
}

/**
 * The response envelope: a status code and either the data of a success or the
 * list of error messages of a failure.
 */
module Responses {
  import opened Models

  /** The data a successful response carries, one shape per endpoint. */
  datatype Payload =
    | CategoryData(category: Category)
    | CategoryListData(categories: seq<Category>)
    | TokenData(token: string)
    | RegisteredData(user: string, password: string)

  datatype Body = Data(payload: Payload) | Errors(errors: seq<string>)

  datatype Response = Response(status: int, body: Body)

  function Ok(p: Payload): Response {
    Response(200, Data(p))
  }

  function Created(p: Payload): Response {
    Response(201, Data(p))
  }

  function BadRequest(errors: seq<string>): Response {
    Response(400, Errors(errors))
  }

  /** `StatusCode(status, new ResultViewModel<T>(message))`: a failure with one message. */
  function Fail(status: int, message: string): Response {
    Response(status, Errors([message]))
  }
}
