/** Option and Result, for lookups that may find nothing and calls that may throw. */
module Wrappers {
  datatype Option<+T> = None | Some(value: T)

  datatype Result<+R, +E> = Success(value: R) | Failure(error: E)
}

/** The error classes of the application that the core raises. */
module ExpressErrors {
  import opened Wrappers

  /** `UnauthorizedError(message?)` (status 401) and `NotFoundError()` (status 404). */
  datatype ExpressError =
    | Unauthorized(message: Option<string>)
    | NotFound
}

/**
 * The handful of JavaScript values and operators the middleware relies on:
 * truthiness, `||`, strict equality and reading a `username` property.
 */
module JsValues {

  /**
   * A JavaScript value as it can appear in a query string, a JSON body, a
   * decoded token payload or `res.locals`. Numbers are modelled by integers.
   */
  datatype JsValue =
    | Undefined
    | Null
    | Bool(b: bool)
    | Num(n: int)
    | Str(s: string)
    | Obj(props: map<string, JsValue>)

  /** ToBoolean: undefined, null, false, 0 and "" are falsy; every object is truthy. */
  predicate Truthy(v: JsValue) {
    match v
    case Undefined => false
    case Null => false
    case Bool(b) => b
    case Num(n) => n != 0
    case Str(s) => s != ""
    case Obj(_) => true
  }

  /** `a || b`: the left operand when it is truthy, the right one otherwise. */
  function Or(a: JsValue, b: JsValue): (r: JsValue)
    ensures r == a || r == b
    ensures Truthy(r) <==> Truthy(a) || Truthy(b)
    ensures Truthy(a) ==> r == a
    ensures !Truthy(a) ==> r == b
  {
    if Truthy(a) then a else b
  }

  /**
   * `a === b`. Primitives compare by type and value. Objects compare by
   * identity; every object this code compares was allocated separately from
   * the value it is compared with, so an object operand is never equal.
   */
  predicate StrictEquals(a: JsValue, b: JsValue) {
    !a.Obj? && a == b
  }

  /**
   * `v.username`. Reading a property of undefined or null throws a TypeError,
   * so callers only do it on other values; a primitive has no such property.
   */
  function UsernameProp(v: JsValue): JsValue
    requires !v.Undefined? && !v.Null?
  {
    match v
    case Obj(props) => if "username" in props then props["username"] else Undefined
    case _ => Undefined
  }

}
