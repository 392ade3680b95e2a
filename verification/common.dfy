/** Shared vocabulary of the route handlers: optional values, HTTP replies,
    the outcome of a `.single()` query, the database calls that can fail, and
    the shape of a parsed JSON request body. */
module Common {

  /** Identifiers are uuid strings generated by the database or the auth service. */
  type Uuid = string

  datatype Option<T> = None | Some(value: T)

  datatype Result<T, E> = Ok(value: T) | Err(error: E)

  /** What a route handler sends back: a status code with either the JSON
      payload of a success or the `error` text of a failure. */
  datatype Reply<T> = Success(status: int, value: T) | Failure(status: int, error: string)

  /** The three outcomes of a query ending in `.single()`: exactly one row,
      the "no rows" error code PGRST116, or any other database error. */
  datatype Lookup<T> = Found(row: T) | NoRows | Failed

  /** Every round trip to the database or the auth service that may fail.
      A handler is given the set of calls that fail during this request. */
  datatype Call =
    | ProfileQuery          // user_profiles lookup of the caller
    | ActiveSessionQuery    // work_sessions lookup of the caller's open session
    | ProjectQuery          // projects lookup of a referenced project
    | SessionInsert
    | SessionUpdate
    | SessionsQuery         // the session listing query
    | ProjectsQuery         // the project listing query
    | ProjectInsert
    | SubdomainQuery        // organizations lookup by subdomain
    | UserList              // auth admin listUsers
    | UserCreate            // auth admin createUser
    | OrgInsert
    | MetadataUpdate        // auth admin updateUserById
    | ExistingProfileQuery  // user_profiles lookup by the new user's id
    | UserCheck             // auth admin getUserById
    | ProfileInsert

  /** A JSON value as the validation schemas see it: a missing key, a string,
      a number, or anything else (null, a boolean, an array, an object). */
  datatype JVal = Missing | JStr(str: string) | JNum(num: real) | JOther

  /** The outcome of `await req.json()`: invalid JSON (the call throws),
      JSON that is not an object, or an object with the fields of interest. */
  datatype RequestBody<F> = Unparseable | NotAnObject | Object(fields: F)

  /** `.single()` over the rows a query matched. PostgREST reports PGRST116
      both for no row and for more than one row. */
  function Single<T>(matches: seq<T>, failed: bool): (r: Lookup<T>)
    ensures r.Found? <==> !failed && |matches| == 1
    ensures r.Found? ==> r.row == matches[0]
    ensures r.Failed? <==> failed
  {
    if failed then Failed
    else if |matches| == 1 then Found(matches[0])
    else NoRows
  }

  /** The reply of a handler whose body did not get through `req.json()` and
      `schema.parse`: a thrown `ZodError` is caught as 400 "Validation error",
      anything else (invalid JSON) as 500 "Internal server error". */
  function BodyRejection<T>(status: int): (r: Reply<T>)
    ensures r.Failure?
    ensures r.status == 500 <==> status == 500
    ensures r.status == 500 ==> r.error == "Internal server error"
    ensures r.status != 500 ==> r == Failure(400, "Validation error")
  {
    if status == 500 then Failure(500, "Internal server error") else Failure(400, "Validation error")
  }

  /** A character outside the Basic Multilingual Plane, which UTF-16 stores
      as a surrogate pair. */
  predicate Astral(c: char) { c as int >= 0x1_0000 }

  /** JavaScript's `.length` of a string, which zod's `.min(n)` compares: the
      number of UTF-16 code units, two for each astral character. */
  function Utf16Length(s: string): (n: nat)
    ensures |s| <= n <= 2 * |s|
    ensures n == |s| <==> forall i :: 0 <= i < |s| ==> !Astral(s[i])
  {
    if s == [] then 0
    else
      assert forall i :: 1 <= i < |s| ==> s[i] == s[1..][i - 1];
      (if Astral(s[0]) then 2 else 1) + Utf16Length(s[1..])
  }
}
