/**
 * The values the API routes read from request bodies and Supabase tables,
 * and the replies they send.  Supabase's `users`, `email_confirmations`,
 * `profiles` and `auth_events` tables are the fields of `Store`, which the
 * handlers of src/app/api/auth/confirm/route.ts,
 * src/app/api/ai/history/route.ts and
 * src/app/api/supabase/webhooks/auth/route.ts update in place.
 */
module Db {
  import opened Text

  /** A JSON value; `JNull` also stands for a missing property (`undefined`). */
  datatype Json =
    | JNull
    | JBool(b: bool)
    | JNum(n: int)
    | JStr(s: string)
    | JArr(items: seq<Json>)
    | JObj(fields: map<string, Json>)

  /** JavaScript truthiness (NaN is not modelled). */
  predicate Truthy(v: Json)
  {
    match v
    case JNull => false
    case JBool(b) => b
    case JNum(n) => n != 0
    case JStr(s) => s != ""
    case _ => true
  }

  /** `v?.k`: a property of an object, `undefined` for anything else. */
  function Get(v: Json, k: string): Json
  {
    if v.JObj? && k in v.fields then v.fields[k] else JNull
  }

  /** `a || b`. */
  function Or(a: Json, b: Json): (r: Json)
    ensures Truthy(a) ==> r == a
    ensures !Truthy(a) ==> r == b
  {
    if Truthy(a) then a else b
  }

  /** `String(v)`; a missing value shows as 'null' here where JavaScript writes 'undefined'. */
  function StringOf(v: Json): string
    decreases v, 1
  {
    match v
    case JNull => "null"
    case JBool(b) => if b then "true" else "false"
    case JNum(n) => if n < 0 then "-" + NatToString(-n) else NatToString(n)
    case JStr(s) => s
    case JArr(items) => JoinItems(items, v)
    case JObj(_) => "[object Object]"
  }

  /** `Array.prototype.join(',')` as `String` uses it: null elements print as ''. */
  function JoinItems(items: seq<Json>, whole: Json): string
    requires forall i :: 0 <= i < |items| ==> items[i] < whole
    decreases whole, 0, |items|
  {
    if items == [] then ""
    else
      var head := if items[0].JNull? then "" else StringOf(items[0]);
      if |items| == 1 then head else head + "," + JoinItems(items[1..], whole)
  }

  /** The replies: `NextResponse.json(body, { status })` and `NextResponse.redirect(path)`. */
  datatype Reply = JsonReply(status: nat, body: Json) | Redirect(path: string)

  /** `{ error: e }` with a status. */
  function Error(status: nat, e: string): Reply
  {
    JsonReply(status, JObj(map["error" := JStr(e)]))
  }

  /** A row of `users`. */
  datatype UserRow = UserRow(email: string, status: Json, authUserId: string)

  /** A row of `email_confirmations`. */
  datatype Confirmation = Confirmation(token: string, userId: Json, expiresAt: Json, status: Json)

  /** A row of `profiles`; the table is keyed by `user_id`, the row also has its own `id`. */
  datatype Profile = Profile(id: int, customFields: Json)

  /** A row of `auth_events`. */
  datatype AuthEvent = AuthEvent(eventType: string, payload: Json)

  /** The tables, by primary key (`profiles` by `user_id`). */
  class Store {
    var users: map<int, UserRow>
    var confirmations: map<int, Confirmation>
    var profiles: map<int, Profile>
    var authEvents: seq<AuthEvent>

    constructor (users: map<int, UserRow>, confirmations: map<int, Confirmation>,
                 profiles: map<int, Profile>, authEvents: seq<AuthEvent>)
      ensures this.users == users && this.confirmations == confirmations
      ensures this.profiles == profiles && this.authEvents == authEvents
    {
      this.users := users;
      this.confirmations := confirmations;
      this.profiles := profiles;
      this.authEvents := authEvents;
    }
  }
}
