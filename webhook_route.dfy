/**
 * src/app/api/supabase/webhooks/auth/route.ts: the Supabase Auth webhook.
 * The signature check, the recording of every accepted event in
 * `auth_events`, and the activation of a user whose address an event
 * confirms.  The HMAC-SHA256 digest of RFC 2104 (hex encoded) is the
 * parameter `hmacHex(secret, body)`; `JSON.parse` is the parameter `parse`
 * (`None` when it throws).
 */
module WebhookRoute {
  import opened Text
  import opened Db

  const BadSignature: string := "Firma inválida"
  const BadJson: string := "JSON inválido"

  /** `verifySignature(rawBody, signature, secret)`; an unset secret or signature is ''. */
  predicate VerifySignature(rawBody: string, signature: Option<string>, secret: string,
                            hmacHex: (string, string) -> string)
  {
    if secret == "" then true
    else if signature.None? || signature.value == "" then false
    else hmacHex(secret, rawBody) == signature.value
  }

  /** No secret accepts everything; a secret needs a signature equal to the digest. */
  lemma VerifySignatureIff(rawBody: string, signature: Option<string>, secret: string,
                           hmacHex: (string, string) -> string)
    ensures secret == "" ==> VerifySignature(rawBody, signature, secret, hmacHex)
    ensures secret != "" && (signature.None? || signature == Some("")) ==>
      !VerifySignature(rawBody, signature, secret, hmacHex)
    ensures secret != "" && signature.Some? && signature.value != "" ==>
      (VerifySignature(rawBody, signature, secret, hmacHex) <==> hmacHex(secret, rawBody) == signature.value)
  {
  }

  /** `String(payload?.type || payload?.event || '').toLowerCase()`. */
  function EventType(payload: Json): string
  {
    Lower(StringOf(Or(Get(payload, "type"), Or(Get(payload, "event"), JStr("")))))
  }

  /** `payload?.user || payload?.data?.user || null`. */
  function EventUser(payload: Json): Json
  {
    Or(Get(payload, "user"), Or(Get(Get(payload, "data"), "user"), JNull))
  }

  /** Whether the event confirms an address, and which (lower-cased). */
  function Confirms(payload: Json): Option<string>
  {
    var t := EventType(payload);
    var email := Get(EventUser(payload), "email");
    if Truthy(email) && (Contains(t, "confirm") || Contains(t, "verified")) then Some(Lower(StringOf(email)))
    else None
  }

  /** `users.update({ status: 'activo' }).eq('email', e)`: every row with that address. */
  function ActivateEmail(users: map<int, UserRow>, e: string): (r: map<int, UserRow>)
    ensures r.Keys == users.Keys
    ensures forall k :: k in users ==> r[k] == if users[k].email == e then users[k].(status := JStr("activo")) else users[k]
  {
    map k | k in users :: if users[k].email == e then users[k].(status := JStr("activo")) else users[k]
  }

  /** `POST`: the signature first, then the parse, the audit insert, and the conditional activation. */
  method HandlePost(db: Store, raw: string, signature: Option<string>, secret: string,
                    hmacHex: (string, string) -> string, parse: string -> Option<Json>)
    returns (reply: Reply)
    modifies db
    ensures !VerifySignature(raw, signature, secret, hmacHex) ==>
      reply == Error(401, BadSignature) && db.authEvents == old(db.authEvents) && db.users == old(db.users)
    ensures VerifySignature(raw, signature, secret, hmacHex) && parse(raw).None? ==>
      reply == Error(400, BadJson) && db.authEvents == old(db.authEvents) && db.users == old(db.users)
    ensures VerifySignature(raw, signature, secret, hmacHex) && parse(raw).Some? ==>
      var p := parse(raw).value;
      && reply == JsonReply(200, JObj(map["ok" := JBool(true)]))
      && db.authEvents == old(db.authEvents) + [AuthEvent(EventType(p), p)]
      && db.users == if Confirms(p).Some? then ActivateEmail(old(db.users), Confirms(p).value) else old(db.users)
    ensures db.confirmations == old(db.confirmations) && db.profiles == old(db.profiles)
  {
    if !VerifySignature(raw, signature, secret, hmacHex) {
      return Error(401, BadSignature);
    }
    var parsed := parse(raw);
    if parsed.None? {
      return Error(400, BadJson);
    }
    var payload := parsed.value;
    var t := EventType(payload);
    var user := EventUser(payload);
    db.authEvents := db.authEvents + [AuthEvent(t, payload)];
    var email := Get(user, "email");
    if Truthy(email) && (Contains(t, "confirm") || Contains(t, "verified")) {
      db.users := ActivateEmail(db.users, Lower(StringOf(email)));
    }
    reply := JsonReply(200, JObj(map["ok" := JBool(true)]));
  }

  /** The type falls back from `type` to `event`, and is lower-cased. */
  lemma TypeFallback(t: string, e: Json)
    requires t != ""
    ensures EventType(JObj(map["type" := JStr(t), "event" := e])) == Lower(t)
    ensures EventType(JObj(map["event" := JStr(t)])) == Lower(t)
    ensures EventType(JObj(map[])) == ""
  {
    assert Get(JObj(map["event" := JStr(t)]), "type") == JNull;
  }

  /** The user falls back from `user` to `data.user`. */
  lemma UserFallback(u: Json, d: Json)
    requires Truthy(u)
    ensures EventUser(JObj(map["user" := u, "data" := d])) == u
    ensures EventUser(JObj(map["data" := JObj(map["user" := u])])) == u
  {
    assert Get(JObj(map["data" := JObj(map["user" := u])]), "user") == JNull;
  }

  /** The type and the email of an event carrying both at top level. */
  lemma TopLevelEvent(t: string, email: string)
    ensures var p := JObj(map["type" := JStr(t), "user" := JObj(map["email" := JStr(email)])]);
      EventType(p) == (if t != "" then Lower(t) else "") && Get(EventUser(p), "email") == JStr(email)
  {
    var p := JObj(map["type" := JStr(t), "user" := JObj(map["email" := JStr(email)])]);
    assert Get(p, "type") == JStr(t);
    assert Get(p, "event") == JNull;
    assert Get(p, "user") == JObj(map["email" := JStr(email)]);
  }

  /** `Confirms` by the event's type and a truthy string email. */
  lemma ConfirmsByType(p: Json, email: string)
    requires email != "" && Get(EventUser(p), "email") == JStr(email)
    ensures Confirms(p) == if Contains(EventType(p), "confirm") || Contains(EventType(p), "verified")
                           then Some(Lower(email)) else None
  {
  }

  /**
   * An event activates users exactly when its user has a truthy email and
   * its type, lower-cased, mentions 'confirm' or 'verified'; the address
   * matched is the lower-cased email.  A 'signup' event never does.
   */
  lemma ConfirmingTypes(t: string, email: string)
    requires email != ""
    ensures var p := JObj(map["type" := JStr(t), "user" := JObj(map["email" := JStr(email)])]);
      Confirms(p) == if t != "" && (Contains(Lower(t), "confirm") || Contains(Lower(t), "verified"))
                     then Some(Lower(email)) else None
  {
    var p := JObj(map["type" := JStr(t), "user" := JObj(map["email" := JStr(email)])]);
    TopLevelEvent(t, email);
    ConfirmsByType(p, email);
    if t == "" {
      assert !Contains("", "confirm") && !Contains("", "verified");
    }
  }

  /** A 'signup' event never activates anyone. */
  lemma SignupNeverConfirms(email: string)
    requires email != ""
    ensures Confirms(JObj(map["type" := JStr("signup"), "user" := JObj(map["email" := JStr(email)])])) == None
  {
    var s := "signup";
    ConfirmingTypes(s, email);
    assert |Lower(s)| < |"confirm"| < |"verified"|;
  }

  /** Activation touches only rows whose address is the lower-cased one, and sets only their status. */
  lemma ActivationConfined(users: map<int, UserRow>, e: string, k: int)
    requires k in users
    ensures var r := ActivateEmail(users, e);
      && r[k].email == users[k].email && r[k].authUserId == users[k].authUserId
      && (users[k].email != e ==> r[k] == users[k])
      && (users[k].email == e ==> r[k].status == JStr("activo"))
  {
  }
}
