/**
 * src/app/api/auth/resend-confirmation/route.ts: the retired resend
 * endpoint.  It normalises the address, validates it, looks the user up and
 * either says the account is already confirmed or answers 410 Gone.  The
 * parsed body (`None` when `req.json()` throws) and the `users` lookup are
 * inputs.
 */
module ResendConfirmation {
  import opened Text
  import opened Email
  import opened Db

  const InvalidJson: string := "Invalid JSON body"
  const FormatError: string := "Formato de correo inválido"
  const DomainError: string := "Solo se permite correo @digix.co"
  const NotFound: string := "Usuario no encontrado"
  const AlreadyConfirmed: string := "Cuenta ya confirmada"
  const Moved: string := "Reenvío de confirmación movido al cliente"
  const MovedHint: string := "Usa supabase.auth.resend({ type: \"signup\", email })"

  /** `String(body?.email || '').trim().toLowerCase()`. */
  function NormalizedEmail(body: Json): string
  {
    Lower(Trim(StringOf(Or(Get(body, "email"), JStr("")))))
  }

  /** The reply once the address is valid: by the status of the row found for it, if any. */
  function ByStatus(row: Option<Json>): Reply
  {
    if row.None? then Error(404, NotFound)
    else if Lower(StringOf(row.value)) == "activo" then JsonReply(200, JObj(map["message" := JStr(AlreadyConfirmed)]))
    else JsonReply(410, JObj(map["error" := JStr(Moved), "hint" := JStr(MovedHint)]))
  }

  /** `POST`; `statusOf(email)` is the `status` of the `users` row with that address, `None` for no row. */
  function Post(body: Option<Json>, statusOf: string -> Option<Json>): Reply
  {
    if body.None? then Error(400, InvalidJson)
    else Decide(NormalizedEmail(body.value), statusOf)
  }

  /** The steps after normalisation: format, then domain, then the row. */
  function Decide(email: string, statusOf: string -> Option<Json>): Reply
  {
    if !IsValidEmail(email) then Error(400, FormatError)
    else if !IsAllowedDomain(email) then Error(400, DomainError)
    else ByStatus(statusOf(email))
  }

  /** A bad body or address is refused with 400 in this order; a good address is decided by its row. */
  lemma Outcomes(body: Option<Json>, statusOf: string -> Option<Json>)
    ensures body.None? ==> Post(body, statusOf) == Error(400, InvalidJson)
    ensures body.Some? ==>
      var e := NormalizedEmail(body.value);
      && (!IsValidEmail(e) ==> Post(body, statusOf) == Error(400, FormatError))
      && (IsValidEmail(e) && !IsAllowedDomain(e) ==> Post(body, statusOf) == Error(400, DomainError))
      && (IsValidEmail(e) && IsAllowedDomain(e) ==> Post(body, statusOf) == ByStatus(statusOf(e)))
  {
  }

  /** No row is 404, an active one (any case) 200, and every other row 410. */
  lemma ByStatusCases(row: Option<Json>)
    ensures ByStatus(row).JsonReply?
    ensures ByStatus(row).status == 404 <==> row.None?
    ensures ByStatus(row).status == 200 <==> row.Some? && Lower(StringOf(row.value)) == "activo"
    ensures ByStatus(row).status == 410 <==> row.Some? && Lower(StringOf(row.value)) != "activo"
  {
  }

  /** Only the normalised address is ever looked at: bodies that normalise alike get the same reply. */
  lemma OnlyNormalizedEmailMatters(b1: Json, b2: Json, statusOf: string -> Option<Json>)
    requires NormalizedEmail(b1) == NormalizedEmail(b2)
    ensures Post(Some(b1), statusOf) == Post(Some(b2), statusOf)
  {
  }

  /** A string `email` property is normalised by trimming and lower-casing it. */
  lemma NormalizedString(s: string)
    ensures NormalizedEmail(JObj(map["email" := JStr(s)])) == Lower(Trim(s))
  {
    var b := JObj(map["email" := JStr(s)]);
    assert Get(b, "email") == JStr(s);
    if s == "" {
      assert Or(JStr(s), JStr("")) == JStr("");
    }
  }

  /**
   * Input case never matters: two addresses equal up to case get the same
   * reply, because the string is lower-cased (after trimming, which does not
   * see case) before any test.
   */
  lemma CaseNeverMatters(s: string, t: string, statusOf: string -> Option<Json>)
    requires Lower(s) == Lower(t)
    ensures Post(Some(JObj(map["email" := JStr(s)])), statusOf) == Post(Some(JObj(map["email" := JStr(t)])), statusOf)
  {
    NormalizedString(s);
    NormalizedString(t);
    LowerTrim(s);
    LowerTrim(t);
    OnlyNormalizedEmailMatters(JObj(map["email" := JStr(s)]), JObj(map["email" := JStr(t)]), statusOf);
  }

  /** A missing or falsy `email` is the empty address, which fails the format check. */
  lemma MissingEmailIsFormatError(body: Json, statusOf: string -> Option<Json>)
    requires !Truthy(Get(body, "email"))
    ensures Post(Some(body), statusOf) == Error(400, FormatError)
  {
    assert Or(Get(body, "email"), JStr("")) == JStr("");
    assert Trim("") == "" && Lower("") == "";
    assert NormalizedEmail(body) == "";
    assert !IsValidEmail("");
  }

  /**
   * The status is compared through `String`, so 'ACTIVO' counts as active
   * and a row without a status ('undefined', 'null') is never active.
   */
  lemma StatusThroughString()
    ensures ByStatus(Some(JStr("ACTIVO"))).status == 200
    ensures ByStatus(Some(JNull)).status == 410
  {
    assert Lower("ACTIVO") == "activo";
    assert |Lower("null")| != |"activo"|;
  }
}
