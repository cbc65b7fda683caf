/**
 * src/app/register/page.tsx: the registration form.  `handleSubmit` runs
 * five checks in a fixed order, reports only the first that fails, and
 * otherwise asks Supabase Auth to sign the user up; `handleResend` asks it
 * to send the confirmation mail again, and its button is enabled only for
 * an acceptable address.  What Supabase answers is a parameter.
 */
module RegisterPage {
  import opened Text
  import opened Email
  import StorageCache

  const NameError: string := "Nombre inválido (min 3 caracteres)"
  const FormatError: string := "Formato de correo inválido"
  const DomainError: string := "Solo se permite correo @digix.co"
  const LengthError: string := "La contraseña debe tener al menos 8 caracteres"
  const MatchError: string := "Las contraseñas no coinciden"

  const SignUpDefaultError: string := "Error registrando usuario en Supabase Auth"
  const NoUserIdError: string := "No se pudo obtener el ID del usuario de Auth"
  const NetworkError: string := "Error de red: inténtalo de nuevo."
  const Registered: string := "Registro exitoso. Hemos enviado un correo de confirmación. Revisa tu bandeja y sigue el enlace para activar tu cuenta."

  const ResendDefaultError: string := "No se pudo reenviar el correo"
  const ResendNetworkError: string := "Error de red al reenviar. Inténtalo de nuevo."
  const Resent: string := "Hemos reenviado el correo de confirmación. Revisa tu bandeja."

  /** The name test: `!fullName || fullName.trim().length < 3`, lengths in UTF-16 code units. */
  predicate NameTooShort(fullName: string)
  {
    |fullName| == 0 || Utf16Length(Trim(fullName)) < 3
  }

  /** The first failing check of `handleSubmit`, in the order of the source; `None` when all pass. */
  function FirstFailure(fullName: string, email: string, password: string, confirm: string): Option<string>
  {
    if NameTooShort(fullName) then Some(NameError)
    else if !IsValidEmail(email) then Some(FormatError)
    else if !IsAllowedDomain(email) then Some(DomainError)
    else if Utf16Length(password) < 8 then Some(LengthError)
    else if password != confirm then Some(MatchError)
    else None
  }

  /** The five messages are distinct, so the message names the check that failed. */
  lemma ErrorsDistinct()
    ensures NameError != FormatError && NameError != DomainError && NameError != LengthError && NameError != MatchError
    ensures FormatError != DomainError && FormatError != LengthError && FormatError != MatchError
    ensures DomainError != LengthError && DomainError != MatchError
    ensures LengthError != MatchError
  {
    assert NameError[0] == 'N' && FormatError[0] == 'F' && DomainError[0] == 'S';
    assert |LengthError| != |MatchError|;
  }

  /**
   * Each message is reported exactly when its check fails and every earlier
   * one passed; no message means every check passed.
   */
  lemma FirstFailureOrder(fullName: string, email: string, password: string, confirm: string)
    ensures var r := FirstFailure(fullName, email, password, confirm);
      && (r == Some(NameError) <==> NameTooShort(fullName))
      && (r == Some(FormatError) <==> !NameTooShort(fullName) && !IsValidEmail(email))
      && (r == Some(DomainError) <==> !NameTooShort(fullName) && IsValidEmail(email) && !IsAllowedDomain(email))
      && (r == Some(LengthError) <==>
            !NameTooShort(fullName) && IsValidEmail(email) && IsAllowedDomain(email) && Utf16Length(password) < 8)
      && (r == Some(MatchError) <==>
            !NameTooShort(fullName) && IsValidEmail(email) && IsAllowedDomain(email) && Utf16Length(password) >= 8
            && password != confirm)
      && (r == None <==>
            !NameTooShort(fullName) && IsValidEmail(email) && IsAllowedDomain(email) && Utf16Length(password) >= 8
            && password == confirm)
  {
    ErrorsDistinct();
  }

  /** A name of at least three characters once trimmed always passes the name test. */
  lemma ThreeCharactersEnough(fullName: string)
    requires |Trim(fullName)| >= 3
    ensures !NameTooShort(fullName)
  {
  }

  /** A two-character name without white space is measured by its characters' code units. */
  lemma TwoCharacterName(c: char, d: char)
    requires !IsSpace(c) && !IsSpace(d)
    ensures NameTooShort([c, d]) <==> Utf16Units(c) + Utf16Units(d) < 3
  {
    TrimmedPairLength(c, d);
  }

  lemma TrimmedPairLength(c: char, d: char)
    requires !IsSpace(c) && !IsSpace(d)
    ensures Utf16Length(Trim([c, d])) == Utf16Units(c) + Utf16Units(d)
  {
    TrimPair(c, d);
    Utf16LengthPair(c, d);
  }

  /**
   * The count is in UTF-16 code units: a name of two characters outside the
   * Basic Multilingual Plane is long enough, one of two accented letters is not.
   */
  lemma NameLengthInCodeUnits()
    ensures !NameTooShort("\U{1F600}\U{1F600}")
    ensures NameTooShort("Ñá")
  {
    TwoCharacterName('\U{1F600}', '\U{1F600}');
    TwoCharacterName('Ñ', 'á');
  }

  /** A password too short is refused whatever the confirmation, and equality is tested only after length. */
  lemma PasswordChecks(fullName: string, email: string, password: string, confirm: string)
    requires !NameTooShort(fullName) && IsValidEmail(email) && IsAllowedDomain(email)
    ensures Utf16Length(password) < 8 ==> FirstFailure(fullName, email, password, confirm) == Some(LengthError)
    ensures Utf16Length(password) >= 8 && password != confirm ==>
      FirstFailure(fullName, email, password, confirm) == Some(MatchError)
  {
  }

  /** The request `signUp` receives: credentials, metadata and the confirmation link target. */
  datatype SignUpRequest = SignUpRequest(email: string, password: string, role: string, fullName: string,
                                         emailRedirectTo: string)

  /** What `supabase.auth.signUp` did: an error with its message, a user id ('' for none), or a throw. */
  datatype SignUpAnswer = SignUpFailed(message: string) | SignedUp(userId: string) | SignUpThrew

  /** What `supabase.auth.resend` did. */
  datatype ResendAnswer = ResendFailed(message: string) | ResendSent | ResendThrew

  /** `(NEXT_PUBLIC_SITE_URL || window.location.origin).replace(/\/$/, '')`, with '' for an unset variable. */
  function Origin(siteUrl: string, windowOrigin: string): string
  {
    StorageCache.DropTrailingSlash(if siteUrl != "" then siteUrl else windowOrigin)
  }

  /** The error and message shown once the sign-up answered. */
  function AfterSignUp(a: SignUpAnswer): (string, string)
  {
    match a
    case SignUpFailed(m) => (if m != "" then m else SignUpDefaultError, "")
    case SignedUp(id) => if id == "" then (NoUserIdError, "") else ("", Registered)
    case SignUpThrew => (NetworkError, "")
  }

  /** The error and message shown once the resend answered. */
  function AfterResend(a: ResendAnswer): (string, string)
  {
    match a
    case ResendFailed(m) => (if m != "" then m else ResendDefaultError, "")
    case ResendSent => ("", Resent)
    case ResendThrew => (ResendNetworkError, "")
  }

  /** `disabled={!email || !isValidEmail(email) || !isAllowedDomain(email)}`, negated. */
  predicate ResendEnabled(email: string)
  {
    !(email == "" || !IsValidEmail(email) || !IsAllowedDomain(email))
  }

  /** The button is enabled exactly for a valid address of the company domain; the emptiness test adds nothing. */
  lemma ResendEnabledIff(email: string)
    ensures ResendEnabled(email) <==> IsValidEmail(email) && IsAllowedDomain(email)
    ensures ResendEnabled(email) ==> EndsWith(Lower(email), "@digix.co")
  {
  }

  /** Whatever resend enables, a submit with a good name and passwords gets past the address checks. */
  lemma ResendEnabledPassesAddressChecks(fullName: string, email: string, password: string)
    requires ResendEnabled(email) && !NameTooShort(fullName) && Utf16Length(password) >= 8
    ensures FirstFailure(fullName, email, password, password) == None
  {
  }

  /** The page's state. */
  class Form {
    var error: string
    var message: string
    var loading: bool

    constructor ()
      ensures error == "" && message == "" && !loading
    {
      error := "";
      message := "";
      loading := false;
    }

    /**
     * `handleSubmit`: the message is cleared first; a failing check sets its
     * error and leaves `loading` and the previous error otherwise alone; when
     * every check passes the error is cleared, the sign-up is requested and
     * its answer decides the error and message, and `loading` ends false.
     */
    method Submit(fullName: string, email: string, password: string, confirm: string,
                  siteUrl: string, windowOrigin: string, answer: SignUpAnswer)
      returns (request: Option<SignUpRequest>)
      modifies this
      ensures FirstFailure(fullName, email, password, confirm).Some? ==>
        && request == None
        && error == FirstFailure(fullName, email, password, confirm).value
        && message == "" && loading == old(loading)
      ensures FirstFailure(fullName, email, password, confirm).None? ==>
        && request == Some(SignUpRequest(email, password, "solicitante", fullName,
                                         Origin(siteUrl, windowOrigin) + "/login"))
        && (error, message) == AfterSignUp(answer)
        && !loading
    {
      message := "";
      if fullName == "" || Utf16Length(Trim(fullName)) < 3 {
        error := NameError;
        return None;
      }
      if !IsValidEmail(email) {
        error := FormatError;
        return None;
      }
      if !IsAllowedDomain(email) {
        error := DomainError;
        return None;
      }
      if Utf16Length(password) < 8 {
        error := LengthError;
        return None;
      }
      if password != confirm {
        error := MatchError;
        return None;
      }
      loading := true;
      error := "";
      var origin := StorageCache.DropTrailingSlash(if siteUrl != "" then siteUrl else windowOrigin);
      request := Some(SignUpRequest(email, password, "solicitante", fullName, origin + "/login"));
      match answer {
        case SignUpFailed(m) =>
          error := if m != "" then m else SignUpDefaultError;
        case SignedUp(id) =>
          if id == "" {
            error := NoUserIdError;
          } else {
            message := Registered;
          }
        case SignUpThrew =>
          error := NetworkError;
      }
      loading := false;
    }

    /** `handleResend`: error and message are cleared, then the answer sets one of them. */
    method Resend(answer: ResendAnswer)
      modifies this
      ensures (error, message) == AfterResend(answer)
      ensures loading == old(loading)
    {
      error := "";
      message := "";
      match answer {
        case ResendFailed(m) =>
          error := if m != "" then m else ResendDefaultError;
        case ResendSent =>
          message := Resent;
        case ResendThrew =>
          error := ResendNetworkError;
      }
    }
  }

  /**
   * On a fresh page, a submit that fails a check shows that check's message
   * and nothing else, and sends nothing.
   */
  method SubmitOnFreshPage(fullName: string, email: string, password: string, confirm: string,
                           answer: SignUpAnswer)
    returns (requested: bool, error: string, message: string)
    ensures requested <==> FirstFailure(fullName, email, password, confirm).None?
    ensures !requested ==> error == FirstFailure(fullName, email, password, confirm).value && message == ""
    ensures requested ==> (error, message) == AfterSignUp(answer)
  {
    var f := new Form();
    var r := f.Submit(fullName, email, password, confirm, "", "", answer);
    requested := r.Some?;
    error := f.error;
    message := f.message;
  }
}
