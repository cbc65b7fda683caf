/**
 * src/app/login/page.tsx: the sign-in form.  `handleSubmit` checks the
 * address format and then the password length, and only then asks Supabase
 * Auth to sign in; a signed-in user is sent to /app.  Supabase's answer is
 * a parameter, and the router is the list of paths pushed to it.
 */
module LoginPage {
  import opened Text
  import opened Email
  import RegisterPage

  const FormatError: string := "Formato de correo inválido"
  const LengthError: string := "La contraseña debe tener al menos 8 caracteres"
  const CredentialsError: string := "Credenciales inválidas. Por favor, verifica tu email y contraseña."
  const ConnectionError: string := "Error de conexión. Inténtalo de nuevo."

  /** The first failing check of `handleSubmit`; `None` when both pass. */
  function FirstFailure(email: string, password: string): Option<string>
  {
    if !IsValidEmail(email) then Some(FormatError)
    else if Utf16Length(password) < 8 then Some(LengthError)
    else None
  }

  /** The format is checked first; the length only once the format passed. */
  lemma FirstFailureOrder(email: string, password: string)
    ensures FirstFailure(email, password) == Some(FormatError) <==> !IsValidEmail(email)
    ensures FirstFailure(email, password) == Some(LengthError) <==> IsValidEmail(email) && Utf16Length(password) < 8
    ensures FirstFailure(email, password) == None <==> IsValidEmail(email) && Utf16Length(password) >= 8
  {
    assert |FormatError| != |LengthError|;
  }

  /** The login messages are registration's, so both pages report the same text for the same failure. */
  lemma SameMessagesAsRegistration()
    ensures FormatError == RegisterPage.FormatError && LengthError == RegisterPage.LengthError
  {
  }

  /**
   * Sign-in has no company-domain restriction: an address registration turns
   * away for its domain passes every login check.
   */
  lemma NoDomainRestriction(fullName: string, email: string, password: string)
    requires !RegisterPage.NameTooShort(fullName)
    requires IsValidEmail(email) && !IsAllowedDomain(email) && Utf16Length(password) >= 8
    ensures FirstFailure(email, password) == None
    ensures RegisterPage.FirstFailure(fullName, email, password, password) == Some(RegisterPage.DomainError)
  {
  }

  /** What `signInWithPassword` did: an error, a data object with or without a user, or a throw. */
  datatype SignInAnswer = SignInFailed | SignedIn(hasUser: bool) | SignInThrew

  /** The page's state; `pushed` lists what was handed to `router.push`. */
  class Form {
    var error: string
    var loading: bool
    var pushed: seq<string>

    constructor ()
      ensures error == "" && !loading && pushed == []
    {
      error := "";
      loading := false;
      pushed := [];
    }

    /**
     * `handleSubmit`: a failing check sets its message and nothing else; when
     * both pass the error is cleared, sign-in is attempted, a failure or a
     * throw sets its message, a user is sent to /app, and `loading` ends false.
     */
    method Submit(email: string, password: string, answer: SignInAnswer) returns (attempted: bool)
      modifies this
      ensures attempted <==> FirstFailure(email, password).None?
      ensures !attempted ==>
        error == FirstFailure(email, password).value && loading == old(loading) && pushed == old(pushed)
      ensures attempted ==>
        && !loading
        && error == (if answer.SignInFailed? then CredentialsError else if answer.SignInThrew? then ConnectionError else "")
        && pushed == old(pushed) + (if answer == SignedIn(true) then ["/app"] else [])
    {
      if !IsValidEmail(email) {
        error := FormatError;
        return false;
      }
      if Utf16Length(password) < 8 {
        error := LengthError;
        return false;
      }
      loading := true;
      error := "";
      attempted := true;
      match answer {
        case SignInFailed =>
          error := CredentialsError;
        case SignedIn(hasUser) =>
          if hasUser {
            pushed := pushed + ["/app"];
          }
        case SignInThrew =>
          error := ConnectionError;
      }
      loading := false;
    }
  }
}
