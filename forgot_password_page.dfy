/**
 * src/app/forgot-password/page.tsx: the password-recovery form.  Every
 * submit clears both banners; an address of valid format is the only
 * condition for asking Supabase Auth to send the recovery mail, whose link
 * leads back to /reset-password on the page's own origin.
 */
module ForgotPasswordPage {
  import opened Text
  import opened Email

  const FormatError: string := "Formato de correo inválido"
  const SendError: string := "No se pudo enviar el correo de recuperación"
  const ConnectionError: string := "Error de conexión. Intenta nuevamente."
  const Sent: string := "Te hemos enviado un correo para restablecer tu contraseña"

  /** The request `resetPasswordForEmail` receives. */
  datatype ResetRequest = ResetRequest(email: string, redirectTo: string)

  /** What `resetPasswordForEmail` did. */
  datatype ResetAnswer = ResetFailed | ResetSent | ResetThrew

  /** The banners once the request answered. */
  function AfterRequest(a: ResetAnswer): (string, string)
  {
    match a
    case ResetFailed => (SendError, "")
    case ResetSent => ("", Sent)
    case ResetThrew => (ConnectionError, "")
  }

  /** Exactly one banner is shown after a request, and a success is never shown as an error. */
  lemma OneBannerAfterRequest(a: ResetAnswer)
    ensures var (e, m) := AfterRequest(a); (e == "") != (m == "")
    ensures AfterRequest(a).1 != "" <==> a == ResetSent
  {
  }

  class Form {
    var error: string
    var message: string
    var loading: bool

    constructor ()
      ensures error == "" && message == "" && !loading
    {
      error := "";
      message := "";
      loading := false;
    }

    /**
     * `handleSubmit`: both banners are cleared; an invalid address sets the
     * format error and requests nothing; otherwise the request goes out with
     * the address as typed and its answer sets one banner.
     */
    method Submit(email: string, windowOrigin: string, answer: ResetAnswer) returns (request: Option<ResetRequest>)
      modifies this
      ensures request.Some? <==> IsValidEmail(email)
      ensures !IsValidEmail(email) ==> error == FormatError && message == "" && loading == old(loading)
      ensures IsValidEmail(email) ==>
        && request == Some(ResetRequest(email, windowOrigin + "/reset-password"))
        && (error, message) == AfterRequest(answer)
        && !loading
    {
      message := "";
      error := "";
      if !IsValidEmail(email) {
        error := FormatError;
        return None;
      }
      loading := true;
      request := Some(ResetRequest(email, windowOrigin + "/reset-password"));
      match answer {
        case ResetFailed =>
          error := SendError;
        case ResetSent =>
          message := Sent;
        case ResetThrew =>
          error := ConnectionError;
      }
      loading := false;
    }
  }

  /** A banner left by an earlier submit never survives the next one. */
  method SubmitTwice(first: string, second: string, origin: string, a1: ResetAnswer, a2: ResetAnswer)
    returns (error: string, message: string)
    ensures IsValidEmail(second) ==> (error, message) == AfterRequest(a2)
    ensures !IsValidEmail(second) ==> error == FormatError && message == ""
  {
    var f := new Form();
    var r1 := f.Submit(first, origin, a1);
    var r2 := f.Submit(second, origin, a2);
    error := f.error;
    message := f.message;
  }
}
