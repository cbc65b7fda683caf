/**
 * src/app/reset-password/page.tsx: the new-password form reached from the
 * recovery mail.  An effect flags a link whose `type` parameter is present
 * and is not 'recovery'; `handleSubmit` clears both banners, checks the
 * length and then the confirmation, and only then asks Supabase Auth to
 * update the password, scheduling a move to /login?reset=1 on success.
 */
module ResetPasswordPage {
  import opened Text

  const LinkError: string := "Enlace inválido"
  const LengthError: string := "La contraseña debe tener al menos 8 caracteres"
  const MatchError: string := "Las contraseñas no coinciden"
  const UpdateError: string := "No se pudo actualizar la contraseña"
  const ConnectionError: string := "Error de conexión. Intenta nuevamente."
  const Updated: string := "Contraseña actualizada correctamente"
  const AfterReset: string := "/login?reset=1"

  /** `type && type !== 'recovery'`, where `search.get` gives `null` (`None`) for an absent parameter. */
  predicate BadLink(typeParam: Option<string>)
  {
    typeParam.Some? && typeParam.value != "" && typeParam.value != "recovery"
  }

  /** An absent or empty type, or 'recovery', is accepted; anything else is flagged. */
  lemma BadLinkCases(t: string)
    ensures !BadLink(None) && !BadLink(Some("")) && !BadLink(Some("recovery"))
    ensures t != "" && t != "recovery" ==> BadLink(Some(t))
  {
  }

  /** The first failing check of `handleSubmit`; `None` when both pass. */
  function FirstFailure(password: string, confirm: string): Option<string>
  {
    if Utf16Length(password) < 8 then Some(LengthError)
    else if password != confirm then Some(MatchError)
    else None
  }

  /** The length is checked before the confirmation; the update needs both. */
  lemma FirstFailureOrder(password: string, confirm: string)
    ensures FirstFailure(password, confirm) == Some(LengthError) <==> Utf16Length(password) < 8
    ensures FirstFailure(password, confirm) == Some(MatchError) <==> Utf16Length(password) >= 8 && password != confirm
    ensures FirstFailure(password, confirm) == None <==> Utf16Length(password) >= 8 && password == confirm
  {
    assert |LengthError| != |MatchError|;
  }

  /** What `updateUser` did. */
  datatype UpdateAnswer = UpdateFailed | UpdateDone | UpdateThrew

  class Form {
    var error: string
    var message: string
    var loading: bool
    /** Paths whose `router.push` a timer has been set for. */
    var scheduled: seq<string>

    constructor ()
      ensures error == "" && message == "" && !loading && scheduled == []
    {
      error := "";
      message := "";
      loading := false;
      scheduled := [];
    }

    /** The effect on the search parameters: a bad link sets the link error, anything else changes nothing. */
    method CheckLink(typeParam: Option<string>)
      modifies this
      ensures error == if BadLink(typeParam) then LinkError else old(error)
      ensures message == old(message) && loading == old(loading) && scheduled == old(scheduled)
    {
      if typeParam.Some? && typeParam.value != "" && typeParam.value != "recovery" {
        error := LinkError;
      }
    }

    /**
     * `handleSubmit`: both banners are cleared, so a link error never blocks
     * it; a failing check sets its message; otherwise the update is asked for
     * and its answer sets one banner, a success also scheduling /login?reset=1.
     */
    method Submit(password: string, confirm: string, answer: UpdateAnswer) returns (updateCalled: bool)
      modifies this
      ensures updateCalled <==> FirstFailure(password, confirm).None?
      ensures !updateCalled ==>
        error == FirstFailure(password, confirm).value && message == ""
        && loading == old(loading) && scheduled == old(scheduled)
      ensures updateCalled ==> !loading && match answer
        case UpdateFailed => error == UpdateError && message == "" && scheduled == old(scheduled)
        case UpdateDone => error == "" && message == Updated && scheduled == old(scheduled) + [AfterReset]
        case UpdateThrew => error == ConnectionError && message == "" && scheduled == old(scheduled)
    {
      error := "";
      message := "";
      if Utf16Length(password) < 8 {
        error := LengthError;
        return false;
      }
      if password != confirm {
        error := MatchError;
        return false;
      }
      loading := true;
      updateCalled := true;
      match answer {
        case UpdateFailed =>
          error := UpdateError;
        case UpdateDone =>
          message := Updated;
          scheduled := scheduled + [AfterReset];
        case UpdateThrew =>
          error := ConnectionError;
      }
      loading := false;
    }
  }

  /** Opening the page from any link and submitting: the update depends on the passwords alone. */
  method OpenAndSubmit(typeParam: Option<string>, password: string, confirm: string, answer: UpdateAnswer)
    returns (linkFlagged: bool, updateCalled: bool)
    ensures linkFlagged == BadLink(typeParam)
    ensures updateCalled <==> FirstFailure(password, confirm).None?
  {
    var f := new Form();
    f.CheckLink(typeParam);
    linkFlagged := f.error == LinkError;
    updateCalled := f.Submit(password, confirm, answer);
  }
}
