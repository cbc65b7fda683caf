/**
 * src/lib/supabase/roles.ts: the two base role codes, their normalisation,
 * and `ensureRole`, which looks a role up by code and seeds it when the
 * lookup found no row.  The two table calls are oracle answers.
 */
module Roles {
  import opened Text

  datatype BaseRole = Solicitante | Administrador

  function Code(r: BaseRole): string
  {
    match r
    case Solicitante => "solicitante"
    case Administrador => "administrador"
  }

  /** `normalizeRole(role)`; `None` is `undefined`. */
  function NormalizeRole(role: Option<string>): BaseRole
  {
    if role == Some("administrador") then Administrador else Solicitante
  }

  /** Only exactly 'administrador' gives the administrator role. */
  lemma NormalizeRoleIff(role: Option<string>)
    ensures NormalizeRole(role) == Administrador <==> role == Some("administrador")
    ensures NormalizeRole(None) == Solicitante
    ensures NormalizeRole(Some("Administrador")) == Solicitante
  {
    assert "Administrador" != "administrador" by { assert "Administrador"[0] != "administrador"[0]; }
  }

  /** Normalising a normalised code changes nothing. */
  lemma NormalizeRoleIdempotent(role: Option<string>)
    ensures NormalizeRole(Some(Code(NormalizeRole(role)))) == NormalizeRole(role)
  {
    assert "solicitante" != "administrador" by { assert "solicitante"[0] != "administrador"[0]; }
  }

  /** The lookup's answer: the row's `id` (if a row came back) and the error's code (if any). */
  datatype RoleQuery = RoleQuery(rowId: Option<int>, errorCode: Option<string>)

  /** The insert's answer: whether it failed, and the new row's `id`. */
  datatype InsertAnswer = InsertAnswer(failed: bool, id: Option<int>)

  /** What `ensureRole` returns, and the row it tried to insert, if it tried. */
  datatype EnsureOutcome = EnsureOutcome(id: Option<int>, seeded: Option<(string, string)>)

  /** JavaScript truthiness of a numeric id. */
  predicate TruthyId(id: Option<int>) { id.Some? && id.value != 0 }

  function SeedName(code: BaseRole): string
  {
    if Code(code) == "solicitante" then "Solicitante" else "Administrador"
  }

  function EnsureRole(code: BaseRole, q: RoleQuery, insert: (string, string) -> InsertAnswer): EnsureOutcome
  {
    if TruthyId(q.rowId) then EnsureOutcome(q.rowId, None)
    else if q.errorCode.Some? && q.errorCode.value != "PGRST116" then EnsureOutcome(None, None)
    else
      var row := (Code(code), SeedName(code));
      var a := insert(row.0, row.1);
      if a.failed || !TruthyId(a.id) then EnsureOutcome(None, Some(row))
      else EnsureOutcome(a.id, Some(row))
  }

  /** The steps of `ensureRole`, with its early returns. */
  method EnsureRoleSteps(code: BaseRole, q: RoleQuery, insert: (string, string) -> InsertAnswer)
    returns (id: Option<int>, seeded: Option<(string, string)>)
    ensures EnsureOutcome(id, seeded) == EnsureRole(code, q, insert)
  {
    seeded := None;
    if TruthyId(q.rowId) {
      id := q.rowId;
      return;
    }
    if q.errorCode.Some? && q.errorCode.value != "PGRST116" {
      id := None;
      return;
    }
    var name := if Code(code) == "solicitante" then "Solicitante" else "Administrador";
    seeded := Some((Code(code), name));
    var a := insert(Code(code), name);
    if a.failed || !TruthyId(a.id) {
      id := None;
      return;
    }
    id := a.id;
  }

  /** An existing id is returned as it is, and nothing is inserted. */
  lemma ExistingRoleNotSeeded(code: BaseRole, q: RoleQuery, insert: (string, string) -> InsertAnswer)
    requires TruthyId(q.rowId)
    ensures EnsureRole(code, q, insert) == EnsureOutcome(q.rowId, None)
  {
  }

  /** A lookup error other than "no row" (PGRST116) gives null, with no insert. */
  lemma UnexpectedErrorGivesNull(code: BaseRole, q: RoleQuery, insert: (string, string) -> InsertAnswer)
    requires !TruthyId(q.rowId) && q.errorCode.Some? && q.errorCode.value != "PGRST116"
    ensures EnsureRole(code, q, insert) == EnsureOutcome(None, None)
  {
  }

  /**
   * Otherwise the role is seeded with the display name of its code, and the
   * result is the new id, or null when the insert failed or gave no id.
   */
  lemma SeededRow(code: BaseRole, q: RoleQuery, insert: (string, string) -> InsertAnswer)
    requires !TruthyId(q.rowId) && (q.errorCode.None? || q.errorCode.value == "PGRST116")
    ensures var o := EnsureRole(code, q, insert);
      && o.seeded == Some((Code(code), if code == Solicitante then "Solicitante" else "Administrador"))
      && var a := insert(o.seeded.value.0, o.seeded.value.1);
         o.id == if a.failed || !TruthyId(a.id) then None else a.id
  {
    assert "administrador" != "solicitante" by { assert "administrador"[0] != "solicitante"[0]; }
  }

  /** A returned id is never 0: every path returns a truthy id or null. */
  lemma ResultTruthyOrNull(code: BaseRole, q: RoleQuery, insert: (string, string) -> InsertAnswer)
    ensures EnsureRole(code, q, insert).id.None? || TruthyId(EnsureRole(code, q, insert).id)
  {
  }
}
