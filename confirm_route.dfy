/**
 * src/app/api/auth/confirm/route.ts: `GET /api/auth/confirm?token=…`.  The
 * token is looked up in `email_confirmations`, else in the profiles'
 * `custom_fields.confirmation_token`; an already confirmed record sends the
 * user to /app, an expired one is marked 'expired', and otherwise the user
 * is activated and the record marked 'confirmed'.
 *
 * The clock is `now`, `time(v)` is `new Date(v).getTime()`, and whether the
 * `users` update fails is an input; the other writes are taken to succeed.
 */
module ConfirmRoute {
  import opened Text
  import opened Db

  const TokenRequired: string := "Token requerido"
  const InvalidToken: string := "Token inválido"
  const TokenExpired: string := "Token expirado. Solicita reenvío."
  const ActivationFailed: string := "No se pudo activar la cuenta"

  /** A non-empty set has an element. */
  lemma HasElement(s: set<int>)
    requires s != {}
    ensures exists x :: x in s
  {
    if forall x :: x !in s {
      assert false;
    }
  }

  /** The one element of a singleton set: what `.maybeSingle()` gives, null for no row or several. */
  ghost function Only(s: set<int>): (r: Option<int>)
    ensures r.Some? <==> |s| == 1
    ensures r.Some? ==> r.value in s
  {
    if |s| == 1 then
      HasElement(s);
      var x :| x in s; Some(x)
    else None
  }

  lemma OnlyIs(s: set<int>, x: int)
    requires |s| == 1 && x in s
    ensures Only(s) == Some(x)
  {
    var y := Only(s).value;
    assert |s - {x}| == 0;
    assert y !in s - {x};
  }

  function ConfirmationsWith(confs: map<int, Confirmation>, token: string): set<int>
  {
    set id | id in confs && confs[id].token == token
  }

  /** The filter `custom_fields->>confirmation_token = token`, by `user_id`. */
  function ProfilesWith(profiles: map<int, Profile>, token: string): set<int>
  {
    set uid | uid in profiles && Get(profiles[uid].customFields, "confirmation_token") == JStr(token)
  }

  /** Where the token was found, with the locals `userId`, `expiresAtIso`, `status` and `confId` it sets. */
  datatype Found =
    | ByConfirmation(confId: int, userId: Json, expiresAt: Json, status: Json)
    | ByProfile(userId: Json, expiresAt: Json, status: Json)
    | NotFound

  function FromConfirmation(id: int, r: Confirmation): Found
  {
    ByConfirmation(id, r.userId, r.expiresAt, r.status)
  }

  /** The profile fallback: expiry from `custom_fields`, and a status defaulting to 'pending'. */
  function FromProfile(uid: int, p: Profile): Found
  {
    ByProfile(JNum(uid), Or(Get(p.customFields, "confirmation_expires_at"), JNull),
              Or(Get(p.customFields, "status"), JStr("pending")))
  }

  ghost function Find(confs: map<int, Confirmation>, profiles: map<int, Profile>, token: string): Found
  {
    var c := Only(ConfirmationsWith(confs, token));
    if c.Some? then FromConfirmation(c.value, confs[c.value])
    else
      var p := Only(ProfilesWith(profiles, token));
      if p.Some? then FromProfile(p.value, profiles[p.value]) else NotFound
  }

  function UserKey(v: Json): Option<int>
  {
    if v.JNum? then Some(v.n) else None
  }

  /**
   * Marking the record: the confirmation row by `confId` when it is truthy,
   * otherwise the profile of `userId`, whose `custom_fields` become just
   * `{ status }`.  A key no row has changes nothing.
   */
  function Mark(confs: map<int, Confirmation>, profiles: map<int, Profile>, f: Found, st: string)
    : (map<int, Confirmation>, map<int, Profile>)
    requires !f.NotFound?
  {
    if f.ByConfirmation? && f.confId != 0 then
      (if f.confId in confs then confs[f.confId := confs[f.confId].(status := JStr(st))] else confs, profiles)
    else
      var k := UserKey(f.userId);
      (confs, if k.Some? && k.value in profiles
              then profiles[k.value := profiles[k.value].(customFields := JObj(map["status" := JStr(st)]))]
              else profiles)
  }

  /** `users.update({ status: 'activo' }).eq('id', userId)`. */
  function Activate(users: map<int, UserRow>, userId: Json): map<int, UserRow>
  {
    var k := UserKey(userId);
    if k.Some? && k.value in users then users[k.value := users[k.value].(status := JStr("activo"))] else users
  }

  /** The expiry test: no expiry, or one before now. */
  predicate IsExpired(f: Found, now: int, time: Json -> int)
    requires !f.NotFound?
  {
    !Truthy(f.expiresAt) || time(f.expiresAt) < now
  }

  /** The reply, the three tables afterwards, and the auth user whose metadata was set active, if any. */
  datatype Outcome = Outcome(reply: Reply, users: map<int, UserRow>, confs: map<int, Confirmation>,
                             profiles: map<int, Profile>, authActivated: Option<string>)

  /** `GET`, as a function of the tables before it. */
  ghost function Confirm(users: map<int, UserRow>, confs: map<int, Confirmation>, profiles: map<int, Profile>,
                         token: Option<string>, now: int, time: Json -> int, activationFails: bool): Outcome
  {
    var same := Outcome(Redirect("/app"), users, confs, profiles, None);
    if token.None? || token.value == "" then same.(reply := Error(400, TokenRequired))
    else
      var f := Find(confs, profiles, token.value);
      if f.NotFound? then same.(reply := Error(400, InvalidToken))
      else if f.status == JStr("confirmed") then same
      else if IsExpired(f, now, time) then
        var (c, p) := Mark(confs, profiles, f, "expired");
        Outcome(Error(400, TokenExpired), users, c, p, None)
      else if activationFails then same.(reply := Error(400, ActivationFailed))
      else
        var u := Activate(users, f.userId);
        var k := UserKey(f.userId);
        var auth := if k.Some? && k.value in u && u[k.value].authUserId != "" then Some(u[k.value].authUserId) else None;
        var (c, p) := Mark(confs, profiles, f, "confirmed");
        Outcome(Redirect("/app"), u, c, p, auth)
  }

  /** The handler's steps over the tables. */
  method HandleGet(db: Store, token: Option<string>, now: int, time: Json -> int, activationFails: bool)
    returns (reply: Reply, authActivated: Option<string>)
    modifies db
    ensures Outcome(reply, db.users, db.confirmations, db.profiles, authActivated)
      == Confirm(old(db.users), old(db.confirmations), old(db.profiles), token, now, time, activationFails)
    ensures db.authEvents == old(db.authEvents)
  {
    authActivated := None;
    if token.None? || token.value == "" {
      return Error(400, TokenRequired), None;
    }
    var t := token.value;
    var f: Found;
    var byToken := set id | id in db.confirmations && db.confirmations[id].token == t;
    assert byToken == ConfirmationsWith(db.confirmations, t);
    if |byToken| == 1 {
      HasElement(byToken);
      var id :| id in byToken;
      OnlyIs(byToken, id);
      f := FromConfirmation(id, db.confirmations[id]);
    } else {
      var profs := set uid | uid in db.profiles && Get(db.profiles[uid].customFields, "confirmation_token") == JStr(t);
      assert profs == ProfilesWith(db.profiles, t);
      if |profs| != 1 {
        return Error(400, InvalidToken), None;
      }
      HasElement(profs);
      var uid :| uid in profs;
      OnlyIs(profs, uid);
      f := FromProfile(uid, db.profiles[uid]);
    }
    assert f == Find(db.confirmations, db.profiles, t);

    if f.status == JStr("confirmed") {
      return Redirect("/app"), None;
    }
    var expired := !Truthy(f.expiresAt) || time(f.expiresAt) < now;
    if expired {
      var (c, p) := Mark(db.confirmations, db.profiles, f, "expired");
      db.confirmations, db.profiles := c, p;
      return Error(400, TokenExpired), None;
    }
    if activationFails {
      return Error(400, ActivationFailed), None;
    }
    db.users := Activate(db.users, f.userId);
    var k := UserKey(f.userId);
    if k.Some? && k.value in db.users && db.users[k.value].authUserId != "" {
      authActivated := Some(db.users[k.value].authUserId);
    }
    var (c, p) := Mark(db.confirmations, db.profiles, f, "confirmed");
    db.confirmations, db.profiles := c, p;
    reply := Redirect("/app");
  }

  /** Without a token nothing is read or written and the reply is 400. */
  lemma NoTokenNoWrites(users: map<int, UserRow>, confs: map<int, Confirmation>, profiles: map<int, Profile>,
                        now: int, time: Json -> int, fails: bool)
    ensures Confirm(users, confs, profiles, None, now, time, fails)
      == Outcome(Error(400, TokenRequired), users, confs, profiles, None)
    ensures Confirm(users, confs, profiles, Some(""), now, time, fails)
      == Outcome(Error(400, TokenRequired), users, confs, profiles, None)
  {
  }

  /** A single confirmation row with the token wins over any profile holding it. */
  lemma ConfirmationRowWins(confs: map<int, Confirmation>, profiles: map<int, Profile>, token: string, id: int)
    requires id in confs && ConfirmationsWith(confs, token) == {id}
    ensures Find(confs, profiles, token) == FromConfirmation(id, confs[id])
  {
    OnlyIs({id}, id);
  }

  /** With no such row, a single profile holding the token is used; with neither, the reply is 400. */
  lemma ProfileFallback(users: map<int, UserRow>, confs: map<int, Confirmation>, profiles: map<int, Profile>,
                        token: string, now: int, time: Json -> int, fails: bool)
    requires token != "" && ConfirmationsWith(confs, token) == {}
    ensures |ProfilesWith(profiles, token)| == 1 ==>
      exists uid :: uid in profiles && Find(confs, profiles, token) == FromProfile(uid, profiles[uid])
    ensures ProfilesWith(profiles, token) == {} ==>
      Confirm(users, confs, profiles, Some(token), now, time, fails)
        == Outcome(Error(400, InvalidToken), users, confs, profiles, None)
  {
    if |ProfilesWith(profiles, token)| == 1 {
      var uid := Only(ProfilesWith(profiles, token)).value;
      assert Find(confs, profiles, token) == FromProfile(uid, profiles[uid]);
    }
  }

  /** The profile fallback defaults a missing status to 'pending', so it goes on to the expiry check. */
  lemma ProfileDefaultsPending(uid: int, p: Profile)
    requires !Truthy(Get(p.customFields, "status"))
    ensures FromProfile(uid, p).status == JStr("pending") && FromProfile(uid, p).status != JStr("confirmed")
  {
    assert "pending"[0] != "confirmed"[0];
  }

  /** A record already 'confirmed' redirects to /app and writes nothing. */
  lemma ConfirmedWritesNothing(users: map<int, UserRow>, confs: map<int, Confirmation>, profiles: map<int, Profile>,
                               token: string, now: int, time: Json -> int, fails: bool)
    requires token != ""
    requires var f := Find(confs, profiles, token); !f.NotFound? && f.status == JStr("confirmed")
    ensures Confirm(users, confs, profiles, Some(token), now, time, fails)
      == Outcome(Redirect("/app"), users, confs, profiles, None)
  {
  }

  /** An expired or expiry-less record is marked 'expired', the users are untouched, and the reply is 400. */
  lemma ExpiredMarked(users: map<int, UserRow>, confs: map<int, Confirmation>, profiles: map<int, Profile>,
                      token: string, now: int, time: Json -> int, fails: bool)
    requires token != ""
    requires var f := Find(confs, profiles, token);
      !f.NotFound? && f.status != JStr("confirmed") && IsExpired(f, now, time)
    ensures var o := Confirm(users, confs, profiles, Some(token), now, time, fails);
      && o.reply == Error(400, TokenExpired) && o.users == users && o.authActivated == None
      && (o.confs, o.profiles) == Mark(confs, profiles, Find(confs, profiles, token), "expired")
  {
  }

  /** If activating the user fails, nothing at all is written: the record is not marked. */
  lemma FailedActivationMarksNothing(users: map<int, UserRow>, confs: map<int, Confirmation>,
                                     profiles: map<int, Profile>, token: string, now: int, time: Json -> int)
    requires token != ""
    requires var f := Find(confs, profiles, token);
      !f.NotFound? && f.status != JStr("confirmed") && !IsExpired(f, now, time)
    ensures Confirm(users, confs, profiles, Some(token), now, time, true)
      == Outcome(Error(400, ActivationFailed), users, confs, profiles, None)
  {
  }

  /**
   * A live record activates its user and is then marked 'confirmed'; a
   * profile-held token replaces all of that profile's custom fields by
   * `{ status: 'confirmed' }`, its saved chat history included.
   */
  lemma LiveTokenActivates(users: map<int, UserRow>, confs: map<int, Confirmation>, profiles: map<int, Profile>,
                           token: string, now: int, time: Json -> int)
    requires token != ""
    requires var f := Find(confs, profiles, token);
      !f.NotFound? && f.status != JStr("confirmed") && !IsExpired(f, now, time)
    ensures var f := Find(confs, profiles, token);
      var o := Confirm(users, confs, profiles, Some(token), now, time, false);
      && o.reply == Redirect("/app")
      && o.users == Activate(users, f.userId)
      && (o.confs, o.profiles) == Mark(confs, profiles, f, "confirmed")
      && (f.ByProfile? && f.userId.JNum? && f.userId.n in profiles ==>
            o.profiles[f.userId.n].customFields == JObj(map["status" := JStr("confirmed")]))
  {
  }

  /** Activation writes exactly the user's status and nothing else of `users`. */
  lemma ActivateOnlyThatUser(users: map<int, UserRow>, uid: int)
    requires uid in users
    ensures var u := Activate(users, JNum(uid));
      && u.Keys == users.Keys && u[uid] == users[uid].(status := JStr("activo"))
      && forall k :: k in users && k != uid ==> u[k] == users[k]
  {
  }
}
