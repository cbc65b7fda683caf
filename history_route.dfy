/**
 * src/app/api/ai/history/route.ts: reading and clearing the chat history
 * kept in a profile's `custom_fields.chat_history`.  The caller (from the
 * bearer token) and the `users` row found for it are inputs; the profile is
 * read from, and written to, the `profiles` table.  A read that fails for a
 * reason other than "no row", and a write that fails, are inputs too.
 */
module HistoryRoute {
  import opened Text
  import opened Db

  const Unauthorized: string := "Unauthorized"
  const UserNotFound: string := "Usuario no encontrado"
  const ProfileReadError: string := "Error leyendo perfil"
  const CreateError: string := "Error creando perfil"
  const ClearError: string := "Error borrando historial"

  /** `{ error, details }` with status 400. */
  function Failure(e: string, details: string): Reply
  {
    JsonReply(400, JObj(map["error" := JStr(e), "details" := JStr(details)]))
  }

  /** `prof?.custom_fields || {}`. */
  function FieldsOf(prof: Option<Profile>): Json
  {
    if prof.None? then JObj(map[]) else Or(prof.value.customFields, JObj(map[]))
  }

  /** `Array.isArray(cf.chat_history) ? cf.chat_history : []`. */
  function HistoryOf(cf: Json): seq<Json>
  {
    var h := Get(cf, "chat_history");
    if h.JArr? then h.items else []
  }

  /** `GET`; `userId` is the `id` of the `users` row `.single()` found for the caller (`None` when it failed). */
  function HandleGet(actor: Option<string>, userId: Option<int>, profiles: map<int, Profile>,
                     readError: Option<string>): Reply
  {
    if actor.None? then Error(401, Unauthorized)
    else if userId.None? || userId.value == 0 then Error(404, UserNotFound)
    else if readError.Some? then Failure(ProfileReadError, readError.value)
    else
      var prof := if userId.value in profiles then Some(profiles[userId.value]) else None;
      JsonReply(200, JObj(map["history" := JArr(HistoryOf(FieldsOf(prof)))]))
  }

  /** Without a caller the reply is 401; without a user row, 404. */
  lemma GetGuards(userId: Option<int>, profiles: map<int, Profile>, readError: Option<string>, actor: string)
    ensures HandleGet(None, userId, profiles, readError) == Error(401, Unauthorized)
    ensures HandleGet(Some(actor), None, profiles, readError) == Error(404, UserNotFound)
    ensures HandleGet(Some(actor), Some(0), profiles, readError) == Error(404, UserNotFound)
  {
  }

  /**
   * A missing profile (Supabase's PGRST116) is an empty history; another
   * read failure is 400; a profile's history is its `chat_history` when that
   * is an array, else empty.
   */
  lemma GetHistory(actor: string, uid: int, profiles: map<int, Profile>, readError: Option<string>)
    requires uid != 0
    ensures readError.Some? ==> HandleGet(Some(actor), Some(uid), profiles, readError).status == 400
    ensures readError.None? && uid !in profiles ==>
      HandleGet(Some(actor), Some(uid), profiles, readError) == JsonReply(200, JObj(map["history" := JArr([])]))
    ensures readError.None? && uid in profiles ==>
      var h := Get(profiles[uid].customFields, "chat_history");
      HandleGet(Some(actor), Some(uid), profiles, readError)
        == JsonReply(200, JObj(map["history" := JArr(if h.JArr? then h.items else [])]))
  {
    if readError.None? && uid in profiles {
      var cf := profiles[uid].customFields;
      if !Truthy(cf) {
        assert !cf.JObj?;
        assert Get(cf, "chat_history") == JNull;
      }
    }
  }

  /** `{ ...cf }`: an object's own properties; other values spread to `{}` here. */
  function Spread(cf: Json): map<string, Json>
  {
    if cf.JObj? then cf.fields else map[]
  }

  /** The custom fields after clearing: every other key kept, `chat_history` set to `[]`. */
  function Cleared(cf: Json): Json
  {
    JObj(Spread(cf)["chat_history" := JArr([])])
  }

  /** The profiles after `DELETE`, and its reply. */
  datatype DeleteOutcome = DeleteOutcome(reply: Reply, profiles: map<int, Profile>)

  /**
   * `DELETE`: with no profile read (none there, or the read failed, or its
   * `id` is falsy) an upsert on `user_id` sets the custom fields to exactly
   * `{ chat_history: [] }`, keeping the row's `id` if there is one and
   * taking `freshId` otherwise; with a profile its history alone is cleared.
   */
  function Delete(actor: Option<string>, userId: Option<int>, profiles: map<int, Profile>, readFails: bool,
                  writeError: Option<string>, freshId: int): DeleteOutcome
  {
    if actor.None? then DeleteOutcome(Error(401, Unauthorized), profiles)
    else if userId.None? || userId.value == 0 then DeleteOutcome(Error(404, UserNotFound), profiles)
    else
      var uid := userId.value;
      var prof := if readFails || uid !in profiles then None else Some(profiles[uid]);
      if prof.None? || prof.value.id == 0 then
        if writeError.Some? then DeleteOutcome(Failure(CreateError, writeError.value), profiles)
        else
          var id := if uid in profiles then profiles[uid].id else freshId;
          DeleteOutcome(JsonReply(200, JObj(map["ok" := JBool(true)])),
                        profiles[uid := Profile(id, JObj(map["chat_history" := JArr([])]))])
      else if writeError.Some? then DeleteOutcome(Failure(ClearError, writeError.value), profiles)
      else
        DeleteOutcome(JsonReply(200, JObj(map["ok" := JBool(true)])),
                      profiles[uid := prof.value.(customFields := Cleared(Or(prof.value.customFields, JObj(map[]))))])
  }

  /** The handler's steps over the `profiles` table. */
  method HandleDelete(db: Store, actor: Option<string>, userId: Option<int>, readFails: bool,
                      writeError: Option<string>, freshId: int) returns (reply: Reply)
    modifies db
    ensures DeleteOutcome(reply, db.profiles) == Delete(actor, userId, old(db.profiles), readFails, writeError, freshId)
    ensures db.users == old(db.users) && db.confirmations == old(db.confirmations)
    ensures db.authEvents == old(db.authEvents)
  {
    if actor.None? {
      return Error(401, Unauthorized);
    }
    if userId.None? || userId.value == 0 {
      return Error(404, UserNotFound);
    }
    var uid := userId.value;
    var prof: Option<Profile> := None;
    if !readFails && uid in db.profiles {
      prof := Some(db.profiles[uid]);
    }
    if prof.None? || prof.value.id == 0 {
      if writeError.Some? {
        return Failure(CreateError, writeError.value);
      }
      var id := if uid in db.profiles then db.profiles[uid].id else freshId;
      db.profiles := db.profiles[uid := Profile(id, JObj(map["chat_history" := JArr([])]))];
    } else {
      var cf := Or(prof.value.customFields, JObj(map[]));
      var next := Spread(cf);
      next := next["chat_history" := JArr([])];
      if writeError.Some? {
        return Failure(ClearError, writeError.value);
      }
      db.profiles := db.profiles[uid := prof.value.(customFields := JObj(next))];
    }
    reply := JsonReply(200, JObj(map["ok" := JBool(true)]));
  }

  /**
   * Clearing an existing profile empties its history, keeps every other key
   * of its custom fields, and touches no other profile.
   */
  lemma DeleteKeepsOtherKeys(actor: string, uid: int, profiles: map<int, Profile>, freshId: int)
    requires uid != 0 && uid in profiles && profiles[uid].id != 0 && profiles[uid].customFields.JObj?
    ensures var o := Delete(Some(actor), Some(uid), profiles, false, None, freshId);
      var before := profiles[uid].customFields.fields;
      var after := o.profiles[uid].customFields;
      && o.reply.status == 200
      && o.profiles.Keys == profiles.Keys
      && after.JObj? && HistoryOf(after) == []
      && after.fields.Keys == before.Keys + {"chat_history"}
      && (forall k :: k in before && k != "chat_history" ==> after.fields[k] == before[k])
      && (forall u :: u in profiles && u != uid ==> o.profiles[u] == profiles[u])
  {
  }

  /** Without a profile the upsert writes exactly `{ chat_history: [] }`. */
  lemma DeleteCreatesEmptyProfile(actor: string, uid: int, profiles: map<int, Profile>, freshId: int)
    requires uid != 0 && uid !in profiles
    ensures var o := Delete(Some(actor), Some(uid), profiles, false, None, freshId);
      o.reply.status == 200 && o.profiles == profiles[uid := Profile(freshId, JObj(map["chat_history" := JArr([])]))]
  {
  }

  /**
   * A failed profile read is taken for "no profile": the upsert then
   * replaces the existing profile's custom fields, dropping every other key.
   */
  lemma ReadFailureWipesOtherKeys(actor: string, uid: int, profiles: map<int, Profile>, freshId: int)
    requires uid != 0 && uid in profiles
    ensures Delete(Some(actor), Some(uid), profiles, true, None, freshId).profiles[uid]
      == Profile(profiles[uid].id, JObj(map["chat_history" := JArr([])]))
  {
  }

  /** After a successful `DELETE`, `GET` reads an empty history. */
  lemma DeleteThenGetIsEmpty(actor: string, uid: int, profiles: map<int, Profile>, readFails: bool, freshId: int)
    requires uid != 0
    ensures var o := Delete(Some(actor), Some(uid), profiles, readFails, None, freshId);
      HandleGet(Some(actor), Some(uid), o.profiles, None) == JsonReply(200, JObj(map["history" := JArr([])]))
  {
    var o := Delete(Some(actor), Some(uid), profiles, readFails, None, freshId);
    assert uid in o.profiles;
    var cf := o.profiles[uid].customFields;
    assert cf.JObj? && "chat_history" in cf.fields && cf.fields["chat_history"] == JArr([]);
    assert FieldsOf(Some(o.profiles[uid])) == cf;
  }

  /** A failed write changes nothing and answers 400. */
  lemma FailedWriteChangesNothing(actor: string, uid: int, profiles: map<int, Profile>, readFails: bool,
                                  msg: string, freshId: int)
    requires uid != 0
    ensures var o := Delete(Some(actor), Some(uid), profiles, readFails, Some(msg), freshId);
      o.profiles == profiles && o.reply.status == 400
  {
  }
}
