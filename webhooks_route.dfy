/**
 * The identity-provider webhook: a chain of guarded early returns (secret,
 * signature headers, signature, database connection) in front of three event
 * handlers that create, leave alone or delete a user record. The signature
 * check, the database connection and the query layer's reading of the event's
 * user id are inputs.
 */
module WebhooksRoute {
  import opened Wrappers
  import opened Js
  import UserModel
  import TasksRoute

  const SecretMissing := "Webhook secret not configured"
  const HeadersMissing := "Missing Svix headers"
  const VerifyFailed := "Error verifying webhook"
  const ConnectionFailed := "Database connection error"
  const ProcessingFailed := "Error processing webhook event"
  const Processed := "Webhook received and processed"

  /** The three signature headers, each absent or present. */
  datatype SvixHeaders = SvixHeaders(id: Option<string>, timestamp: Option<string>, signature: Option<string>)

  /** The three headers once each is known to be truthy. */
  datatype Signature = Signature(id: string, timestamp: string, signature: string)

  /** `{ success, message }` with its HTTP status, or an exception that escapes
      the handler (destructuring a `null` event), which the framework answers
      with its own 500 page. */
  datatype Reply = Reply(status: int, success: bool, message: string) | Escaped {
    function Status(): int {
      if Escaped? then 500 else status
    }
  }

  function Fail(status: int, message: string): Reply {
    Reply(status, false, message)
  }

  /**
   * handleUserCreated and handleUserDeleted address the record through the
   * filter `{ authorId: id }`. `id` is `data.id` (None: undefined); `cast`
   * is the key the query layer matches for it (None: the cast throws). For an
   * undefined id the query layer drops the condition and matches any record,
   * which `cast` stands for by naming that record.
   */
  function Created(records: map<string, string>, id: Option<Json>,
                   cast: Option<Json> -> Option<string>): Option<map<string, string>>
  {
    match cast(id)
    case None => None
    case Some(key) =>
      if key in records then Some(records)
      else if !UserModel.Storable(id, key) then None
      else Some(records[key := UserModel.EmptyTasks])
  }

  function Deleted(records: map<string, string>, id: Option<Json>,
                   cast: Option<Json> -> Option<string>): Option<map<string, string>>
  {
    match cast(id)
    case None => None
    case Some(key) => Some(records - {key})
  }

  /** Dispatch on `type`: the records after the handler, or None when it throws
      (`const { id } = data` on a missing or null `data` throws too). */
  function Dispatch(records: map<string, string>, evt: Json,
                    cast: Option<Json> -> Option<string>): Option<map<string, string>>
    requires !evt.JNull?
  {
    var kind := Property(evt, "type");
    var data := Property(evt, "data");
    var handled := kind == Some(JString("user.created")) || kind == Some(JString("user.updated"))
                   || kind == Some(JString("user.deleted"));
    if !handled then Some(records)
    else if data.None? || data.value.JNull? then None
    else
      var id := Property(data.value, "id");
      if kind == Some(JString("user.created")) then Created(records, id, cast)
      else if kind == Some(JString("user.deleted")) then Deleted(records, id, cast)
      else Some(records)
  }

  /**
   * POST: the reply and the records afterwards. `secret` is the configured
   * secret, `verify(secret, payload, signature)` stands for the signature
   * library (the parsed event, or None when verification throws), `connected`
   * says whether connecting to the database succeeds.
   */
  function Post(records: map<string, string>, secret: Option<string>, headers: SvixHeaders,
                payload: string, verify: (string, string, Signature) -> Option<Json>,
                connected: bool, cast: Option<Json> -> Option<string>): (Reply, map<string, string>)
  {
    if !TruthyString(secret) then (Fail(500, SecretMissing), records)
    else if !TruthyString(headers.id) || !TruthyString(headers.timestamp) || !TruthyString(headers.signature)
    then (Fail(400, HeadersMissing), records)
    else match verify(secret.value, payload, Signature(headers.id.value, headers.timestamp.value, headers.signature.value))
      case None => (Fail(400, VerifyFailed), records)
      case Some(evt) =>
        if !connected then (Fail(500, ConnectionFailed), records)
        else if evt.JNull? then (Escaped, records)
        else match Dispatch(records, evt, cast)
          case None => (Fail(500, ProcessingFailed), records)
          case Some(after) => (Reply(200, true, Processed), after)
  }

  /** handleUserCreated over the store. */
  method HandleUserCreated(store: UserModel.UserStore, id: Option<Json>,
                           cast: Option<Json> -> Option<string>) returns (ok: bool)
    modifies store
    ensures ok <==> Created(old(store.records), id, cast).Some?
    ensures ok ==> store.records == Created(old(store.records), id, cast).value
    ensures !ok ==> store.records == old(store.records)
  {
    var key := cast(id);
    if key.None? {
      return false;
    }
    var existing := store.FindOne(key.value);
    if existing.Some? {
      return true;
    }
    if !UserModel.Storable(id, key.value) {
      return false;
    }
    var created := store.Create(key.value, Some(UserModel.EmptyTasks));
    return true;
  }

  /** handleUserDeleted over the store. */
  method HandleUserDeleted(store: UserModel.UserStore, id: Option<Json>,
                           cast: Option<Json> -> Option<string>) returns (ok: bool)
    modifies store
    ensures ok <==> Deleted(old(store.records), id, cast).Some?
    ensures ok ==> store.records == Deleted(old(store.records), id, cast).value
    ensures !ok ==> store.records == old(store.records)
  {
    var key := cast(id);
    if key.None? {
      return false;
    }
    var deleted := store.FindOneAndDelete(key.value);
    return true;
  }

  /** The POST handler: the guard chain, then the event handlers. */
  method HandlePost(store: UserModel.UserStore, secret: Option<string>, headers: SvixHeaders,
                    payload: string, verify: (string, string, Signature) -> Option<Json>,
                    connected: bool, cast: Option<Json> -> Option<string>) returns (r: Reply)
    modifies store
    ensures (r, store.records) == Post(old(store.records), secret, headers, payload, verify, connected, cast)
  {
    if !TruthyString(secret) {
      return Fail(500, SecretMissing);
    }
    if !TruthyString(headers.id) || !TruthyString(headers.timestamp) || !TruthyString(headers.signature) {
      return Fail(400, HeadersMissing);
    }
    var evt := verify(secret.value, payload,
                      Signature(headers.id.value, headers.timestamp.value, headers.signature.value));
    if evt.None? {
      return Fail(400, VerifyFailed);
    }
    if !connected {
      return Fail(500, ConnectionFailed);
    }
    if evt.value.JNull? {
      return Escaped;
    }
    var kind := Property(evt.value, "type");
    var data := Property(evt.value, "data");
    var ok := true;
    if kind == Some(JString("user.created")) || kind == Some(JString("user.updated"))
       || kind == Some(JString("user.deleted")) {
      if data.None? || data.value.JNull? {
        ok := false;
      } else if kind == Some(JString("user.created")) {
        ok := HandleUserCreated(store, Property(data.value, "id"), cast);
      } else if kind == Some(JString("user.deleted")) {
        ok := HandleUserDeleted(store, Property(data.value, "id"), cast);
      }
    }
    if !ok {
      return Fail(500, ProcessingFailed);
    }
    return Reply(200, true, Processed);
  }

  // ---------------------------------------------------------------------------
  // The guard chain

  /** A missing secret is a 500 whatever the headers, payload or store. */
  lemma MissingSecretIs500(records: map<string, string>, secret: Option<string>, headers: SvixHeaders,
                           payload: string, verify: (string, string, Signature) -> Option<Json>,
                           connected: bool, cast: Option<Json> -> Option<string>)
    requires !TruthyString(secret)
    ensures Post(records, secret, headers, payload, verify, connected, cast) == (Fail(500, SecretMissing), records)
  {
  }

  /** With a secret, any missing or empty signature header is a 400, before
      any verification. */
  lemma MissingHeaderIs400(records: map<string, string>, secret: string, headers: SvixHeaders,
                           payload: string, verify: (string, string, Signature) -> Option<Json>,
                           connected: bool, cast: Option<Json> -> Option<string>)
    requires secret != ""
    requires !TruthyString(headers.id) || !TruthyString(headers.timestamp) || !TruthyString(headers.signature)
    ensures Post(records, Some(secret), headers, payload, verify, connected, cast) == (Fail(400, HeadersMissing), records)
  {
  }

  /** The reply and the records after it, classified: every failure leaves
      the store as it was, and only a processed event of a handled kind can
      change it. */
  lemma PostOutcomes(records: map<string, string>, secret: Option<string>, headers: SvixHeaders,
                     payload: string, verify: (string, string, Signature) -> Option<Json>,
                     connected: bool, cast: Option<Json> -> Option<string>)
    ensures var (r, after) := Post(records, secret, headers, payload, verify, connected, cast);
      && r.Status() in {200, 400, 500}
      && (r.Reply? ==> (r.success <==> r.status == 200))
      && (r.Status() != 200 ==> after == records)
      && (r.Status() == 400 <==> && TruthyString(secret)
                                 && (|| !TruthyString(headers.id) || !TruthyString(headers.timestamp)
                                     || !TruthyString(headers.signature)
                                     || verify(secret.value, payload, Signature(headers.id.value,
                                          headers.timestamp.value, headers.signature.value)).None?))
  {
  }

  /** With a secret and all three headers, a signature that fails to verify
      is a 400 and changes nothing. */
  lemma VerificationFailureIs400(records: map<string, string>, secret: string, sig: Signature,
                                 payload: string, verify: (string, string, Signature) -> Option<Json>,
                                 connected: bool, cast: Option<Json> -> Option<string>)
    requires secret != "" && sig.id != "" && sig.timestamp != "" && sig.signature != ""
    requires verify(secret, payload, sig).None?
    ensures Post(records, Some(secret), SvixHeaders(Some(sig.id), Some(sig.timestamp), Some(sig.signature)),
                 payload, verify, connected, cast)
            == (Fail(400, VerifyFailed), records)
  {
  }

  /** A verified event arriving while the database is unreachable is a 500
      and changes nothing. */
  lemma ConnectionFailureIs500(records: map<string, string>, secret: string, sig: Signature,
                               payload: string, verify: (string, string, Signature) -> Option<Json>,
                               cast: Option<Json> -> Option<string>)
    requires secret != "" && sig.id != "" && sig.timestamp != "" && sig.signature != ""
    requires verify(secret, payload, sig).Some?
    ensures Post(records, Some(secret), SvixHeaders(Some(sig.id), Some(sig.timestamp), Some(sig.signature)),
                 payload, verify, false, cast)
            == (Fail(500, ConnectionFailed), records)
  {
  }

  // ---------------------------------------------------------------------------
  // The events, past the guard chain

  /** An event `{ type: kind, data: { id: JString(id) } }`. */
  function Event(kind: string, id: string): Json {
    JObject(map["type" := JString(kind), "data" := JObject(map["id" := JString(id)])])
  }

  lemma EventFields(kind: string, id: string)
    ensures Property(Event(kind, id), "type") == Some(JString(kind))
    ensures Property(Event(kind, id), "data") == Some(JObject(map["id" := JString(id)]))
    ensures Property(JObject(map["id" := JString(id)]), "id") == Some(JString(id))
  {
  }

  /** user.created for a user already stored changes nothing; for a new one
      it inserts exactly one record, holding "[]". Either way the reply is 200. */
  lemma UserCreatedSpec(records: map<string, string>, id: string, cast: Option<Json> -> Option<string>)
    requires id != "" && cast(Some(JString(id))) == Some(id)
    ensures Dispatch(records, Event("user.created", id), cast).Some?
    ensures var after := Dispatch(records, Event("user.created", id), cast).value;
      && (id in records ==> after == records)
      && (id !in records ==> after == records[id := UserModel.EmptyTasks]
                              && after.Keys == records.Keys + {id}
                              && forall k :: k in records ==> after[k] == records[k])
  {
    EventFields("user.created", id);
  }

  /** Creating is idempotent: a second user.created for the same user
      changes nothing. */
  lemma UserCreatedTwice(records: map<string, string>, id: string, cast: Option<Json> -> Option<string>)
    requires id != "" && cast(Some(JString(id))) == Some(id)
    ensures var once := Dispatch(records, Event("user.created", id), cast).value;
      Dispatch(once, Event("user.created", id), cast) == Some(once)
  {
    UserCreatedSpec(records, id, cast);
    var once := Dispatch(records, Event("user.created", id), cast).value;
    UserCreatedSpec(once, id, cast);
  }

  /** user.created for an empty or null id that no record matches fails the
      schema's `required` check: the handler throws and the POST answers 500
      with the store unchanged. */
  lemma UnstorableCreateIs500(records: map<string, string>, secret: string, sig: Signature, payload: string,
                              verify: (string, string, Signature) -> Option<Json>, id: Json,
                              cast: Option<Json> -> Option<string>)
    requires secret != "" && sig.id != "" && sig.timestamp != "" && sig.signature != ""
    requires verify(secret, payload, sig)
             == Some(JObject(map["type" := JString("user.created"), "data" := JObject(map["id" := id])]))
    requires cast(Some(id)).Some? && cast(Some(id)).value !in records
    requires id == JNull || (id == JString("") && cast(Some(id)) == Some(""))
    ensures Post(records, Some(secret), SvixHeaders(Some(sig.id), Some(sig.timestamp), Some(sig.signature)),
                 payload, verify, true, cast)
            == (Fail(500, ProcessingFailed), records)
  {
    var data := JObject(map["id" := id]);
    var evt := JObject(map["type" := JString("user.created"), "data" := data]);
    assert Property(evt, "type") == Some(JString("user.created"));
    assert Property(evt, "data") == Some(data);
    assert Property(data, "id") == Some(id);
  }

  /** user.deleted removes the record if it is there and otherwise changes
      nothing; no other record is touched. */
  lemma UserDeletedSpec(records: map<string, string>, id: string, cast: Option<Json> -> Option<string>)
    requires cast(Some(JString(id))) == Some(id)
    ensures Dispatch(records, Event("user.deleted", id), cast).Some?
    ensures var after := Dispatch(records, Event("user.deleted", id), cast).value;
      && id !in after
      && after.Keys == records.Keys - {id}
      && (forall k :: k in after ==> after[k] == records[k])
      && (id !in records ==> after == records)
  {
    EventFields("user.deleted", id);
  }

  /** Creating a new user and then deleting it restores the store. */
  lemma CreateThenDeleteRestores(records: map<string, string>, id: string, cast: Option<Json> -> Option<string>)
    requires id != "" && cast(Some(JString(id))) == Some(id) && id !in records
    ensures var once := Dispatch(records, Event("user.created", id), cast).value;
      Dispatch(once, Event("user.deleted", id), cast) == Some(records)
  {
    UserCreatedSpec(records, id, cast);
    var once := Dispatch(records, Event("user.created", id), cast).value;
    UserDeletedSpec(once, id, cast);
    assert once - {id} == records;
  }

  /** user.updated and every unhandled event type leave the store as it was
      (as long as user.updated carries some `data`). */
  lemma OtherEventsChangeNothing(records: map<string, string>, evt: Json, cast: Option<Json> -> Option<string>)
    requires !evt.JNull?
    requires Property(evt, "type") != Some(JString("user.created"))
    requires Property(evt, "type") != Some(JString("user.deleted"))
    requires Property(evt, "type") == Some(JString("user.updated"))
             ==> Property(evt, "data").Some? && !Property(evt, "data").value.JNull?
    ensures Dispatch(records, evt, cast) == Some(records)
  {
  }

  /** Past the guard chain, an event of a type no handler takes is answered
      200 and changes nothing. */
  lemma UnhandledEventIs200(records: map<string, string>, secret: string, sig: Signature, payload: string,
                            verify: (string, string, Signature) -> Option<Json>, evt: Json,
                            cast: Option<Json> -> Option<string>)
    requires secret != "" && sig.id != "" && sig.timestamp != "" && sig.signature != ""
    requires verify(secret, payload, sig) == Some(evt) && !evt.JNull?
    requires Property(evt, "type") != Some(JString("user.created"))
    requires Property(evt, "type") != Some(JString("user.updated"))
    requires Property(evt, "type") != Some(JString("user.deleted"))
    ensures Post(records, Some(secret), SvixHeaders(Some(sig.id), Some(sig.timestamp), Some(sig.signature)),
                 payload, verify, true, cast)
            == (Reply(200, true, Processed), records)
  {
    OtherEventsChangeNothing(records, evt, cast);
  }

  /** Past the guard chain, user.deleted is answered 200 whether or not the
      user was stored, and the store loses exactly that user's record. */
  lemma DeletedEventIs200(records: map<string, string>, secret: string, sig: Signature, payload: string,
                          verify: (string, string, Signature) -> Option<Json>, id: string,
                          cast: Option<Json> -> Option<string>)
    requires secret != "" && sig.id != "" && sig.timestamp != "" && sig.signature != ""
    requires verify(secret, payload, sig) == Some(Event("user.deleted", id))
    requires cast(Some(JString(id))) == Some(id)
    ensures Post(records, Some(secret), SvixHeaders(Some(sig.id), Some(sig.timestamp), Some(sig.signature)),
                 payload, verify, true, cast)
            == (Reply(200, true, Processed), records - {id})
  {
    EventFields("user.deleted", id);
  }

  /** Past the guard chain, user.updated is answered 200 and changes nothing. */
  lemma UpdatedEventIs200(records: map<string, string>, secret: string, sig: Signature, payload: string,
                          verify: (string, string, Signature) -> Option<Json>, id: string,
                          cast: Option<Json> -> Option<string>)
    requires secret != "" && sig.id != "" && sig.timestamp != "" && sig.signature != ""
    requires verify(secret, payload, sig) == Some(Event("user.updated", id))
    ensures Post(records, Some(secret), SvixHeaders(Some(sig.id), Some(sig.timestamp), Some(sig.signature)),
                 payload, verify, true, cast)
            == (Reply(200, true, Processed), records)
  {
    EventFields("user.updated", id);
  }

  /** Every processed event changes at most the record the event names: it
      is either left alone, set to "[]" where there was none, or removed. */
  lemma DispatchTouchesOneRecord(records: map<string, string>, evt: Json, cast: Option<Json> -> Option<string>)
    requires !evt.JNull?
    ensures var after := Dispatch(records, evt, cast);
      after.Some? ==>
        || after.value == records
        || (exists key :: key !in records && after.value == records[key := UserModel.EmptyTasks])
        || (exists key :: key in records && after.value == records - {key})
  {
    var after := Dispatch(records, evt, cast);
    if after.Some? && after.value != records {
      var data := Property(evt, "data").value;
      var key := cast(Property(data, "id")).value;
      if Property(evt, "type") == Some(JString("user.created")) {
        assert key !in records && after.value == records[key := UserModel.EmptyTasks];
      } else {
        if key in records {
          assert after.value == records - {key};
        } else {
          assert false;
        }
      }
    }
  }

  /** A user created by the webhook loads as an empty task list from the
      tasks endpoint (not as "not found"), given that "[]" decodes to the
      empty array. */
  lemma CreatedUserLoadsEmpty(records: map<string, string>, id: string, cast: Option<Json> -> Option<string>,
                              decode: string -> Option<Json>)
    requires id != "" && id !in records && cast(Some(JString(id))) == Some(id)
    requires decode(UserModel.EmptyTasks) == Some(JArray([]))
    ensures var after := Dispatch(records, Event("user.created", id), cast).value;
      && TasksRoute.Get(records, true, Some(id), decode) == TasksRoute.Fail(404, TasksRoute.UserNotFound)
      && TasksRoute.Get(after, true, Some(id), decode) == TasksRoute.Response(200, true, None, Some(JArray([])))
  {
    UserCreatedSpec(records, id, cast);
  }
}
