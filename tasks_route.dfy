/**
 * The tasks endpoint: GET loads a user's task tree by `authorId`, POST
 * replaces the tree of an existing user. Every outcome is a status code with
 * a fixed message. The database connection, `JSON.parse`, `JSON.stringify`
 * and the query layer's casting of a non-string `authorId` are inputs.
 */
module TasksRoute {
  import opened Wrappers
  import opened Js
  import UserModel

  const AuthorIdRequired := "authorId is required"
  const UserNotFound := "User not found"
  const ParseError := "Error parsing tasks"
  const InternalError := "Internal Server Error"
  const FieldsRequired := "authorId and tasks are required"
  const NotAnArray := "tasks must be an array"
  const CannotUpdate := "User not found. Cannot update tasks."
  const Updated := "Tasks updated successfully"

  /** `{ success, message?, tasks? }` with its HTTP status. */
  datatype Response = Response(status: int, success: bool, message: Option<string>, tasks: Option<Json>)

  function Fail(status: int, message: string): Response {
    Response(status, false, Some(message), None)
  }

  /**
   * GET ?authorId=... over the stored records. `connected` says whether the
   * connection (made first) succeeds; `decode` stands for `JSON.parse`.
   */
  function Get(records: map<string, string>, connected: bool, authorId: Option<string>,
               decode: string -> Option<Json>): Response
  {
    if !connected then Fail(500, InternalError)
    else if !TruthyString(authorId) then Fail(400, AuthorIdRequired)
    else if authorId.value !in records then Fail(404, UserNotFound)
    else match decode(records[authorId.value])
      case None => Fail(500, ParseError)
      case Some(tasks) => Response(200, true, None, Some(tasks))
  }

  /**
   * POST with the parsed body (None when `request.json()` throws): the
   * response and the records afterwards. `cast` is the query layer's reading
   * of `authorId` as a key (None: a cast error); `encode` stands for
   * `JSON.stringify`.
   */
  function Post(records: map<string, string>, connected: bool, body: Option<Json>,
                cast: Json -> Option<string>, encode: Json -> string): (Response, map<string, string>)
  {
    if !connected || body.None? || body.value.JNull? then (Fail(500, InternalError), records)
    else
      var authorId := Property(body.value, "authorId");
      var tasks := Property(body.value, "tasks");
      if !Truthy(authorId) || !Truthy(tasks) then (Fail(400, FieldsRequired), records)
      else if !IsArray(tasks) then (Fail(400, NotAnArray), records)
      else match cast(authorId.value)
        case None => (Fail(500, InternalError), records)
        case Some(key) =>
          if key !in records then (Fail(404, CannotUpdate), records)
          else (Response(200, true, Some(Updated), None), records[key := encode(tasks.value)])
  }

  /** The GET handler: reads the store and never changes it. */
  method HandleGet(store: UserModel.UserStore, connected: bool, authorId: Option<string>,
                   decode: string -> Option<Json>) returns (r: Response)
    ensures r == Get(store.records, connected, authorId, decode)
  {
    if !connected {
      return Fail(500, InternalError);
    }
    if !TruthyString(authorId) {
      return Fail(400, AuthorIdRequired);
    }
    var user := store.FindOne(authorId.value);
    if user.None? {
      return Fail(404, UserNotFound);
    }
    var tasks := decode(user.value);
    if tasks.None? {
      return Fail(500, ParseError);
    }
    return Response(200, true, None, tasks);
  }

  /** The POST handler: validates, finds the user, then stores the encoding. */
  method HandlePost(store: UserModel.UserStore, connected: bool, body: Option<Json>,
                    cast: Json -> Option<string>, encode: Json -> string) returns (r: Response)
    modifies store
    ensures (r, store.records) == Post(old(store.records), connected, body, cast, encode)
  {
    if !connected || body.None? || body.value.JNull? {
      return Fail(500, InternalError);
    }
    var authorId := Property(body.value, "authorId");
    var tasks := Property(body.value, "tasks");
    if !Truthy(authorId) || !Truthy(tasks) {
      return Fail(400, FieldsRequired);
    }
    if !IsArray(tasks) {
      return Fail(400, NotAnArray);
    }
    var key := cast(authorId.value);
    if key.None? {
      return Fail(500, InternalError);
    }
    var user := store.FindOne(key.value);
    if user.None? {
      return Fail(404, CannotUpdate);
    }
    store.SaveTasks(key.value, encode(tasks.value));
    return Response(200, true, Some(Updated), None);
  }

  // ---------------------------------------------------------------------------
  // GET

  /** Once connected, a missing or empty `authorId` is a 400 whatever is stored. */
  lemma GetWithoutAuthorIdIs400(records: map<string, string>, authorId: Option<string>,
                                decode: string -> Option<Json>)
    requires !TruthyString(authorId)
    ensures Get(records, true, authorId, decode) == Fail(400, AuthorIdRequired)
  {
  }

  /** An unknown user is a 404, distinct from a user whose stored tree is "[]". */
  lemma GetUnknownUserIsNotEmptyList(records: map<string, string>, id: string,
                                     decode: string -> Option<Json>)
    requires id != ""
    requires decode(UserModel.EmptyTasks) == Some(JArray([]))
    ensures id !in records ==> Get(records, true, Some(id), decode) == Fail(404, UserNotFound)
    ensures id in records && records[id] == UserModel.EmptyTasks
            ==> Get(records, true, Some(id), decode) == Response(200, true, None, Some(JArray([])))
  {
  }

  /** A stored string that does not decode is a 500. */
  lemma GetUndecodableIs500(records: map<string, string>, id: string, decode: string -> Option<Json>)
    requires id != "" && id in records && decode(records[id]).None?
    ensures Get(records, true, Some(id), decode) == Fail(500, ParseError)
  {
  }

  /** Success exactly when connected, named and found and the string decodes;
      the decoded value is what is returned. Statuses are 200, 400, 404, 500. */
  lemma GetOutcomes(records: map<string, string>, connected: bool, authorId: Option<string>,
                    decode: string -> Option<Json>)
    ensures var r := Get(records, connected, authorId, decode);
      && r.status in {200, 400, 404, 500}
      && (r.success <==> r.status == 200)
      && (r.status == 200 <==> connected && TruthyString(authorId) && authorId.value in records
                               && decode(records[authorId.value]).Some?)
      && (r.status == 200 ==> r.tasks == decode(records[authorId.value]))
  {
  }

  // ---------------------------------------------------------------------------
  // POST

  /** The records change only on success, and then only at the cast key,
      which becomes the encoding of `tasks`; every other user is untouched. */
  lemma PostOutcomes(records: map<string, string>, connected: bool, body: Option<Json>,
                     cast: Json -> Option<string>, encode: Json -> string)
    ensures var (r, after) := Post(records, connected, body, cast, encode);
      && r.status in {200, 400, 404, 500}
      && (r.success <==> r.status == 200)
      && (r.status != 200 ==> after == records)
      && (r.status == 200 ==>
            && body.Some? && !body.value.JNull?
            && var authorId := Property(body.value, "authorId");
               var tasks := Property(body.value, "tasks");
               && authorId.Some? && tasks.Some? && cast(authorId.value).Some?
               && var key := cast(authorId.value).value;
                  && key in records
                  && after == records[key := encode(tasks.value)]
                  && after.Keys == records.Keys
                  && forall k :: k in records && k != key ==> after[k] == records[k])
  {
  }

  /** A falsy `authorId` or `tasks` is a 400 and changes nothing. */
  lemma PostMissingFieldsIs400(records: map<string, string>, fields: map<string, Json>,
                               cast: Json -> Option<string>, encode: Json -> string)
    requires var body := JObject(fields);
      !Truthy(Property(body, "authorId")) || !Truthy(Property(body, "tasks"))
    ensures Post(records, true, Some(JObject(fields)), cast, encode) == (Fail(400, FieldsRequired), records)
  {
  }

  /** A truthy `tasks` that is not an array is a 400 and changes nothing. */
  lemma PostNonArrayIs400(records: map<string, string>, fields: map<string, Json>,
                          cast: Json -> Option<string>, encode: Json -> string)
    requires var body := JObject(fields);
      Truthy(Property(body, "authorId")) && Truthy(Property(body, "tasks")) && !IsArray(Property(body, "tasks"))
    ensures Post(records, true, Some(JObject(fields)), cast, encode) == (Fail(400, NotAnArray), records)
  {
  }

  /** An unknown user is a 404 and no record is created for it. */
  lemma PostUnknownUserIs404(records: map<string, string>, id: string, items: seq<Json>,
                             cast: Json -> Option<string>, encode: Json -> string)
    requires id != "" && id !in records && cast(JString(id)) == Some(id)
    ensures var (r, after) := Post(records, true, Some(JObject(map["authorId" := JString(id), "tasks" := JArray(items)])), cast, encode);
      r == Fail(404, CannotUpdate) && after == records && id !in after
  {
    var body := JObject(map["authorId" := JString(id), "tasks" := JArray(items)]);
    assert Property(body, "authorId") == Some(JString(id));
    assert Property(body, "tasks") == Some(JArray(items));
  }

  /** An empty array is truthy: saving `[]` for a known user succeeds. */
  lemma PostEmptyArraySucceeds(records: map<string, string>, id: string,
                               cast: Json -> Option<string>, encode: Json -> string)
    requires id != "" && id in records && cast(JString(id)) == Some(id)
    ensures Post(records, true, Some(JObject(map["authorId" := JString(id), "tasks" := JArray([])])), cast, encode)
            == (Response(200, true, Some(Updated), None), records[id := encode(JArray([]))])
  {
    var body := JObject(map["authorId" := JString(id), "tasks" := JArray([])]);
    assert Property(body, "authorId") == Some(JString(id));
    assert Property(body, "tasks") == Some(JArray([]));
  }

  /** Saving is idempotent: repeating the same POST leaves the same records. */
  lemma PostIdempotent(records: map<string, string>, connected: bool, body: Option<Json>,
                       cast: Json -> Option<string>, encode: Json -> string)
    ensures var once := Post(records, connected, body, cast, encode).1;
      Post(once, connected, body, cast, encode) == Post(records, connected, body, cast, encode)
  {
    var (r, once) := Post(records, connected, body, cast, encode);
    if r.status == 200 {
      var key := cast(Property(body.value, "authorId").value).value;
      var enc := encode(Property(body.value, "tasks").value);
      assert once == records[key := enc];
      assert once[key := enc] == once;
    } else {
      assert once == records;
    }
  }

  /** Save then load: when decoding inverts encoding, a GET after a
      successful POST returns exactly the tasks that were posted. */
  lemma PostThenGet(records: map<string, string>, id: string, items: seq<Json>,
                    cast: Json -> Option<string>, encode: Json -> string, decode: string -> Option<Json>)
    requires id != "" && id in records && cast(JString(id)) == Some(id)
    requires decode(encode(JArray(items))) == Some(JArray(items))
    ensures var (r, after) := Post(records, true, Some(JObject(map["authorId" := JString(id), "tasks" := JArray(items)])), cast, encode);
      r.status == 200 && Get(after, true, Some(id), decode) == Response(200, true, None, Some(JArray(items)))
  {
    var body := JObject(map["authorId" := JString(id), "tasks" := JArray(items)]);
    assert Property(body, "authorId") == Some(JString(id));
    assert Property(body, "tasks") == Some(JArray(items));
  }
}
