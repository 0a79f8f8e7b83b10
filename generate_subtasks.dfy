/**
 * The subtask-generation endpoint: request validation, the credential check,
 * cleaning of the language model's raw reply, and the mapping of every
 * outcome to a response. The model call itself is outside this module: its
 * reply (or its failure) is an input, and so is `JSON.parse`.
 */
module GenerateSubtasks {
  import opened Wrappers
  import opened Js

  const Fence := "```"

  const InvalidMessage := "invalid"
  const KeyMissingMessage := "API key missing"
  /** The one message every other failure is reported with. */
  const GenericMessage := "Broken Contact Customert Support... jk ur all alone."

  // ---------------------------------------------------------------------------
  // Cleaning the reply: trim, then /^```json\s*/i, then /```$/

  /** "json" under the `i` flag: each letter in either ASCII case. */
  predicate IsJsonTag(s: string)
    requires |s| == 4
  {
    && (s[0] == 'j' || s[0] == 'J')
    && (s[1] == 's' || s[1] == 'S')
    && (s[2] == 'o' || s[2] == 'O')
    && (s[3] == 'n' || s[3] == 'N')
  }

  /** `/^```json/i` matches: only at position 0 (no `m` flag). */
  predicate StartsWithJsonFence(s: string) {
    |s| >= 7 && s[..3] == Fence && IsJsonTag(s[3..7])
  }

  /** `/```$/` matches: only at the very end (no `m` flag). */
  predicate EndsWithFence(s: string) {
    |s| >= 3 && s[|s| - 3..] == Fence
  }

  /** `s.replace(/^```json\s*\/i, "")`. */
  function StripOpeningFence(s: string): string {
    if StartsWithJsonFence(s) then TrimStart(s[7..]) else s
  }

  /** `s.replace(/```$/, "")`. */
  function StripClosingFence(s: string): string {
    if EndsWithFence(s) then s[..|s| - 3] else s
  }

  /** The text handed to `JSON.parse`. */
  function Clean(response: string): string {
    StripClosingFence(StripOpeningFence(Trim(response)))
  }

  predicate IsSliceOf(a: string, b: string) {
    exists i, j :: 0 <= i <= j <= |b| && a == b[i..j]
  }

  /** The opening step keeps a suffix of its input. */
  lemma StripOpeningIsSuffix(t: string)
    ensures |StripOpeningFence(t)| <= |t|
    ensures StripOpeningFence(t) == t[|t| - |StripOpeningFence(t)|..]
  {
    if StartsWithJsonFence(t) {
      var a := TrimStart(t[7..]);
      assert a == t[7..][|t[7..]| - |a|..];
    }
  }

  /** The closing step keeps a prefix of its input. */
  lemma StripClosingIsPrefix(a: string)
    ensures |StripClosingFence(a)| <= |a|
    ensures StripClosingFence(a) == a[..|StripClosingFence(a)|]
  {
  }

  /** The cleaned text is a contiguous piece of the trimmed reply, so never
      longer than it. */
  lemma CleanIsSliceOfTrimmed(response: string)
    ensures IsSliceOf(Clean(response), Trim(response))
    ensures |Clean(response)| <= |Trim(response)|
  {
    var t := Trim(response);
    var a := StripOpeningFence(t);
    var c := StripClosingFence(a);
    StripOpeningIsSuffix(t);
    StripClosingIsPrefix(a);
    var i := |t| - |a|;
    var j := i + |c|;
    assert c == t[i..j];
  }

  /** A reply without either fence reaches `JSON.parse` trimmed and otherwise
      unchanged. */
  lemma CleanWithoutFences(response: string)
    requires !StartsWithJsonFence(Trim(response)) && !EndsWithFence(Trim(response))
    ensures Clean(response) == Trim(response)
  {
  }

  /** The opening fence is only ever removed from the start: when the trimmed
      reply does not start with it, nothing is taken off the front. */
  lemma OpeningFenceOnlyAtStart(response: string)
    requires !StartsWithJsonFence(Trim(response))
    ensures Clean(response) == Trim(response)[..|Clean(response)|]
  {
  }

  /** The closing fence is only ever removed from the very end, and only
      when it is there: otherwise the opening step's result is kept whole. */
  lemma ClosingFenceOnlyAtEnd(response: string)
    ensures var a := StripOpeningFence(Trim(response));
      && (Clean(response) == a <==> !EndsWithFence(a))
      && (EndsWithFence(a) ==> Clean(response) + Fence == a)
  {
    StripClosingExactlyAtEnd(StripOpeningFence(Trim(response)));
  }

  /** The closing step takes off the three characters of a final fence, and
      nothing when there is none. */
  lemma StripClosingExactlyAtEnd(a: string)
    ensures StripClosingFence(a) == a <==> !EndsWithFence(a)
    ensures EndsWithFence(a) ==> StripClosingFence(a) + Fence == a
  {
    if EndsWithFence(a) {
      assert a == a[..|a| - 3] + a[|a| - 3..];
    }
  }

  /** A payload wrapped in a ```json fence (any case of "json", any white
      space around it and between the tag and the payload) is recovered
      exactly: wrapping and cleaning are inverse. */
  lemma CleanFencedPayload(lead: string, tag: string, gap: string, payload: string, trail: string)
    requires AllWhitespace(lead) && AllWhitespace(gap) && AllWhitespace(trail)
    requires |tag| == 4 && IsJsonTag(tag)
    requires payload != [] && !IsWhitespace(payload[0])
    ensures Clean(lead + Fence + tag + gap + payload + Fence + trail) == payload
  {
    var core := Fence + tag + gap + payload + Fence;
    assert lead + Fence + tag + gap + payload + Fence + trail == lead + core + trail;
    TrimPadded(lead, core, trail);
    StripOpeningOfFenced(tag, gap, payload);
    var a := payload + Fence;
    assert a[|a| - 3..] == Fence;
    assert a[..|a| - 3] == payload;
  }

  /** Trimming removes exactly the white-space padding around a text that
      neither starts nor ends with white space. */
  lemma TrimPadded(lead: string, core: string, trail: string)
    requires AllWhitespace(lead) && AllWhitespace(trail)
    requires core != [] && !IsWhitespace(core[0]) && !IsWhitespace(core[|core| - 1])
    ensures Trim(lead + core + trail) == core
  {
    assert lead + core + trail == lead + (core + trail);
    assert (core + trail)[0] == core[0];
    TrimStartSkipsWhitespace(lead, core + trail);
    TrimEndSkipsWhitespace(core, trail);
  }

  /** The opening step removes the fence, the tag and the gap after it. */
  lemma StripOpeningOfFenced(tag: string, gap: string, payload: string)
    requires AllWhitespace(gap)
    requires |tag| == 4 && IsJsonTag(tag)
    requires payload != [] && !IsWhitespace(payload[0])
    ensures StripOpeningFence(Fence + tag + gap + payload + Fence) == payload + Fence
  {
    var core := Fence + tag + gap + payload + Fence;
    assert core[..3] == Fence && core[3..7] == tag;
    assert core[7..] == gap + (payload + Fence);
    assert (payload + Fence)[0] == payload[0];
    TrimStartSkipsWhitespace(gap, payload + Fence);
  }

  lemma {:induction false} TrimStartSkipsWhitespace(w: string, rest: string)
    requires AllWhitespace(w)
    requires rest == [] || !IsWhitespace(rest[0])
    ensures TrimStart(w + rest) == rest
  {
    if w != [] {
      assert (w + rest)[0] == w[0];
      assert (w + rest)[1..] == w[1..] + rest;
      TrimStartSkipsWhitespace(w[1..], rest);
    } else {
      assert w + rest == rest;
    }
  }

  lemma {:induction false} TrimEndSkipsWhitespace(rest: string, w: string)
    requires AllWhitespace(w)
    requires rest == [] || !IsWhitespace(rest[|rest| - 1])
    ensures TrimEnd(rest + w) == rest
  {
    if w != [] {
      var s := rest + w;
      assert s[|s| - 1] == w[|w| - 1];
      assert s[..|s| - 1] == rest + w[..|w| - 1];
      TrimEndSkipsWhitespace(rest, w[..|w| - 1]);
    } else {
      assert rest + w == rest;
    }
  }

  // ---------------------------------------------------------------------------
  // The handler

  /** What the endpoint answers: the parsed subtasks, or a status and message. */
  datatype Reply = Subtasks(subtasks: Json) | Failure(status: int, error: string)

  /** `typeof task === "string" && typeof count === "number"`. */
  predicate ValidFields(body: Json)
    requires !body.JNull?
  {
    var task := Property(body, "task");
    var count := Property(body, "count");
    task.Some? && task.value.JString? && count.Some? && count.value.JNumber?
  }

  /**
   * POST. `body` is the parsed request body (None when `request.json()`
   * throws), `apiKey` the environment's key, `reply` the model's raw reply
   * (None when the call throws), `parse` stands for `JSON.parse`.
   */
  function Post(body: Option<Json>, apiKey: Option<string>, reply: Option<string>,
                parse: string -> Option<Json>): Reply
  {
    if body.None? || body.value.JNull? then Failure(500, GenericMessage)
    else if !ValidFields(body.value) then Failure(400, InvalidMessage)
    else if !TruthyString(apiKey) then Failure(500, KeyMissingMessage)
    else if reply.None? then Failure(500, GenericMessage)
    else match parse(Clean(reply.value))
      case None => Failure(500, GenericMessage)
      case Some(v) => Subtasks(v)
  }

  /** 400 "invalid" exactly when a parsed, non-null body has a non-string
      task or a non-number count, whatever the key and the model would do. */
  lemma InvalidRequestIs400(body: Option<Json>, apiKey: Option<string>, reply: Option<string>,
                            parse: string -> Option<Json>)
    ensures var r := Post(body, apiKey, reply, parse);
      (r.Failure? && r.status == 400)
      <==> (body.Some? && !body.value.JNull? && !ValidFields(body.value))
    ensures body.Some? && !body.value.JNull? && !ValidFields(body.value)
            ==> Post(body, apiKey, reply, parse) == Failure(400, InvalidMessage)
  {
  }

  /** The missing key is reported only for a valid request, and then before
      the model is consulted. */
  lemma MissingKeyAfterValidation(body: Option<Json>, apiKey: Option<string>, reply: Option<string>,
                                  parse: string -> Option<Json>)
    ensures Post(body, apiKey, reply, parse) == Failure(500, KeyMissingMessage)
            <==> body.Some? && !body.value.JNull? && ValidFields(body.value) && !TruthyString(apiKey)
  {
  }

  /** Every failure carries one of three fixed messages, never the model's
      reply, and a status of 400 or 500. */
  lemma FailuresAreFixedMessages(body: Option<Json>, apiKey: Option<string>, reply: Option<string>,
                                 parse: string -> Option<Json>)
    ensures var r := Post(body, apiKey, reply, parse);
      r.Failure? ==> r.error in {InvalidMessage, KeyMissingMessage, GenericMessage}
                     && (r.status == 400 <==> r.error == InvalidMessage)
                     && (r.status == 500 <==> r.error != InvalidMessage)
  {
  }

  /** Success exactly when every check passes and the cleaned reply parses;
      the parsed value is returned as it is, however long. */
  lemma SuccessIsParsedReply(body: Option<Json>, apiKey: Option<string>, reply: Option<string>,
                             parse: string -> Option<Json>)
    ensures var r := Post(body, apiKey, reply, parse);
      r.Subtasks? <==> (&& body.Some? && !body.value.JNull? && ValidFields(body.value)
                        && TruthyString(apiKey) && reply.Some? && parse(Clean(reply.value)).Some?)
    ensures var r := Post(body, apiKey, reply, parse);
      r.Subtasks? ==> r.subtasks == parse(Clean(reply.value)).value
  {
  }

  /** A reply that fails to parse gives the generic 500. */
  lemma ParseFailureIsGeneric500(body: Json, apiKey: string, reply: string, parse: string -> Option<Json>)
    requires !body.JNull? && ValidFields(body) && apiKey != ""
    requires parse(Clean(reply)).None?
    ensures Post(Some(body), Some(apiKey), Some(reply), parse) == Failure(500, GenericMessage)
  {
  }

  /** The value of `count` plays no part in the answer: the result is not cut
      to it (it only steers the model, whose reply is an input here). */
  lemma CountDoesNotTruncate(fields: map<string, Json>, n1: real, n2: real, apiKey: Option<string>,
                             reply: Option<string>, parse: string -> Option<Json>)
    ensures Post(Some(JObject(fields["count" := JNumber(n1)])), apiKey, reply, parse)
         == Post(Some(JObject(fields["count" := JNumber(n2)])), apiKey, reply, parse)
  {
  }

  /** A fenced JSON array reply comes back as the array its payload parses to. */
  lemma FencedArrayIsReturned(body: Json, apiKey: string, tag: string, gap: string, payload: string,
                              items: seq<Json>, parse: string -> Option<Json>)
    requires !body.JNull? && ValidFields(body) && apiKey != ""
    requires |tag| == 4 && IsJsonTag(tag) && AllWhitespace(gap)
    requires payload != [] && !IsWhitespace(payload[0])
    requires parse(payload) == Some(JArray(items))
    ensures Post(Some(body), Some(apiKey), Some(Fence + tag + gap + payload + Fence), parse)
            == Subtasks(JArray(items))
  {
    var reply := Fence + tag + gap + payload + Fence;
    assert "" + Fence + tag + gap + payload + Fence + "" == reply;
    CleanFencedPayload("", tag, gap, payload, "");
    assert Clean(reply) == payload;
  }
}
