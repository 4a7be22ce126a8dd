/**
 * The chat API handler (pages/api/chat.ts): the request guards, the outcome of
 * the assistant run, the `isAIResponse` guard over the parsed reply and the
 * switch that turns a reply into an HTTP response. The OpenAI calls are
 * inputs: the statuses the run reports, and the reply text it produces.
 */
module ChatApi {
  import opened Wrappers
  import opened JsValue

  /** The three reply types the assistant may send. */
  const EventCreation: string := "event_creation"
  const SearchType: string := "search"
  const MessageType: string := "message"
  const ReplyTypes: seq<string> := [EventCreation, SearchType, MessageType]

  /** The messages of the error responses. */
  const MethodNotAllowed: string := "Method Not Allowed"
  const MissingUserInput: string := "Missing user input"
  const RunFailed: string := "Assistant run failed."
  const NoReply: string := "No assistant reply found or invalid content type."
  const ParseFailed: string := "Error parsing Assistant response."
  const InvalidEvent: string := "Invalid event data in response."
  const MissingQuery: string := "Missing search query in response."
  const MissingMessage: string := "Missing message in response."
  const Unrecognized: string := "Unrecognized response type from Assistant."
  const InternalError: string := "Internal server error."

  /** `['event_creation', 'search', 'message'].includes(t)`: strict equality,
      so only a string can be included. */
  predicate Listed(t: Option<Json>)
  {
    t.Some? && t.value.JString? && t.value.s in ReplyTypes
  }

  /** `response.type === name`. */
  predicate TypeIs(v: Json, name: string)
  {
    Get(v, "type") == Some(JString(name))
  }

  /** isAIResponse: a non-null object with a listed `type`, and the payload
      its type needs: a truthy `event`, or a string `query` or `message`. */
  predicate IsAIResponse(v: Json)
  {
    if !Truthy(Some(v)) || TypeOf(v) != "object" then false
    else if !Truthy(Get(v, "type")) || !Listed(Get(v, "type")) then false
    else if TypeIs(v, EventCreation) then Truthy(Get(v, "event"))
    else if TypeIs(v, SearchType) then IsString(Get(v, "query"))
    else if TypeIs(v, MessageType) then IsString(Get(v, "message"))
    else false
  }

  /** What the handler writes: the reply itself, or `{ message }`. */
  datatype Body = Echo(reply: Json) | Notice(message: string)

  /** The handler's result: a response, an exception that escapes it, or
      nothing yet because every status observed so far is still pending and
      the polling loop goes on waiting. */
  datatype Outcome = Respond(status: nat, body: Body) | Uncaught | StillPolling

  /** The switch on `response.type` (lines 133-155). */
  function Dispatch(v: Json): Outcome
  {
    if TypeIs(v, EventCreation) then
      if !Truthy(Get(v, "event")) then Respond(400, Notice(InvalidEvent)) else Respond(200, Echo(v))
    else if TypeIs(v, SearchType) then
      if !Truthy(Get(v, "query")) then Respond(400, Notice(MissingQuery)) else Respond(200, Echo(v))
    else if TypeIs(v, MessageType) then
      if !Truthy(Get(v, "message")) then Respond(400, Notice(MissingMessage)) else Respond(200, Echo(v))
    else
      Respond(400, Notice(Unrecognized))
  }

  /** The run statuses the polling loop waits through. */
  predicate Pending(status: string)
  {
    status == "queued" || status == "in_progress"
  }

  /** The index of the first status in `observed` that is not pending. */
  function FirstSettled(observed: seq<string>): (r: Option<nat>)
    ensures r.Some? ==> r.value < |observed| && !Pending(observed[r.value])
    ensures r.Some? ==> forall i :: 0 <= i < r.value ==> Pending(observed[i])
    ensures r.None? ==> forall i :: 0 <= i < |observed| ==> Pending(observed[i])
  {
    if observed == [] then None
    else if !Pending(observed[0]) then Some(0)
    else match FirstSettled(observed[1..])
      case Some(k) => Some(k + 1)
      case None => None
  }

  /** The polling loop (lines 92-97). `observed[0]` is the status the run is
      created with and `observed[i]` the one the `i`-th retrieval reports.
      The result is the first status that is not pending, with the number of
      retrievals made to reach it, or `None` when every observed status is
      still pending and the loop would go on waiting. */
  method PollRun(observed: seq<string>) returns (settled: Option<string>, retrievals: nat)
    requires |observed| >= 1
    ensures retrievals < |observed|
    ensures FirstSettled(observed).Some? ==>
      retrievals == FirstSettled(observed).value && settled == Some(observed[retrievals])
    ensures FirstSettled(observed).None? ==> settled.None? && retrievals == |observed| - 1
    ensures settled.Some? ==> !Pending(settled.value)
  {
    var runStatus := observed[0];
    retrievals := 0;
    while Pending(runStatus) && retrievals + 1 < |observed|
      invariant retrievals < |observed| && runStatus == observed[retrievals]
      invariant forall i :: 0 <= i < retrievals ==> Pending(observed[i])
      decreases |observed| - retrievals
    {
      retrievals := retrievals + 1;
      runStatus := observed[retrievals];
    }
    if Pending(runStatus) {
      settled := None;
    } else {
      settled := Some(runStatus);
    }
  }

  /** What the OpenAI calls do: one of them throws, or the run is polled.
      `observed` holds the status the run is created with followed by the
      statuses the retrievals report, as for `PollRun`; `reply` is the text of
      the first content part of the first assistant message, if it is text. */
  datatype AssistantRun =
    | RunThrew
    | RunPolled(observed: seq<string>, reply: Option<string>)

  /** The status the polling loop stops at, if it stops within `observed`. */
  function SettledStatus(observed: seq<string>): (r: Option<string>)
    ensures r.Some? ==> !Pending(r.value)
    ensures r.Some? <==> FirstSettled(observed).Some?
    ensures r.Some? ==> r.value == observed[FirstSettled(observed).value]
  {
    match FirstSettled(observed)
    case None => None
    case Some(k) => Some(observed[k])
  }

  /** The handler. `body` is `req.body` (`None` for undefined) and `parse`
      stands for `JSON.parse`, with `None` where it throws. The destructuring
      of `req.body` sits outside the `try`, so a missing or null body throws
      out of the handler. */
  function HandleChat(httpMethod: string, body: Option<Json>, run: AssistantRun,
                      parse: string -> Option<Json>): Outcome
  {
    if httpMethod != "POST" then Respond(405, Notice(MethodNotAllowed))
    else if body.None? || body.value.JNull? then Uncaught
    else if !Truthy(Get(body.value, "text")) then Respond(400, Notice(MissingUserInput))
    else match run
      case RunThrew => Respond(500, Notice(InternalError))
      case RunPolled(observed, reply) =>
        match SettledStatus(observed)
        case None => StillPolling
        case Some(status) =>
          if status != "completed" then Respond(500, Notice(RunFailed))
          else if reply.None? || reply.value == "" then Respond(500, Notice(NoReply))
          else match parse(reply.value)
            case None => Respond(500, Notice(ParseFailed))
            case Some(parsed) =>
              if !IsAIResponse(parsed) then Respond(500, Notice(ParseFailed))
              else Dispatch(parsed)
  }

  // ----- isAIResponse -----

  /** Only an object can pass the guard: null, arrays, strings, numbers and
      booleans are refused. */
  lemma OnlyObjectsPass(v: Json)
    requires !v.JObject?
    ensures !IsAIResponse(v)
  {
  }

  /** A reply passes only with a `type` that is exactly one of the three
      listed strings. */
  lemma TypeMustBeListed(v: Json)
    requires IsAIResponse(v)
    ensures Get(v, "type").Some? && Get(v, "type").value.JString?
    ensures Get(v, "type").value.s in ReplyTypes
  {
  }

  /** The guard, variant by variant: an object of each listed type passes
      exactly when its payload has the required form. */
  lemma GuardPerVariant(fields: map<string, Json>)
    ensures var v := JObject(fields);
      && (TypeIs(v, EventCreation) ==> (IsAIResponse(v) <==> Truthy(Get(v, "event"))))
      && (TypeIs(v, SearchType) ==> (IsAIResponse(v) <==> IsString(Get(v, "query"))))
      && (TypeIs(v, MessageType) ==> (IsAIResponse(v) <==> IsString(Get(v, "message"))))
  {
  }

  // ----- the switch -----

  /** A reply that passed the guard never reaches the default branch, and an
      event reply never reaches the invalid-event branch. */
  lemma GuardedReplyNeverUnrecognized(v: Json)
    requires IsAIResponse(v)
    ensures Dispatch(v) != Respond(400, Notice(Unrecognized))
    ensures Dispatch(v) != Respond(400, Notice(InvalidEvent))
  {
  }

  /** An empty query passes the guard, being a string, and is then refused by
      the switch, being falsy. */
  lemma EmptyQueryPassesGuardButRejected(v: Json)
    requires v.JObject? && TypeIs(v, SearchType) && Get(v, "query") == Some(JString(""))
    ensures IsAIResponse(v)
    ensures Dispatch(v) == Respond(400, Notice(MissingQuery))
  {
  }

  /** The same for an empty message. */
  lemma EmptyMessagePassesGuardButRejected(v: Json)
    requires v.JObject? && TypeIs(v, MessageType) && Get(v, "message") == Some(JString(""))
    ensures IsAIResponse(v)
    ensures Dispatch(v) == Respond(400, Notice(MissingMessage))
  {
  }

  /** For a reply that passed the guard, the response is 200 with the reply
      unchanged exactly when its payload is not empty, and 400 otherwise. */
  lemma GuardedDispatch(v: Json)
    requires IsAIResponse(v)
    ensures Dispatch(v).Respond?
    ensures Dispatch(v).status == 200 <==>
      || TypeIs(v, EventCreation)
      || (TypeIs(v, SearchType) && Get(v, "query") != Some(JString("")))
      || (TypeIs(v, MessageType) && Get(v, "message") != Some(JString("")))
    ensures Dispatch(v).status == 200 ==> Dispatch(v).body == Echo(v)
    ensures Dispatch(v).status != 200 ==> Dispatch(v).status == 400
  {
  }

  // ----- the handler -----

  /** The method is checked before anything else. */
  lemma MethodCheckedFirst(httpMethod: string, body: Option<Json>, run: AssistantRun,
                           parse: string -> Option<Json>)
    requires httpMethod != "POST"
    ensures HandleChat(httpMethod, body, run, parse) == Respond(405, Notice(MethodNotAllowed))
  {
  }

  /** A POST whose `text` is falsy is refused before the assistant runs. */
  lemma MissingTextRejected(body: Json, run: AssistantRun, parse: string -> Option<Json>)
    requires !body.JNull? && !Truthy(Get(body, "text"))
    ensures HandleChat("POST", Some(body), run, parse) == Respond(400, Notice(MissingUserInput))
  {
  }

  /** A POST without a body, or with a null one, throws out of the handler. */
  lemma MissingBodyEscapes(body: Option<Json>, run: AssistantRun, parse: string -> Option<Json>)
    requires body.None? || body.value.JNull?
    ensures HandleChat("POST", body, run, parse) == Uncaught
  {
  }

  /** Every failure of the run or of its reply is a 500: a thrown call, a
      status other than completed, a missing or empty reply, and a reply
      that does not parse or fails the guard. */
  lemma AssistantFailuresAre500(body: Json, run: AssistantRun, parse: string -> Option<Json>)
    requires !body.JNull? && Truthy(Get(body, "text"))
    requires run.RunPolled? ==> SettledStatus(run.observed).Some?
    requires
      || run.RunThrew?
      || SettledStatus(run.observed).value != "completed"
      || run.reply.None? || run.reply.value == ""
      || parse(run.reply.value).None?
      || !IsAIResponse(parse(run.reply.value).value)
    ensures HandleChat("POST", Some(body), run, parse).Respond?
    ensures HandleChat("POST", Some(body), run, parse).status == 500
  {
  }

  /** While every observed status is pending there is no response: the
      handler neither fails the run nor answers at all. */
  lemma PendingRunHasNoResponse(body: Json, observed: seq<string>, reply: Option<string>,
                                parse: string -> Option<Json>)
    requires !body.JNull? && Truthy(Get(body, "text"))
    requires forall i :: 0 <= i < |observed| ==> Pending(observed[i])
    ensures HandleChat("POST", Some(body), RunPolled(observed, reply), parse) == StillPolling
  {
  }

  /** "Assistant run failed." answers exactly a run whose first status that
      is not pending is other than "completed"; a pending status never causes
      it. */
  lemma RunFailedOnSettledStatus(body: Json, observed: seq<string>, reply: Option<string>,
                                 parse: string -> Option<Json>)
    requires !body.JNull? && Truthy(Get(body, "text"))
    ensures HandleChat("POST", Some(body), RunPolled(observed, reply), parse) ==
              Respond(500, Notice(RunFailed)) <==>
            FirstSettled(observed).Some? && observed[FirstSettled(observed).value] != "completed"
    ensures HandleChat("POST", Some(body), RunPolled(observed, reply), parse) ==
              Respond(500, Notice(RunFailed)) ==>
            !Pending(observed[FirstSettled(observed).value])
  {
  }

  /** A request that gets past every guard is answered by the switch. */
  lemma HandlerReachesDispatch(body: Json, observed: seq<string>, reply: string,
                               parse: string -> Option<Json>)
    requires !body.JNull? && Truthy(Get(body, "text")) && reply != ""
    requires SettledStatus(observed) == Some("completed")
    requires parse(reply).Some? && IsAIResponse(parse(reply).value)
    ensures HandleChat("POST", Some(body), RunPolled(observed, Some(reply)), parse) ==
              Dispatch(parse(reply).value)
  {
  }

  /** The only statuses the handler answers with. */
  lemma HandlerStatuses(httpMethod: string, body: Option<Json>, run: AssistantRun,
                        parse: string -> Option<Json>)
    ensures var r := HandleChat(httpMethod, body, run, parse);
      r.Respond? ==> r.status in {200, 400, 405, 500}
  {
  }

  /** A 200 carries the parsed reply unchanged, and only a completed run with
      a reply that passed the guard produces it. */
  lemma SuccessEchoesReply(httpMethod: string, body: Option<Json>, run: AssistantRun,
                           parse: string -> Option<Json>)
    requires HandleChat(httpMethod, body, run, parse).Respond?
    requires HandleChat(httpMethod, body, run, parse).status == 200
    ensures httpMethod == "POST" && run.RunPolled? && SettledStatus(run.observed) == Some("completed")
    ensures run.reply.Some? && parse(run.reply.value).Some?
    ensures var parsed := parse(run.reply.value).value;
      IsAIResponse(parsed) && HandleChat(httpMethod, body, run, parse).body == Echo(parsed)
  {
  }
}
