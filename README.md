# Roam AI: the request-handling core, modelled in Dafny

Roam AI is a chat-driven event directory for towns of the Dominican Republic.
People ask a chat for events. An OpenAI assistant answers each message with a
JSON reply of one of three kinds: an event to create, a search to run, or a
plain message. Events are stored in a Supabase `events` table.

This project models the decision logic of four parts of that system and
proves properties about it:

- **The chat API handler** (`pages/api/chat.ts`), in modules `ChatApi` and `JsValue`:
  - the method and input guards;
  - the polling loop that waits for the assistant run;
  - the failure checks on the run and on its reply;
  - the `isAIResponse` type guard over the parsed reply;
  - the switch that turns a reply into a 200 or 400 response.
- **The event-creation route** (`app/api/events/create/route.ts`), in modules `CreateEventRoute` and `EventTypes`:
  - the check of the five mandatory fields;
  - the record built for the insert, with no town and `is_on_demand` defaulting to false;
  - the answer for each outcome of the insert: 201, 400 or 500, with the messages and `details` the route sends.
- **The timezone lookup** (`lib/timezone-helpers.ts`), in module `TimezoneHelpers`: a fixed table plus a default.
- **The chat form's submit handler** (`handleChatSubmit` in `components/chat.tsx`), in modules `ChatComponent` and `JsString`:
  - the "find ... in ..." parse that also starts an event search;
  - sending the message to the assistant in every case.

`JsString` models the JavaScript string operations that the parse relies on:

- `indexOf`, with the search-from-position form;
- `split` on a non-empty separator;
- `replace` with a string pattern, which replaces only the first occurrence;
- `trim`, over the ECMAScript white-space and line-terminator characters;
- `startsWith`;
- `toLowerCase`.

`JsValue` models JSON values together with JavaScript truthiness and
`typeof`. Request fields that may be missing or null use the three-state
`Field` type: `Absent`, `Null` or `Val`.

## Behaviour worth knowing

Each request to `pages/api/chat.ts` creates a new thread, sends one message
and maps one reply; no state is kept between requests. Three further points
of the code's behaviour are proved:

- **The event payload is not checked.** `isAIResponse` only requires that
  `event` is truthy. The create route only requires that `host`, `location`
  and `occurrences` are truthy. An empty `occurrences` array and an empty
  host object both pass (`CreateEventRoute.CheckGuaranteesNoOccurrenceOrHostName`).
- **An undefined or null body escapes the handler.** `req.body` is
  destructured outside the `try`. A `req.body` that is undefined or null (for
  example a JSON `null` body) therefore throws out of the handler instead of
  getting a 400 (`ChatApi.MissingBodyEscapes`).
- **The trigger and the removal of "find " disagree on case.** The trigger
  test lower-cases the input, but `replace` and `split` run on the input as
  typed. For "Find yoga" the query keeps "Find"
  (`ChatComponent.CapitalizedTriggerKept`). The separator " in " only matches
  in lower case (`ChatComponent.UpperCaseInIsNotSeparator`).

How the specification functions are tied to their properties:

- The handlers are pure functions of their inputs: `ChatApi.HandleChat`,
  `ChatApi.Dispatch`, `ChatApi.IsAIResponse`, `CreateEventRoute.CreateEvent`,
  `CreateEventRoute.BuildInsert`, `CreateEventRoute.Validate` and
  `ChatComponent.ParseFind`.
- The lemmas listed below state what these functions guarantee.
- The polling loop is a method, `ChatApi.PollRun`, proved against the
  function `ChatApi.FirstSettled`. The handler settles the run through the
  same function, so it only ever checks a status the loop would stop at.

## Model

| member | source | states |
|---|---|---|
| JsValue.TypeOf | pages/api/chat.ts:165 | `typeof` is "object" exactly for null, arrays and objects |
| JsString.IndexFrom | components/chat.tsx:68 | the result is the first position at or after `from` where the pattern occurs, and `None` only when it occurs nowhere from there on |
| JsString.IndexFromShifted | components/chat.tsx:68 | searching the tail of `a + b` is searching `b`, shifted by the length of `a` |
| JsString.IndexFromAppend | components/chat.tsx:68 | appending text does not move an occurrence that is already found |
| JsString.SplitJoin | components/chat.tsx:68 | `split` then joining the pieces with the separator gives back the input |
| JsString.SplitSegmentsLackSeparator | components/chat.tsx:68 | no piece of a split contains the separator |
| JsString.SplitFirstSegment | components/chat.tsx:68 | the split has a single piece exactly when the separator does not occur, and otherwise the first piece ends where the separator first occurs |
| JsString.FirstSegmentIs | components/chat.tsx:68 | a piece runs from its start to the next separator, or to the end |
| JsString.SecondSegment | components/chat.tsx:68-70 | the second piece starts right after the first separator, and the pieces after it are the split of the rest |
| JsString.ReplaceLeading | components/chat.tsx:69 | replacing a pattern the string starts with by "" drops exactly that prefix |
| JsString.ReplaceRemovesLeftmost | components/chat.tsx:69 | replacing by "" removes exactly the leftmost occurrence: putting the pattern back at its index gives back the input |
| JsString.ReplaceAbsent | components/chat.tsx:69 | replacing a pattern that does not occur leaves the string unchanged |
| JsString.Trim | components/chat.tsx:69-70 | the result is trimmed, no longer than the input, and equal to it when it was already trimmed |
| JsString.TrimIsInfix | components/chat.tsx:69-70 | the trimmed text is the input with only white space removed at the two ends |
| JsString.ToLowerCase | components/chat.tsx:66 | same length as the input, each character lower-cased |
| ChatComponent.HandleChatSubmit | components/chat.tsx:63-74 | a search starts exactly when the input parses as "find ...", and it comes first; the last action is always sending the input unchanged to the assistant |
| ChatComponent.TriggerIsCaseInsensitive | components/chat.tsx:66 | a search is triggered exactly when the first five characters are "find " in any mix of cases |
| ChatComponent.LowerCaseTrigger | components/chat.tsx:66 | an input that starts with "find " triggers |
| ChatComponent.ParseFindOneSegment | components/chat.tsx:66-70 | without " in ", the query is the trimmed input with its first "find " removed, and the town is empty |
| ChatComponent.FindCommandSplit | components/chat.tsx:68 | "find q in t" splits into "find q" and "t" when " in " first occurs after q and not at all in t |
| ChatComponent.FindCommandTriggers | components/chat.tsx:66 | every "find q in t" triggers a search |
| ChatComponent.ParseFindCommand | components/chat.tsx:66-70 | round trip: "find q in t" parses back to query q and town t, for trimmed q and t such that the first " in " is the one right after q and t holds none |
| ChatComponent.OneWordEndsQuery | components/chat.tsx:68 | a one-word query other than "in" ends at the separator |
| ChatComponent.OneWordSearch | components/chat.tsx:66-70 | a one-word query other than "in" and a one-word town come back unchanged out of "find q in t" |
| ChatComponent.FindYogaInCabarete | components/chat.tsx:67-70 | "find yoga in Cabarete" parses to query "yoga" and town "Cabarete" |
| ChatComponent.FindInSplit | components/chat.tsx:68 | in "find in t", the first " in " follows "find" |
| ChatComponent.FindInKeepsWordFind | components/chat.tsx:68-69 | "find in t" triggers with the query "find", because "find " no longer occurs in the first piece |
| ChatComponent.SingleSpaceOccurrences | components/chat.tsx:68-69 | an input whose only space is its fifth character, and which does not start with "find ", contains neither " in " nor "find " |
| ChatComponent.CapitalizedTriggerOneSpace | components/chat.tsx:66-69 | a capitalized trigger such as "Find " followed by a word without spaces contains neither separator nor lower-case prefix |
| ChatComponent.CapitalizedTriggerKept | components/chat.tsx:66-70 | for "Find word" the search runs with the whole input "Find word" as query and no town |
| ChatComponent.NoLowerINoSeparator | components/chat.tsx:68 | "find " followed by text without a lower-case "i" has no " in " |
| ChatComponent.SeparatorIsCaseSensitive | components/chat.tsx:68-70 | for such an input the query is the trimmed rest and the town is empty |
| ChatComponent.UpperCaseInIsNotSeparator | components/chat.tsx:68-70 | "find yoga IN Cabarete" is one query with no town |
| ChatComponent.QueryFromFirstSegment | components/chat.tsx:68-69 | the query is the text up to the first " in ", with its first "find " removed, trimmed |
| ChatComponent.TownIsSecondPiece | components/chat.tsx:70 | the town is the second piece trimmed, or empty when there is none; an empty piece gives the empty town |
| ChatComponent.TownBetweenSeparators | components/chat.tsx:68-70 | the town is the trimmed text between the first " in " and the next one or the end, and empty without " in " |
| ChatComponent.NoSeparatorNoTown | components/chat.tsx:70 | without " in " the town is empty |
| ChatComponent.AppendAfterSecondSeparator | components/chat.tsx:68 | text appended to an input with two separators leaves the first two pieces unchanged |
| ChatComponent.TextAfterSecondSeparatorIgnored | components/chat.tsx:68-70 | whatever follows a second " in " has no effect on the search |
| ChatApi.OnlyObjectsPass | pages/api/chat.ts:165 | null, arrays, strings, numbers and booleans fail the guard |
| ChatApi.TypeMustBeListed | pages/api/chat.ts:166 | a reply passes only with a `type` that is exactly one of the three listed strings |
| ChatApi.GuardPerVariant | pages/api/chat.ts:168-177 | for each type, an object passes exactly when its payload has the required form: a truthy `event`, a string `query`, a string `message` |
| ChatApi.GuardedReplyNeverUnrecognized | pages/api/chat.ts:133-155 | a reply that passed the guard never reaches the default branch or the invalid-event branch |
| ChatApi.EmptyQueryPassesGuardButRejected | pages/api/chat.ts:141-143 | an empty query passes the guard and is then refused with 400 |
| ChatApi.EmptyMessagePassesGuardButRejected | pages/api/chat.ts:147-149 | an empty message passes the guard and is then refused with 400 |
| ChatApi.GuardedDispatch | pages/api/chat.ts:133-155 | a guarded reply gets 200 with the reply unchanged exactly when its payload is not empty, and 400 otherwise |
| ChatApi.FirstSettled | pages/api/chat.ts:93 | finds the first status that is neither queued nor in progress, with every earlier status pending |
| ChatApi.PollRun | pages/api/chat.ts:92-97 | the loop stops at the first status that is not pending, after as many retrievals as statuses before it, and never stops on a pending one |
| ChatApi.SettledStatus | pages/api/chat.ts:92-99 | the status the handler checks is the first observed status that is not pending, and there is one exactly when the loop stops |
| ChatApi.PendingRunHasNoResponse | pages/api/chat.ts:93-97 | while every observed status is queued or in progress, the handler gives no response at all |
| ChatApi.RunFailedOnSettledStatus | pages/api/chat.ts:92-101 | "Assistant run failed." answers exactly a run whose first status that is not pending is other than completed, never a pending one |
| ChatApi.MethodCheckedFirst | pages/api/chat.ts:66-68 | any method other than POST gets 405, whatever else the request holds |
| ChatApi.MissingTextRejected | pages/api/chat.ts:70-74 | a POST with a falsy `text` gets 400 before the assistant runs |
| ChatApi.MissingBodyEscapes | pages/api/chat.ts:70 | a POST whose `req.body` is undefined or null throws out of the handler |
| ChatApi.AssistantFailuresAre500 | pages/api/chat.ts:99-160 | a thrown call, a run that stopped at a status other than completed, a missing or empty reply, and a reply that does not parse or fails the guard all get 500 |
| ChatApi.HandlerReachesDispatch | pages/api/chat.ts:92-155 | a request whose run stopped at completed and that gets past every guard is answered by the switch |
| ChatApi.HandlerStatuses | pages/api/chat.ts:65-161 | the handler answers only 200, 400, 405 or 500 |
| ChatApi.SuccessEchoesReply | pages/api/chat.ts:92-155 | a 200 comes only from a run that stopped at completed with a reply that passed the guard, and carries that reply unchanged |
| CreateEventRoute.RejectedIffFieldFalsy | app/api/events/create/route.ts:16-18 | 400 exactly when one of title, description, host, location or occurrences is missing, null or empty text |
| CreateEventRoute.FalsyTextCases | app/api/events/create/route.ts:16 | a text field is falsy exactly when it is missing, null or empty |
| CreateEventRoute.RejectionIgnoresInsert | app/api/events/create/route.ts:16-18 | a refused request never depends on the database |
| CreateEventRoute.EmptyTextRejected | app/api/events/create/route.ts:16-17 | an empty title or description is refused |
| CreateEventRoute.EmptyStructuresAccepted | app/api/events/create/route.ts:16 | an empty host, an empty location and no occurrences pass the check |
| CreateEventRoute.CheckGuaranteesNoOccurrenceOrHostName | app/api/events/create/route.ts:16-61 | an event with no occurrence and no host name is accepted and stored |
| CreateEventRoute.TownIdAlwaysNull | app/api/events/create/route.ts:23-32 | the record never carries a town |
| CreateEventRoute.IsOnDemandDefault | app/api/events/create/route.ts:39 | `is_on_demand` is false when missing or null and copied otherwise |
| CreateEventRoute.ListedFieldsCopied | app/api/events/create/route.ts:26-41 | every other listed property is copied unchanged |
| CreateEventRoute.OtherKeysIgnored | app/api/events/create/route.ts:26-41 | `id`, `created_at`, `town` and the client's `town_id` do not affect the record |
| CreateEventRoute.SameRecordSameListedFields | app/api/events/create/route.ts:26-41 | two inputs that produce the same record agree on every listed property, up to the default of `is_on_demand` |
| CreateEventRoute.InsertOutcomeMapping | app/api/events/create/route.ts:44-61 | a valid event gets 201 with the stored row, or 500 with the database's message as details |
| CreateEventRoute.ThrownIs500 | app/api/events/create/route.ts:63-66 | an unreadable body, or any value the insert throws, gets 500 with "Failed to create event"; the details are the error's message for an `Error` and "An unknown error occurred" for anything else |
| CreateEventRoute.RouteStatuses | app/api/events/create/route.ts:6-68 | the route answers 201, 400 or 500, and 201 exactly for a valid event the database stored |
| TimezoneHelpers.TimezoneIn | lib/timezone-helpers.ts:15 | the zone is never empty: it is the listed zone when that is not empty, and the default otherwise |
| TimezoneHelpers.GetTownTimezone | lib/timezone-helpers.ts:14-16 | every town, listed or not, gets "America/Santo_Domingo" |
| TimezoneHelpers.ListedTowns | lib/timezone-helpers.ts:7-12 | each of the three listed towns maps to "America/Santo_Domingo" |
| TimezoneHelpers.LookupIsCaseSensitive | lib/timezone-helpers.ts:15 | "cabarete" is not listed, and takes the default, which is the same zone |
| TimezoneHelpers.UniformTableIsConstant | lib/timezone-helpers.ts:14-16 | with a table whose every zone is the default, the lookup is constant |
| TimezoneHelpers.FixedTableIsUniform | lib/timezone-helpers.ts:7-12 | the fixed table is such a table |

## Left out

- The OpenAI calls in `pages/api/chat.ts` are not modelled: creating the thread, adding the message, starting and retrieving the run, and listing messages. The model takes their result as input: the sequence of run statuses, the reply text, or a throw.
- The one-second wait between retrievals is not modelled, and neither are time and concurrency.
- PollRun only sees a finite sequence of statuses. A run that never leaves "queued" or "in_progress" makes the source loop forever; over the statuses observed so far the model reports this as `None`, and the handler as `StillPolling`.
- How the reply text is chosen is an input: the first assistant message, its first content part, and whether that part is text.
- `JSON.parse` is a parameter of `ChatApi.HandleChat` and `req.json()` a variant of `CreateEventRoute.EventRequest`. A failure of either is modelled, but the parsers themselves are not.
- JSON numbers are reals. Floating-point rounding is not modelled.
- The Supabase client and the insert-and-select call are a parameter of `CreateEventRoute.CreateEvent`. The table, its constraints and the stored row are not modelled.
- The exact `TypeError` text raised for a `null` create-route body is not modelled. The model carries it as the opaque `reason` of `Unreadable`.
- Request bodies whose JSON types differ from the declared `Event` types are outside the model, for example a number where a string is declared. Each property of `PartialEvent` has its declared type or is missing or null.
- The console logging in both routes is not modelled.
- The commented-out WhatsApp notification and the town lookup that the create route leaves for later are not modelled.
- JsString.ToLowerCase: lower-cases only the ASCII letters A-Z. JavaScript lower-cases the whole of Unicode. The trigger test only compares against the ASCII letters of "find ".
- Strings are sequences of Dafny characters, not UTF-16 code units.
- TimezoneHelpers.TimezoneIn: keys inherited from `Object.prototype`, such as "constructor", are not modelled. In the source they would return a function instead of a zone.
- `fetchSearchResults`, the search API it calls, and the React state of `components/chat.tsx` are not modelled. The model records the request the form starts, `ChatComponent.StartSearch`, in order before the message.
- `handleSubmit` from the chat hook is not modelled. The model records that the input is sent as typed (`ChatComponent.SendToAssistant`).
- `e.preventDefault()` is not modelled.
- The other parts of the repository are not part of this model: the search and publish routes, the Supabase setup, and the pages and components other than the submit handler.
