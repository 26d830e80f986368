# Streaming chat-completion bots for Teams, in Dafny

This project models the core of two Teams bots built on the Teams AI library. Both bots
answer an adaptive-card submit by asking a chat-completion service for a reply. The reply
arrives as a stream of events. Each event holds several choices, and each choice may carry
a text fragment in `delta.content`.

The bots share one aggregator (`sendChatGptResponseIfSubmitAction` with `streamUpdates`):
- It pushes every fragment onto `resArray`. A missing fragment is pushed as `undefined`.
- As long as nothing has been shown, it joins the array with single spaces. As soon as that
  text is non-empty, it sends it as a new activity and keeps the returned activity id.
- From then on, each time the array's length is a multiple of 7, it updates that activity
  in place with the joined array.
- After the stream it always sends one final update.

On top of the aggregator:
- The plain bot (`getApp.ts`) routes an `'AICard'` submit on its `verb`.
- The live-share bot (`getLiveShareAceBotApp.ts`) keeps call notes and preparation notes
  in the conversation state. Two AI actions show them on cards. Four submit handlers store
  them and optionally summarise them.

Modules:
- `Wrappers`: `Option`.
- `JsJoin`: `Array.prototype.join(" ")`. An absent element renders as the empty string but
  still gets its separators.
- `Channel`: the turn context. It is an object whose `sent` field records every
  send, card send and update, in order. The id a send returns is the context's
  `assignedId`.
- `Aggregator`: the aggregator.
  - The method `StreamResponse` keeps the source's nested loops and state variables.
  - It is proved equal to `Trace`, which folds the loop body (`Step`) over the choices.
  - `Trace` is proved equal to the closed form `Expected`. All properties are stated about
    `Trace`.
- `GetApp`: the plain bot's submit routing.
- `LiveShareAceBot`: the live-share bot's conversation state and handlers.

The completion service is a parameter: a function from the user message to the event
stream. The aggregator receives that stream as a value.

## Model

| member | source | states |
|---|---|---|
| JsJoin.TextOf | src/bots/getApp.ts:68 | an element renders as its text when present and as the empty string when `undefined`, the same as defaulting it to `""` |
| JsJoin.Join | src/bots/getLiveShareAceBotApp.ts:98 | the joined text is empty exactly when there are no elements, or one element whose text is empty |
| JsJoin.JoinLength | src/bots/getApp.ts:68 | a non-empty array joins to the sum of its texts' lengths plus one separator between each pair of neighbours |
| JsJoin.JoinSnoc | src/bots/getApp.ts:66-68 | pushing an element onto a non-empty array appends a space and that element's text to the join |
| JsJoin.JoinIsPrefix | src/bots/getApp.ts:66-68 | the join of an array is a prefix of the join of any extension of it, so pushing never changes text already shown |
| JsJoin.JoinPrefixesGrow | src/bots/getLiveShareAceBotApp.ts:96-98 | of two prefixes of the same array, the shorter one's join is a prefix of the longer one's |
| JsJoin.SeparatedSnoc | src/bots/getApp.ts:68 | the text after the first element grows by a space and the new element's text for each push |
| JsJoin.JoinFromTheLeft | src/bots/getApp.ts:68 | a join is the first element's text followed by a space and the text of each later element |
| JsJoin.JoinOfTwoAbsent | src/bots/getApp.ts:66-68 | two absent fragments join to a single space, which is truthy |
| JsJoin.JoinKeepsSeparatorsAroundEmpty | src/bots/getLiveShareAceBotApp.ts:98 | "Hello", "" and " world" join to "Hello", three spaces and "world" |
| Channel.TurnContext.constructor | src/bots/getApp.ts:30 | a turn starts with nothing sent |
| Channel.TurnContext.SendActivity | src/bots/getApp.ts:70-72 | appends the text send and returns the id the channel assigns |
| Channel.TurnContext.SendCardActivity | src/bots/getLiveShareAceBotApp.ts:31-32 | appends the card send with the text the card is filled with |
| Channel.TurnContext.UpdateActivity | src/bots/getApp.ts:86-88 | appends an in-place update of the activity with that id |
| Aggregator.Choices | src/bots/getApp.ts:64-65 | the nested loops visit no choice for an empty stream and the event's own choices, in order, for a stream of one event |
| Aggregator.ChoicesOfPrefixes | src/bots/getApp.ts:64-65 | one more turn of the outer loop visits the next event's choices after the earlier ones |
| Aggregator.ChoicesOfAppend | src/bots/getApp.ts:64-65 | the choices of two consecutive runs of events are the choices of the first followed by those of the second |
| Aggregator.Step | src/bots/getApp.ts:66-79 | one choice: its fragment is pushed; the flag stays set exactly when it was set and the new join is empty; the step that clears it sends the join and records the assigned id; while the flag stays set nothing is sent and the id is kept; after the first send, the id is kept and an update with it happens exactly when the length is a multiple of 7 |
| Aggregator.Feed | src/bots/getApp.ts:64-81 | after the loops over any choices, every fragment is in `resArray`, and while `isFirstActivity` is still set nothing was sent and `oldActivityId` is still `""` |
| Aggregator.Trace | src/bots/getApp.ts:61-82 | everything one run sends, which always ends with an update |
| Aggregator.FeedSnoc | src/bots/getApp.ts:64-80 | the loop over one more choice is the loop over the earlier ones followed by one step |
| Aggregator.CreateIndex | src/bots/getApp.ts:67-74 | the first send happens at the first choice after which the join is non-empty |
| Aggregator.NothingShownBeforeCreate | src/bots/getApp.ts:67-69 | every prefix up to the send's position joins to the empty string |
| Aggregator.Checkpoints | src/bots/getApp.ts:76-77 | there is one periodic update for each multiple of 7 reached |
| Aggregator.CheckpointAt | src/bots/getApp.ts:76-77 | the m-th periodic update shows the join of the first 7(m+1) fragments |
| Aggregator.CheckpointsStable | src/bots/getApp.ts:76-77 | pushing a fragment leaves the earlier periodic updates unchanged |
| Aggregator.CheckpointsSnoc | src/bots/getApp.ts:76-77 | pushing a fragment adds one periodic update exactly when the new length is a multiple of 7 |
| Aggregator.StepWhileEmpty | src/bots/getApp.ts:67-74 | while nothing has been shown, one step keeps the loop state equal to its closed form |
| Aggregator.StepOnceShown | src/bots/getApp.ts:75-79 | once the first send has happened, one step keeps the loop state equal to its closed form |
| Aggregator.FeedReaches | src/bots/getApp.ts:61-81 | after any choices: `isFirstActivity` holds exactly when their join is empty; the kept id is the assigned one or `""`; the sends so far are the first send plus one update per multiple of 7 |
| Aggregator.TraceIsExpected | src/bots/getApp.ts:61-82 | the whole aggregator sends exactly the closed form: one final update of `""` if nothing was ever shown, otherwise the first send, the periodic updates and the final update |
| Aggregator.ExpectedAt | src/bots/getLiveShareAceBotApp.ts:94-112 | once something is shown, there are |fragments|/7 + 2 messages, and the i-th shows the join of the prefix `CutOf` gives, as a send for i = 0 and as an update with the assigned id otherwise |
| Aggregator.ExpectedShape | src/bots/getApp.ts:61-82 | the closed form has at least one operation; it begins with a send exactly when the join is non-empty; every later one is an update with the assigned id; the last carries the whole join |
| Aggregator.TraceShape | src/bots/getApp.ts:61-82 | there is always at least one message; the first is a send exactly when the join is non-empty; every later one is an update with the assigned id; the last is the final update of the whole join, addressed to `""` when nothing was shown |
| Aggregator.ExpectedCreate | src/bots/getApp.ts:66-74 | in the closed form the send carries the first fragment's text when it is non-empty, otherwise a space and the second fragment's text |
| Aggregator.CreateIsFirstOrSecondChoice | src/bots/getApp.ts:66-74 | the first send happens at the first choice when its fragment is non-empty and otherwise at the second, since two elements always join to at least a space |
| Aggregator.TraceLength | src/bots/getLiveShareAceBotApp.ts:94-112 | one message when nothing is shown, otherwise |fragments|/7 + 2, counting by total length, send included |
| Aggregator.ExpectedNeverRegresses | src/bots/getLiveShareAceBotApp.ts:94-112 | in the closed form every operation is a text send or update, and each one's text is a prefix of every later one's |
| Aggregator.TraceNeverRegresses | src/bots/getLiveShareAceBotApp.ts:94-112 | every message is a text send or update, and each one's text is a prefix of every later one's |
| Aggregator.ExpectedOfTwenty | src/bots/getApp.ts:61-82 | the closed form of twenty fragments whose first is non-empty is a send of the first, updates at 7 and 14, and the final update |
| Aggregator.TwentyFragments | src/bots/getApp.ts:61-82 | twenty non-empty fragments give a send of the first, updates at 7 and 14, and the final update |
| Aggregator.HelloWorld | src/bots/getLiveShareAceBotApp.ts:94-112 | "Hello", "" and " world" in three events give a send of "Hello" and a final update of "Hello   world" |
| Aggregator.TwoAbsentContents | src/bots/getApp.ts:66-74 | one event with two absent fragments sends a single space and then updates it to a single space |
| Aggregator.EmptyStream | src/bots/getApp.ts:82 | an empty stream still sends one update, of the empty text, addressed to `""` |
| Aggregator.StreamUpdates | src/bots/getApp.ts:85-89 | appends one update of the joined array, addressed to the given id |
| Aggregator.StreamResponse | src/bots/getApp.ts:61-82 | the nested loops send exactly `Trace` of the events |
| Aggregator.RunAgainstFreshChannel | src/bots/getLiveShareAceBotApp.ts:91-112 | on a fresh turn context the aggregator's messages are the closed form, so they depend only on the events and the assigned id |
| GetApp.Route | src/bots/getApp.ts:30-42 | an object value with verb "AICard" generates from its `multilineInputId`; an object with any other verb is ignored; `null` throws; any other value gets "I do not understand that command." |
| GetApp.SendChatGptResponseIfSubmitAction | src/bots/getApp.ts:54-83 | the submitted text, as it is, is the user message, and the aggregator's messages follow |
| GetApp.OnAICardSubmit | src/bots/getApp.ts:30-42 | the handler throws exactly for `null`, and otherwise sends what `Route` decides and nothing else |
| LiveShareAceBot.ConversationState.constructor | src/bots/getLiveShareAceBotApp.ts:14-17 | a new conversation has no stored notes |
| LiveShareAceBot.Interpolated | src/bots/getLiveShareAceBotApp.ts:88 | `${query}` renders a present query as itself and a missing one as "undefined" |
| LiveShareAceBot.SummarizePrompt | src/bots/getLiveShareAceBotApp.ts:88 | the user message is "Summarize:", two spaces and the query, with "undefined" for a missing query |
| LiveShareAceBot.GetCallNotes | src/bots/getLiveShareAceBotApp.ts:29-34 | sends the call-notes card filled with the stored notes, or the initial value when none are stored, and answers "Call notes received." |
| LiveShareAceBot.GetPrepNotes | src/bots/getLiveShareAceBotApp.ts:36-41 | sends the prep-notes card filled with the stored notes, or the initial value when none are stored, and answers "Prep notes received." |
| LiveShareAceBot.Confirm | src/bots/getLiveShareAceBotApp.ts:43-45 | the call notes become the submitted `multilineInputId`, the prep notes are unchanged, and nothing is sent |
| LiveShareAceBot.Save | src/bots/getLiveShareAceBotApp.ts:47-51 | the prep notes become the submitted `prepnoteinput`, the call notes are unchanged, and "Okay, I've saved your notes." is sent |
| LiveShareAceBot.AICard | src/bots/getLiveShareAceBotApp.ts:53-56 | stores the submitted call notes, then streams the summary of them |
| LiveShareAceBot.AISummarizePrep | src/bots/getLiveShareAceBotApp.ts:58-61 | stores the submitted prep notes, then streams the summary of them |
| LiveShareAceBot.SendChatGptResponseIfSubmitAction | src/bots/getLiveShareAceBotApp.ts:84-113 | the summarise prompt is the user message, and the aggregator's messages follow |
| LiveShareAceBot.CallNotesRoundTrip | src/bots/getLiveShareAceBotApp.ts:29-45 | notes stored by `'confirm'` are what the next `GetCallNotes` shows; a submit without the field shows the initial value |
| LiveShareAceBot.PrepNotesRoundTrip | src/bots/getLiveShareAceBotApp.ts:29-51 | notes stored by `'save'` are what the next `GetPrepNotes` shows, and the call notes stay at their initial value |

## Behaviour worth knowing

- The final update is always sent. When nothing was shown it goes to activity id `""`
  and carries the empty text (`EmptyStream`).
- The 7-fragment interval counts the total `resArray.length`, every fragment pushed since
  the stream began, so the first send is not counted apart (`CheckpointsSnoc`).
- Fragments are joined with a space even when they carry their own spacing, and absent or
  empty fragments still get separators: "Hello", "" and " world" give "Hello   world"
  (`HelloWorld`).
- The interval 7 is a literal in the code. No error is caught and nothing cancels the stream.

## Left out

- The completion client: endpoint, key, deployment name and `maxTokens` are configuration of
  an external service. The client is a parameter from the user message to the event stream.
- Errors raised by the completion service, the stream or the channel are not modelled; the
  code lets them propagate.
- `await` and asynchronous scheduling: each handler runs to completion within one turn.
  Concurrent turns are not modelled.
- Adaptive-card template expansion (`SendSubmitAIQuery`, `SendPrepNotesQuery`) and the card
  JSON files: a card send records which card it is and the text it is filled with.
- `responses.ts` is not part of this model. The initial notes values from
  `getOnCallNotesInitialValue` and `getPrepNotesInitialValue` are a parameter.
- The plain bot's `GetOnCallNotes` AI action is not modelled. It sends a fixed card and returns
  a fixed text, with no state and no choice.
- Channel.TurnContext.SendActivity: always returns the context's assigned id, so the case
  where the response or its id is `undefined` is not modelled.
- `null` and `undefined` values of a submit field, and a missing `delta` and a missing
  `content`, are all `None`. The code treats them alike in `??`, in `join` and in the
  optional chain. A `null` query would render as "null" in the summarise prompt, and the
  model renders every `None` as "undefined".
- Storage of the conversation state across turns (`MemoryStorage`): the state is one object
  handed to each handler.
- The planner, the AI action dispatch and the submit-verb dispatch of the Teams AI library
  are not modelled. Each handler is a method called directly, except the plain bot's own
  routing on `verb` (`GetApp.Route`).
