/** The live-share bot: two AI actions that show stored notes on a card, and four
    card-submit handlers that store the submitted notes in the conversation state. */
module LiveShareAceBot {
  import opened Wrappers
  import opened Channel
  import opened Aggregator

  /** The conversation-scoped fields the handlers read and write; a field that was never
      written, or was written with a missing submit field, is `None` (`undefined`). */
  class ConversationState {
    var onCallNotes: Option<string>
    var prepNotes: Option<string>

    constructor ()
      ensures onCallNotes == None && prepNotes == None
    {
      onCallNotes := None;
      prepNotes := None;
    }
  }

  /** The text of a template literal `${query}`: a missing value is spelled "undefined". */
  function Interpolated(query: Option<string>): (text: string)
    ensures query.Some? ==> text == query.value
    ensures query.None? ==> text == "undefined"
  {
    match query
    case Some(s) => s
    case None => "undefined"
  }

  /** The user message sent for `query`: "Summarize:" and two spaces before the query. */
  function SummarizePrompt(query: Option<string>): (prompt: string)
    ensures |prompt| >= 12 && prompt[..12] == "Summarize:  "
    ensures query.Some? ==> prompt[12..] == query.value
    ensures query.None? ==> prompt[12..] == "undefined"
  {
    "Summarize:  " + Interpolated(query)
  }

  /** `GetCallNotes`: shows the call-notes card filled with the stored notes, or with the
      initial value only when no notes are stored; `??` keeps a stored empty string. */
  method GetCallNotes(context: TurnContext, state: ConversationState, initial: string) returns (reply: string)
    modifies context
    ensures context.sent == old(context.sent) +
              [SendCard(OnCallNotesCard, if state.onCallNotes.Some? then state.onCallNotes.value else initial)]
    ensures reply == "Call notes received."
  {
    var onCallNotes := state.onCallNotes.GetOr(initial);
    context.SendCardActivity(OnCallNotesCard, onCallNotes);
    reply := "Call notes received.";
  }

  /** `GetPrepNotes`: the same for the preparation notes. */
  method GetPrepNotes(context: TurnContext, state: ConversationState, initial: string) returns (reply: string)
    modifies context
    ensures context.sent == old(context.sent) +
              [SendCard(PrepNotesCard, if state.prepNotes.Some? then state.prepNotes.value else initial)]
    ensures reply == "Prep notes received."
  {
    var prepNotes := state.prepNotes.GetOr(initial);
    context.SendCardActivity(PrepNotesCard, prepNotes);
    reply := "Prep notes received.";
  }

  /** The `'confirm'` submit: stores the submitted call notes and sends nothing. */
  method Confirm(state: ConversationState, value: SubmitData)
    modifies state
    ensures state.onCallNotes == value.multilineInputId && state.prepNotes == old(state.prepNotes)
  {
    state.onCallNotes := value.multilineInputId;
  }

  /** The `'save'` submit: stores the submitted preparation notes and acknowledges. */
  method Save(context: TurnContext, state: ConversationState, value: SubmitData)
    modifies context, state
    ensures state.prepNotes == value.prepnoteinput && state.onCallNotes == old(state.onCallNotes)
    ensures context.sent == old(context.sent) + [Send("Okay, I've saved your notes.")]
  {
    state.prepNotes := value.prepnoteinput;
    var _ := context.SendActivity("Okay, I've saved your notes.");
  }

  /** The `'AICard'` submit: stores the submitted call notes, then streams a summary of them. */
  method AICard(context: TurnContext, state: ConversationState, value: SubmitData,
                completions: Option<string> -> seq<Event>)
    modifies context, state
    ensures state.onCallNotes == value.multilineInputId && state.prepNotes == old(state.prepNotes)
    ensures context.sent == old(context.sent) +
              Trace(completions(Some(SummarizePrompt(value.multilineInputId))), context.assignedId)
  {
    state.onCallNotes := value.multilineInputId;
    SendChatGptResponseIfSubmitAction(context, value.multilineInputId, completions);
  }

  /** The `'AISummarizePrep'` submit: stores the submitted preparation notes, then streams
      a summary of them. */
  method AISummarizePrep(context: TurnContext, state: ConversationState, value: SubmitData,
                         completions: Option<string> -> seq<Event>)
    modifies context, state
    ensures state.prepNotes == value.prepnoteinput && state.onCallNotes == old(state.onCallNotes)
    ensures context.sent == old(context.sent) +
              Trace(completions(Some(SummarizePrompt(value.prepnoteinput))), context.assignedId)
  {
    state.prepNotes := value.prepnoteinput;
    SendChatGptResponseIfSubmitAction(context, value.prepnoteinput, completions);
  }

  /** `sendChatGptResponseIfSubmitAction`: one user message asking to summarize `query`,
      and the aggregator over the events `completions` produces for it. */
  method SendChatGptResponseIfSubmitAction(context: TurnContext, query: Option<string>,
                                           completions: Option<string> -> seq<Event>)
    modifies context
    ensures context.sent == old(context.sent) + Trace(completions(Some(SummarizePrompt(query))), context.assignedId)
  {
    var events := completions(Some(SummarizePrompt(query)));
    StreamResponse(events, context);
  }

  /** Notes submitted with `'confirm'` are what the next `GetCallNotes` shows; a submit
      without the field clears them, so the initial value is shown instead. */
  method CallNotesRoundTrip(submitted: Option<string>, initial: string) returns (shown: string)
    ensures shown == if submitted.Some? then submitted.value else initial
  {
    var context := new TurnContext("");
    var state := new ConversationState();
    Confirm(state, SubmitData(Some("confirm"), submitted, None));
    var _ := GetCallNotes(context, state, initial);
    shown := context.sent[0].data;
  }

  /** Notes submitted with `'save'` are what the next `GetPrepNotes` shows, and the
      call notes stay unset. */
  method PrepNotesRoundTrip(submitted: Option<string>, initial: string) returns (shown: string, callNotes: string)
    ensures shown == if submitted.Some? then submitted.value else initial
    ensures callNotes == initial
  {
    var context := new TurnContext("");
    var state := new ConversationState();
    Save(context, state, SubmitData(Some("save"), None, submitted));
    var _ := GetPrepNotes(context, state, initial);
    shown := context.sent[1].data;
    var _ := GetCallNotes(context, state, initial);
    callNotes := context.sent[2].data;
  }
}
