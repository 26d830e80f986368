/** The plain bot: its `'AICard'` card-submit handler routes on the submitted verb. */
module GetApp {
  import opened Wrappers
  import opened Channel
  import opened Aggregator

  /** `context.activity.value` as the handler's `typeof` test sees it: an object (whose
      `verb` and `multilineInputId` fields may be missing), `null` (whose `typeof` is also
      "object"), or any other value. */
  datatype SubmitValue = Object(data: SubmitData) | Null | NonObject

  /** What the handler does with a value. */
  datatype Dispatch =
    | Generate(content: Option<string>)  // run the aggregator on this user message
    | Ignore                             // send nothing
    | Reply(text: string)                // send this text
    | TypeError                          // reading `verb` of `null` throws

  const NotUnderstood: string := "I do not understand that command."

  /** The `typeof` test and the `switch` on the verb. */
  function Route(value: SubmitValue): (d: Dispatch)
    ensures d.Generate? <==> value.Object? && value.data.verb == Some("AICard")
    ensures d.Generate? ==> d.content == value.data.multilineInputId
    ensures d.Ignore? <==> value.Object? && value.data.verb != Some("AICard")
    ensures d.Reply? <==> value.NonObject?
    ensures d.Reply? ==> d.text == NotUnderstood
    ensures d.TypeError? <==> value.Null?
  {
    match value
    case Object(data) => if data.verb == Some("AICard") then Generate(data.multilineInputId) else Ignore
    case Null => TypeError
    case NonObject => Reply(NotUnderstood)
  }

  /** `sendChatGptResponseIfSubmitAction`: one user message whose content is the submitted
      text, as it is, and the aggregator over the events `completions` produces for it. */
  method SendChatGptResponseIfSubmitAction(context: TurnContext, query: Option<string>,
                                           completions: Option<string> -> seq<Event>)
    modifies context
    ensures context.sent == old(context.sent) + Trace(completions(query), context.assignedId)
  {
    var events := completions(query);
    StreamResponse(events, context);
  }

  /** The `'AICard'` submit handler. It returns whether it threw. */
  method OnAICardSubmit(context: TurnContext, value: SubmitValue,
                        completions: Option<string> -> seq<Event>) returns (threw: bool)
    modifies context
    ensures threw <==> value.Null?
    ensures value.Object? && value.data.verb == Some("AICard") ==>
              context.sent == old(context.sent) + Trace(completions(value.data.multilineInputId), context.assignedId)
    ensures value.Object? && value.data.verb != Some("AICard") ==> context.sent == old(context.sent)
    ensures value.NonObject? ==> context.sent == old(context.sent) + [Send(NotUnderstood)]
    ensures value.Null? ==> context.sent == old(context.sent)
  {
    threw := false;
    match Route(value)
    case Generate(content) =>
      SendChatGptResponseIfSubmitAction(context, content, completions);
    case Ignore =>
    case Reply(text) =>
      var _ := context.SendActivity(text);
    case TypeError =>
      threw := true;
  }
}
