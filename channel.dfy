/** The part of the bot framework the handlers talk to: the data a card submit carries,
    and the outgoing side of a turn, which records every activity operation in order. */
module Channel {
  import opened Wrappers

  /** The two adaptive cards the live-share bot fills in with stored notes. */
  datatype Card = OnCallNotesCard | PrepNotesCard

  /** One operation on the conversation: post a text activity, post a card
      expanded with `data`, or replace the text of the activity with id `id`. */
  datatype Op =
    | Send(text: string)
    | SendCard(card: Card, data: string)
    | Update(id: string, text: string)

  /** `context.activity.value` of a card submit, read as an object: each field may be missing. */
  datatype SubmitData = SubmitData(verb: Option<string>, multilineInputId: Option<string>, prepnoteinput: Option<string>)

  /** A turn's outgoing channel. `sent` is everything sent so far; `assignedId` is the id
      the channel hands back for a posted activity, an oracle the model does not choose. */
  class TurnContext {
    var sent: seq<Op>
    const assignedId: string

    constructor (assignedId: string)
      ensures sent == [] && this.assignedId == assignedId
    {
      sent := [];
      this.assignedId := assignedId;
    }

    /** `context.sendActivity(text)`, returning the id of the posted activity. */
    method SendActivity(text: string) returns (id: string)
      modifies this
      ensures sent == old(sent) + [Send(text)]
      ensures id == assignedId
    {
      sent := sent + [Send(text)];
      id := assignedId;
    }

    /** `context.sendActivity({ attachments: [card] })` for a card expanded with `data`. */
    method SendCardActivity(card: Card, data: string)
      modifies this
      ensures sent == old(sent) + [SendCard(card, data)]
    {
      sent := sent + [SendCard(card, data)];
    }

    /** `context.updateActivity(activity)` for a text activity whose id was set to `id`. */
    method UpdateActivity(id: string, text: string)
      modifies this
      ensures sent == old(sent) + [Update(id, text)]
    {
      sent := sent + [Update(id, text)];
    }
  }
}
