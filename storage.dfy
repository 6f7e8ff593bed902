/**
 * The message storage the check reads: the manipulations the test tool
 * performed and the messages it captured, each kept in insertion order.
 * A message's position in the store is its sequence number, which breaks
 * ties between messages captured at the same time stamp.
 */
module Storage {
  import opened Manipulations
  import opened Messages

  class MessageStorage {
    var manipulations: seq<Manipulation>
    var messages: seq<Message>

    /** An empty store. */
    constructor ()
      ensures manipulations == [] && messages == []
    {
      manipulations := [];
      messages := [];
    }

    /** Records a performed manipulation after all earlier ones. */
    method AddManipulation(m: Manipulation)
      modifies this
      ensures manipulations == old(manipulations) + [m]
      ensures messages == old(messages)
    {
      manipulations := manipulations + [m];
    }

    /** Records a captured message after all earlier ones; it gets the next sequence number. */
    method AddMessage(x: Message)
      modifies this
      ensures messages == old(messages) + [x]
      ensures manipulations == old(manipulations)
    {
      messages := messages + [x];
    }
  }
}
