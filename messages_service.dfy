/** The flat message store: an append-only list, independent of any session. */
module Messages {
  import opened Models
  import Ids

  class MessagesService {
    var messages: seq<Message>

    /** The message at position k has id k + 1. */
    ghost predicate Valid()
      reads this
    {
      Ids.Dense(MessageIds(messages))
    }

    constructor ()
      ensures Valid() && messages == []
    {
      messages := [];
    }

    /** Stores and returns a message with id "count + 1" and the given text and author. */
    method Create(text: string, userId: int) returns (message: Message)
      requires Valid()
      modifies this
      ensures Valid()
      ensures message.id == |old(messages)| + 1
      ensures message.text == text && message.userId == userId
      ensures messages == old(messages) + [message]
    {
      message := Message(|messages| + 1, text, userId);
      messages := messages + [message];
    }

    /** Every message, in insertion order, with ids 1..n. */
    method FindAll() returns (all: seq<Message>)
      requires Valid()
      ensures all == messages
      ensures Ids.Dense(MessageIds(all))
    {
      all := messages;
    }
  }
}
