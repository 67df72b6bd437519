/**
 * Outbound notifications. The channel and its interfaces never deliver a
 * signal themselves; they hand it to the processing context, which emits it
 * on the bus (or to local listeners). The model keeps the notifications in
 * the order they were handed over.
 */
module Events {
  import opened Values

  datatype Event =
    /** Channel.Closed on the bus. */
    | ChannelClosed
    /** The channel object's own `closed` signal, for listeners in the same process. */
    | LocalClosed
    /** Channel.Type.Text.Received: the legacy flat view of a received message. */
    | Received(id: UInt32, timestamp: UInt32, sender: UInt32, messageType: UInt32, flags: UInt32, text: string)
    /** Channel.Type.Text.Sent: the legacy flat view of a sent message. */
    | Sent(timestamp: UInt32, messageType: UInt32, text: string)
    /** Channel.Interface.Messages.MessageReceived. */
    | MessageReceived(message: MessagePartList)
    /** Channel.Interface.Messages.MessageSent. */
    | MessageSent(message: MessagePartList, flags: UInt32, token: string)
    /** Channel.Interface.Messages.PendingMessagesRemoved. */
    | PendingMessagesRemoved(ids: seq<UInt32>)
    /** Channel.Interface.Group.MembersChanged. */
    | MembersChanged(comment: string, added: seq<UInt32>, removed: seq<UInt32>,
                     localPending: seq<UInt32>, remotePending: seq<UInt32>, actor: UInt32, reason: UInt32)
    /** Channel.Interface.SASLAuthentication.SASLStatusChanged. */
    | SaslStatusChanged(status: UInt32, statusReason: string, details: VariantMap)
    /** Channel.Interface.SASLAuthentication.NewChallenge. */
    | NewChallenge(data: seq<Byte>)
    /** Channel.Interface.ChatState.ChatStateChanged. */
    | ChatStateChanged(contact: UInt32, state: UInt32)

  /** The processing context's queue of notifications handed over and not yet delivered. */
  class EventQueue {
    ghost var events: seq<Event>

    constructor ()
      ensures events == []
    {
      events := [];
    }

    method Post(e: Event)
      modifies this
      ensures events == old(events) + [e]
    {
      events := events + [e];
    }
  }
}
