/**
 * Channel.Interface.ChatState: the chat-state map exposed as a property, the
 * SetChatState request handed to a callback, and the ChatStateChanged
 * notification.
 */
module ChatState {
  import opened Values
  import opened Events

  class ChatStateInterface {
    const queue: EventQueue
    var registered: bool
    /** Contact handle to chat state, as exposed by the ChatStates property. */
    var chatStates: map<UInt32, UInt32>
    var setChatStateCallback: Option<UInt32 -> Option<DBusError>>

    /** The map starts empty and no callback is set, so SetChatState is not implemented. */
    constructor (queue: EventQueue)
      ensures this.queue == queue
      ensures !registered && chatStates == map[] && setChatStateCallback == None
      ensures forall state :: SetChatState(state) == Some(NotImplemented)
    {
      this.queue := queue;
      registered := false;
      chatStates := map[];
      setChatStateCallback := None;
    }

    /** The interface has no immutable properties. */
    function ImmutableProperties(): VariantMap
    {
      map[]
    }

    method SetChatStates(states: map<UInt32, UInt32>)
      modifies this
      ensures chatStates == states
      ensures setChatStateCallback == old(setChatStateCallback) && registered == old(registered)
    {
      chatStates := states;
    }

    /** After a callback is installed, every SetChatState request gets the callback's answer. */
    method SetSetChatStateCallback(callback: UInt32 -> Option<DBusError>)
      modifies this
      ensures forall state :: SetChatState(state) == callback(state)
      ensures chatStates == old(chatStates) && registered == old(registered)
    {
      setChatStateCallback := Some(callback);
    }

    /** The SetChatState request: NotImplemented while no callback is set, else the callback's error, if any. */
    function SetChatState(state: UInt32): (r: Option<DBusError>)
      reads this
      ensures setChatStateCallback.None? ==> r == Some(NotImplemented)
    {
      match setChatStateCallback
      case None => Some(NotImplemented)
      case Some(callback) => callback(state)
    }

    /** Announces a contact's new chat state; the ChatStates map itself is left as it is. */
    method ChatStateChanged(contact: UInt32, state: UInt32)
      modifies queue
      ensures queue.events == old(queue.events) + [Events.ChatStateChanged(contact, state)]
      ensures chatStates == old(chatStates)
    {
      queue.Post(Events.ChatStateChanged(contact, state));
    }
  }
}
