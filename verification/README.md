# Telepathy-Qt service-side channels, modelled in Dafny

This project models the service-side channel objects of Telepathy-Qt
(`BaseChannel` and the interface classes plugged into it, in
`TelepathyQt/base-channel.cpp`).

A connection manager builds each channel the same way:

- **Naming.** The channel takes a unique object name from a process-wide counter.
- **Plugging interfaces.** Interface objects are plugged in, one per D-Bus interface name.
- **Registering.** The channel is then registered on the bus, and from that point its interface set is frozen.
- **Details.** The channel details the connection announces are the channel's eight immutable properties united with those of every plugged interface.

The interfaces modelled are:

- **Channel.Type.Text.** It keeps the received messages waiting for acknowledgement, each under a 32-bit pending-message-id. It also emits the legacy flat `Received`/`Sent` signals.
- **Channel.Interface.Messages.** This is the rich-message view of a Text channel: pending messages, `SendMessage` and its notifications.
- **Channel.Type.ServerAuthentication**, **Channel.Interface.SASLAuthentication** and **Channel.Interface.CaptchaAuthentication1.** These carry the authentication state and the requests that are handed to callbacks.
- **Channel.Interface.Securable** and **Channel.Interface.ChatState.**
- **Channel.Interface.Group.** It holds a member list with one identifier per member. `AddMembers`/`RemoveMembers` update it locally and announce the change in a `MembersChanged` signal.

Modules:

| module | file | content |
|---|---|---|
| `Values` | values.dfy | `uint` as `UInt32` with explicit wrap-around, variant values, D-Bus errors, decimal rendering |
| `Names` | names.dfy | interface names, unique channel names, object paths, the `.Type.` filter |
| `Properties` | properties.dfy | qualified property keys, property maps, `QVariantMap::unite` over several maps |
| `Events` | events.dfy | the signals, and the queue of the processing context they are handed to |
| `TextSpec` | text_spec.dfy | what the Text type and Messages interface compute from a message |
| `GroupSpec` | group_spec.dfy | what addMembers / removeMembers compute, as written and as intended |
| `Channels` | channel.dfy | `BaseChannel`, `BaseChannelTextType`, `BaseChannelMessagesInterface` |
| `Group`, `Sasl`, `Captcha`, `ServerAuthentication`, `Securable`, `ChatState` | one file each | the other interface classes |

How the model represents the source:

- **Classes.** Every object the source updates in place is a Dafny `class` whose methods have `modifies` clauses. The pure computations those methods perform are functions in `TextSpec` and `GroupSpec`, and the methods are proved against them.
- **Signals.** The source never emits a signal directly. It queues the signal with `QMetaObject::invokeMethod` on its processing context. The model appends each signal, in order, to the ghost sequence `Events.EventQueue.events`.
- **Interface registry.** The plugged interfaces form the Dafny datatype `Channels.Iface`, with one variant per interface class.

Batch acknowledgement follows the code, which returns at the first unknown id (base-channel.cpp:514-528). For the batch `[5, 99, 7]` with 99 unknown, message 5 is removed and message 7 stays pending; `TextSpec.AcknowledgeStopsAtUnknownId` states this.

## Model

| member | source | states |
|---|---|---|
| Values.Increment32 | telepathy-qt/TelepathyQt/base-channel.cpp:60-61 | the post-increment of a `uint` counter: one more, except that 2^32-1 wraps to 0 |
| Values.Truncate32 | telepathy-qt/TelepathyQt/base-channel.cpp:715-716 | storing a 64-bit seconds count into a `uint` keeps every value below 2^32 unchanged |
| Values.Decimal | telepathy-qt/TelepathyQt/base-channel.cpp:60 | `QString::number` of a non-negative number is a non-empty string of decimal digits |
| Values.DecimalRoundTrip | telepathy-qt/TelepathyQt/base-channel.cpp:60 | parsing the decimal rendering of n gives back n |
| Values.DecimalInjective | telepathy-qt/TelepathyQt/base-channel.cpp:60 | different numbers have different decimal renderings |
| Names.TypeSuffix | telepathy-qt/TelepathyQt/base-channel.cpp:54-58 | with the `...Channel.Type.` prefix, the type is that prefix followed by the base name; otherwise the base name is empty |
| Names.UniqueNamesDiffer | telepathy-qt/TelepathyQt/base-channel.cpp:52-61 | two channels built at different counter values get different unique names, whatever their types |
| Names.ObjectPathsDiffer | telepathy-qt/TelepathyQt/base-channel.cpp:155-156 | two channels of one connection built at different counter values are registered at different object paths |
| Names.UniqueNameExamples | telepathy-qt/TelepathyQt/base-channel.cpp:52-61 | the first Text channel is named `TextChannel0`; a type outside the Channel.Type namespace contributes no base name |
| Names.WithoutTypeInterfaces | telepathy-qt/TelepathyQt/base-channel.cpp:92-101 | the advertised names are exactly the given names not containing `.Type.`, in their order; with no repeats in the input there are none in the output |
| Names.TypeInterfacesNotAdvertised | telepathy-qt/TelepathyQt/base-channel.cpp:92-101 | the Text and ServerAuthentication channel types never appear in an Interfaces list |
| Properties.PropertyMapKeys | telepathy-qt/TelepathyQt/base-channel.cpp:253-273 | a property map built by successive insertions has exactly the qualified words as keys |
| Properties.PropertyMapValues | telepathy-qt/TelepathyQt/base-channel.cpp:253-273 | with no word repeated, each property holds the value inserted with it |
| Properties.QualifierUnique | telepathy-qt/TelepathyQt/base-channel.cpp:275-286 | a property key names exactly one interface, so maps of different interfaces cannot collide |
| Properties.UniteAllKeepsBase | telepathy-qt/TelepathyQt/base-channel.cpp:275-286 | uniting maps of pairwise different interfaces keeps every property of the first map with its value |
| Properties.UniteAllKeepsParts | telepathy-qt/TelepathyQt/base-channel.cpp:275-286 | the union also keeps every property of every later map with its value |
| Properties.UniteAllHoldsNothingElse | telepathy-qt/TelepathyQt/base-channel.cpp:275-286 | the union holds no key that is not in one of the united maps |
| Events.EventQueue.Post | telepathy-qt/TelepathyQt/base-channel.cpp:238-243 | handing a signal to the processing context appends it after those already queued |
| Channels.Iface.Name | telepathy-qt/TelepathyQt/base-channel.cpp:347-350 | every pluggable interface is named by its class, and none of them is the Channel interface itself |
| Channels.ImmutablePropertiesQualified | telepathy-qt/TelepathyQt/base-channel.cpp:275-286 | every immutable property an interface contributes to the details is named by that interface |
| Channels.DistinctInterfaceObjects | telepathy-qt/TelepathyQt/base-channel.cpp:314-337 | interfaces with different names are different objects, so registering one never touches another |
| Channels.ChannelDetailsUnion | telepathy-qt/TelepathyQt/base-channel.cpp:275-286 | the details keep every channel property and every property of every plugged interface with its value, and hold nothing else |
| Channels.ChannelCounter.constructor | telepathy-qt/TelepathyQt/base-channel.cpp:52 | the process-wide channel counter starts at 0 |
| Channels.Channel.constructor | telepathy-qt/TelepathyQt/base-channel.cpp:43-61 | a new channel is named base name + `Channel` + the counter's value, and the counter advances with 32-bit wrap-around; the channel starts unregistered with no interfaces and empty target and initiator IDs |
| Channels.Channel.Interface | telepathy-qt/TelepathyQt/base-channel.cpp:298-301 | a lookup finds an interface exactly when one of that name was plugged, and the interface found carries that name |
| Channels.Channel.PlugInterface | telepathy-qt/TelepathyQt/base-channel.cpp:314-337 | plugging succeeds exactly when the channel is not registered, the interface is not registered and no interface of that name is plugged; then the interface is filed under its name after the others; otherwise nothing changes |
| Channels.Channel.InterfaceNames | telepathy-qt/TelepathyQt/base-channel.cpp:92-101 | the Interfaces property is the plugged names without the channel types, in plug order |
| Channels.Channel.ImmutablePropertiesQualified | telepathy-qt/TelepathyQt/base-channel.cpp:253-273 | every immutable property of the channel is named by the Channel interface |
| Channels.Channel.ImmutablePropertiesNamed | telepathy-qt/TelepathyQt/base-channel.cpp:253-273 | the channel has exactly the eight properties ChannelType through InitiatorID |
| Channels.Channel.ImmutablePropertyValues | telepathy-qt/TelepathyQt/base-channel.cpp:253-273 | each of the eight properties holds the current value of its field; Interfaces holds the plugged names without the channel types |
| Channels.Channel.DetailsProperties | telepathy-qt/TelepathyQt/base-channel.cpp:275-286 | the details properties contain every channel property and every interface property with its value, and nothing else |
| Channels.Channel.Details | telepathy-qt/TelepathyQt/base-channel.cpp:275-286 | uniting the interfaces' maps one by one in plug order yields the details properties |
| Channels.Channel.RegisterInterfaces | telepathy-qt/TelepathyQt/base-channel.cpp:162-167 | every plugged interface whose registration succeeds ends up registered; one that fails is left as it was, without failing the channel |
| Channels.Channel.RegisterObject | telepathy-qt/TelepathyQt/base-channel.cpp:146-174 | an already registered channel succeeds at once; otherwise the interfaces are registered, then the channel at the connection's bus name under connection path/unique name, and the bus's answer is the result and decides whether the channel is registered |
| Channels.Channel.SetTargetID | telepathy-qt/TelepathyQt/base-channel.cpp:228-231 | the TargetID property reads back the new value; the other fields and the registry are unchanged |
| Channels.Channel.SetRequested | telepathy-qt/TelepathyQt/base-channel.cpp:233-236 | the Requested property reads back the new value; the other fields are unchanged |
| Channels.Channel.SetInitiatorHandle | telepathy-qt/TelepathyQt/base-channel.cpp:218-221 | the InitiatorHandle property reads back the new value; the other fields are unchanged |
| Channels.Channel.SetInitiatorID | telepathy-qt/TelepathyQt/base-channel.cpp:223-226 | the InitiatorID property reads back the new value; the other fields are unchanged |
| Channels.Channel.Close | telepathy-qt/TelepathyQt/base-channel.cpp:238-243 | closing queues Channel.Closed on the bus, then the local closed signal |
| TextSpec.StampPendingId | telepathy-qt/TelepathyQt/base-channel.cpp:448-456 | a stored message gets its header's pending-message-id set to its id; every other header field and every body part is kept |
| TextSpec.StampPendingIdOverwrites | telepathy-qt/TelepathyQt/base-channel.cpp:450-455 | a pending-message-id the sender had already put in the header is replaced by the stored id |
| TextSpec.PlainTextOfIsFirstMatch | telepathy-qt/TelepathyQt/base-channel.cpp:473-480 | the body of the legacy signals is the content of the first text/plain part with a content field, or empty when there is none |
| TextSpec.ExtractPlainText | telepathy-qt/TelepathyQt/base-channel.cpp:473-480 | the scan over the body parts stops at the first text/plain part and returns its content |
| TextSpec.ReceivedNotification | telepathy-qt/TelepathyQt/base-channel.cpp:458-489 | a Received signal is sent exactly when that body is non-empty; it carries the stored id, flags 0 and that body as its text; the header's message-received, message-sender and message-type fields give its timestamp, sender and type, and a missing field reads as 0, 0 and Normal respectively |
| TextSpec.ReceivedNotificationExactly | telepathy-qt/TelepathyQt/base-channel.cpp:473-489 | Received is sent exactly when some body part is text/plain and the first such part's content is non-empty |
| TextSpec.ReceiveEvents | telepathy-qt/TelepathyQt/base-channel.cpp:481-497 | a received message gives rise to Received (exactly when ReceivedNotification yields one) followed by MessageReceived (exactly when a Messages interface is plugged in), and to nothing else |
| TextSpec.StampSent | telepathy-qt/TelepathyQt/base-channel.cpp:707-719 | a sent message's header gets a message-sent stamp of the current time unless it has one, which is then kept; nothing else changes |
| TextSpec.StampSentIdempotent | telepathy-qt/TelepathyQt/base-channel.cpp:707-719 | stamping a message already stamped changes nothing |
| TextSpec.SendEvents | telepathy-qt/TelepathyQt/base-channel.cpp:721-750 | a sent message gives rise to MessageSent with the stamped message, then Sent carrying the header's timestamp, the header's message-type (Normal when absent) and the first plain-text body |
| TextSpec.FirstUnknown | telepathy-qt/TelepathyQt/base-channel.cpp:514-528 | a batch acknowledgement gets through every id before the returned position, each stored and not earlier in the batch, and stops at the first id that is not |
| TextSpec.AckTokens | telepathy-qt/TelepathyQt/base-channel.cpp:523-525 | at most one token is handed to the callback per acknowledged id |
| TextSpec.AckTokensCount | telepathy-qt/TelepathyQt/base-channel.cpp:515-525 | the callback receives exactly as many tokens as there are acknowledged ids whose stored header carries a message-token |
| TextSpec.AckTokensMembers | telepathy-qt/TelepathyQt/base-channel.cpp:515-525 | a token reaches the callback iff it is the message-token of the stored header of some acknowledged id |
| TextSpec.AckTokensOrder | telepathy-qt/TelepathyQt/base-channel.cpp:515-525 | tokens arrive in batch order: the token of the k-th id directly follows the tokens of the ids before it |
| TextSpec.AcknowledgeStopsAtUnknownId | telepathy-qt/TelepathyQt/base-channel.cpp:514-528 | acknowledging [5, 99, 7] with 99 unknown removes 5 and leaves 7 pending |
| TextSpec.Ascending | telepathy-qt/TelepathyQt/base-channel.cpp:500-503 | the keys of a `QMap` in ascending order: each once, strictly increasing |
| TextSpec.StoreKeepsOwnIds | telepathy-qt/TelepathyQt/base-channel.cpp:448-456 | storing a message stamped with its id keeps every stored message carrying its own id |
| TextSpec.RemoveKeepsOwnIds | telepathy-qt/TelepathyQt/base-channel.cpp:527 | erasing messages keeps every remaining message carrying its own id |
| TextSpec.InIdOrder | telepathy-qt/TelepathyQt/base-channel.cpp:500-503 | the pending messages are listed one per stored id, in ascending id order, each being the message stored under the id in its header |
| Channels.TextType.constructor | telepathy-qt/TelepathyQt/base-channel.cpp:380-394 | a Text type starts with no pending messages, id counter 0 and no acknowledgement callback |
| Channels.TextType.AddReceivedMessage | telepathy-qt/TelepathyQt/base-channel.cpp:441-498 | an empty message is dropped; otherwise it is stored under the next id (fresh until the counter wraps) with that id stamped into its header, the counter advances with wrap-around, and exactly the signals of ReceiveEvents are queued |
| Channels.TextType.NotifyReceived | telepathy-qt/TelepathyQt/base-channel.cpp:458-497 | the signals queued for a stored message are exactly ReceiveEvents: Received when it has a plain-text body, then MessageReceived when Messages is plugged in |
| Channels.TextType.SetMessageAcknowledgedCallback | telepathy-qt/TelepathyQt/base-channel.cpp:509-512 | installs or clears the callback; the pending messages are unchanged |
| Channels.TextType.RemoveAcknowledged | telepathy-qt/TelepathyQt/base-channel.cpp:516-528 | the loop stops at FirstUnknown, having erased exactly the ids before it and collected exactly their tokens |
| Channels.TextType.AcknowledgePendingMessages | telepathy-qt/TelepathyQt/base-channel.cpp:514-537 | removes the ids up to the first unknown one and hands their tokens to the callback if one is installed; fails with InvalidArgument "id not found" exactly when an id is unknown, keeping the removals and queuing nothing; otherwise queues PendingMessagesRemoved when Messages is plugged in |
| Channels.TextType.NotifyRemoved | telepathy-qt/TelepathyQt/base-channel.cpp:529-536 | PendingMessagesRemoved is queued exactly when a Messages interface is plugged in |
| Channels.TextType.Sent | telepathy-qt/TelepathyQt/base-channel.cpp:541-544 | queues the legacy Sent signal with the given values |
| Channels.MessagesInterface.constructor | telepathy-qt/TelepathyQt/base-channel.cpp:570-592 | the interface keeps its Text type and its four properties, with no send callback |
| Channels.MessagesInterface.ImmutablePropertiesNamed | telepathy-qt/TelepathyQt/base-channel.cpp:633-646 | exactly the four properties SupportedContentTypes, MessageTypes, MessagePartSupportFlags and DeliveryReportingSupport, named by the interface, each holding its field |
| Channels.MessagesInterface.MessageSent | telepathy-qt/TelepathyQt/base-channel.cpp:679-682 | queues MessageSent |
| Channels.MessagesInterface.PendingMessagesRemoved | telepathy-qt/TelepathyQt/base-channel.cpp:684-687 | queues PendingMessagesRemoved |
| Channels.MessagesInterface.MessageReceived | telepathy-qt/TelepathyQt/base-channel.cpp:689-692 | queues MessageReceived |
| Channels.MessagesInterface.SetSendMessageCallback | telepathy-qt/TelepathyQt/base-channel.cpp:694-697 | installs the send callback |
| Channels.MessagesInterface.SendMessage | telepathy-qt/TelepathyQt/base-channel.cpp:699-752 | with no callback, NotImplemented and nothing queued; otherwise the callback's token and error are returned and, whatever the error, MessageSent with the stamped message then Sent are queued |
| ServerAuthentication.ServerAuthenticationType.constructor | telepathy-qt/TelepathyQt/base-channel.cpp:792-796 | keeps the authentication method |
| ServerAuthentication.ServerAuthenticationType.ImmutablePropertiesNamed | telepathy-qt/TelepathyQt/base-channel.cpp:814-820 | the only immutable property is AuthenticationMethod, named by the channel type and holding the method |
| Sasl.PropertyWordsDotFree | telepathy-qt/TelepathyQt/base-channel.cpp:1216-1234 | the seven SASL property words are distinct and contain no dot |
| Sasl.SaslAuthenticationInterface.constructor | telepathy-qt/TelepathyQt/base-channel.cpp:1012-1049 | keeps the seven fixed properties, starts Not_Started with no error, and every request is NotImplemented |
| Sasl.SaslAuthenticationInterface.ImmutablePropertiesNamed | telepathy-qt/TelepathyQt/base-channel.cpp:1216-1234 | exactly the seven properties, named by the interface, each holding its field |
| Sasl.SaslAuthenticationInterface.SetSaslStatus | telepathy-qt/TelepathyQt/base-channel.cpp:1256-1260 | records the status and queues SASLStatusChanged with the reason and details |
| Sasl.SaslAuthenticationInterface.SetSaslError | telepathy-qt/TelepathyQt/base-channel.cpp:1267-1270 | records the error name only |
| Sasl.SaslAuthenticationInterface.SetSaslErrorDetails | telepathy-qt/TelepathyQt/base-channel.cpp:1277-1280 | records the error details only |
| Sasl.SaslAuthenticationInterface.NewChallenge | telepathy-qt/TelepathyQt/base-channel.cpp:1378-1381 | queues NewChallenge with the data |
| Sasl.SaslAuthenticationInterface.SetStartMechanismCallback | telepathy-qt/TelepathyQt/base-channel.cpp:1308-1311 | afterwards every StartMechanism request gets the callback's answer |
| Sasl.SaslAuthenticationInterface.SetStartMechanismWithDataCallback | telepathy-qt/TelepathyQt/base-channel.cpp:1322-1325 | afterwards every StartMechanismWithData request gets the callback's answer |
| Sasl.SaslAuthenticationInterface.SetRespondCallback | telepathy-qt/TelepathyQt/base-channel.cpp:1336-1339 | afterwards every Respond request gets the callback's answer |
| Sasl.SaslAuthenticationInterface.SetAcceptSaslCallback | telepathy-qt/TelepathyQt/base-channel.cpp:1350-1353 | afterwards AcceptSASL gets the callback's answer |
| Sasl.SaslAuthenticationInterface.SetAbortSaslCallback | telepathy-qt/TelepathyQt/base-channel.cpp:1364-1367 | afterwards every AbortSASL request gets the callback's answer |
| Sasl.SaslAuthenticationInterface.StartMechanism | telepathy-qt/TelepathyQt/base-channel.cpp:1313-1320 | NotImplemented while no callback is installed |
| Sasl.SaslAuthenticationInterface.StartMechanismWithData | telepathy-qt/TelepathyQt/base-channel.cpp:1327-1334 | NotImplemented while no callback is installed |
| Sasl.SaslAuthenticationInterface.Respond | telepathy-qt/TelepathyQt/base-channel.cpp:1341-1348 | NotImplemented while no callback is installed |
| Sasl.SaslAuthenticationInterface.AcceptSasl | telepathy-qt/TelepathyQt/base-channel.cpp:1355-1362 | NotImplemented while no callback is installed |
| Sasl.SaslAuthenticationInterface.AbortSasl | telepathy-qt/TelepathyQt/base-channel.cpp:1369-1376 | NotImplemented while no callback is installed |
| Captcha.StatusReadBackAsWritten | telepathy-qt/TelepathyQt/base-channel.cpp:846 | as written, the status read back is 0 exactly for LocalPending and 1 for every other status |
| Captcha.StatusAsWrittenIsLost | telepathy-qt/TelepathyQt/base-channel.cpp:996-999 | as written, setting RemotePending or Succeeded reads back as LocalPendingWithError |
| Captcha.CaptchaAuthenticationInterface.constructor | telepathy-qt/TelepathyQt/base-channel.cpp:839-854 | starts LocalPending with no error and no callbacks |
| Captcha.CaptchaAuthenticationInterface.ImmutablePropertiesNamed | telepathy-qt/TelepathyQt/base-channel.cpp:962-968 | the only immutable property is CanRetryCaptcha, named by the interface and holding the flag |
| Captcha.CaptchaAuthenticationInterface.SetCaptchaStatus | telepathy-qt/TelepathyQt/base-channel.cpp:996-999 | the CaptchaStatus property reads back the status set (corrected, see Findings) |
| Captcha.CaptchaAuthenticationInterface.SetCaptchaError | telepathy-qt/TelepathyQt/base-channel.cpp:1001-1004 | records the error name only |
| Captcha.CaptchaAuthenticationInterface.SetCaptchaErrorDetails | telepathy-qt/TelepathyQt/base-channel.cpp:1006-1009 | records the error details only |
| Captcha.CaptchaAuthenticationInterface.SetGetCaptchasCallback | telepathy-qt/TelepathyQt/base-channel.cpp:976-979 | afterwards GetCaptchas answers with the callback's listing or error |
| Captcha.CaptchaAuthenticationInterface.SetGetCaptchaDataCallback | telepathy-qt/TelepathyQt/base-channel.cpp:981-984 | afterwards every GetCaptchaData request gets the callback's answer |
| Captcha.CaptchaAuthenticationInterface.SetAnswerCaptchasCallback | telepathy-qt/TelepathyQt/base-channel.cpp:986-989 | afterwards every AnswerCaptchas request gets the callback's answer |
| Captcha.CaptchaAuthenticationInterface.SetCancelCaptchaCallback | telepathy-qt/TelepathyQt/base-channel.cpp:991-994 | afterwards every CancelCaptcha request gets the callback's answer |
| Securable.SecurableInterface.constructor | telepathy-qt/TelepathyQt/base-channel.cpp:1384-1395 | both flags start false |
| Securable.SecurableInterface.SetEncrypted | telepathy-qt/TelepathyQt/base-channel.cpp:1461-1464 | sets Encrypted, leaves Verified |
| Securable.SecurableInterface.SetVerified | telepathy-qt/TelepathyQt/base-channel.cpp:1471-1474 | sets Verified, leaves Encrypted |
| ChatState.ChatStateInterface.constructor | telepathy-qt/TelepathyQt/base-channel.cpp:1483-1492 | starts with an empty chat-state map; SetChatState is NotImplemented |
| ChatState.ChatStateInterface.SetChatStates | telepathy-qt/TelepathyQt/base-channel.cpp:1566-1569 | replaces the ChatStates map |
| ChatState.ChatStateInterface.SetSetChatStateCallback | telepathy-qt/TelepathyQt/base-channel.cpp:1577-1580 | afterwards every SetChatState request gets the callback's answer |
| ChatState.ChatStateInterface.SetChatState | telepathy-qt/TelepathyQt/base-channel.cpp:1582-1589 | NotImplemented while no callback is installed |
| ChatState.ChatStateInterface.ChatStateChanged | telepathy-qt/TelepathyQt/base-channel.cpp:1591-1594 | queues ChatStateChanged and leaves the map as it is |
| GroupSpec.Added | telepathy-qt/TelepathyQt/base-channel.cpp:1815-1823 | the handles addMembers appends are exactly those given that are not members, each once |
| GroupSpec.AddedKeepsNoDup | telepathy-qt/TelepathyQt/base-channel.cpp:1815-1823 | appending them keeps a duplicate-free member list duplicate-free |
| GroupSpec.AddedInInputOrder | telepathy-qt/TelepathyQt/base-channel.cpp:1815-1823 | the added handles keep the order of their first occurrence in the input |
| GroupSpec.AddedIdentifiersExactly | telepathy-qt/TelepathyQt/base-channel.cpp:1815-1823 | exactly the added handles get an identifier: the one given alongside their first occurrence |
| GroupSpec.UpToIsAdded | telepathy-qt/TelepathyQt/base-channel.cpp:1815-1823 | the position-by-position loop computes Added and the identifiers on every prefix |
| GroupSpec.AddedKeepsIdentified | telepathy-qt/TelepathyQt/base-channel.cpp:1809-1827 | after adding, the members are duplicate-free and exactly they have identifiers |
| GroupSpec.RemoveAll | telepathy-qt/TelepathyQt/base-channel.cpp:1838 | `QList::removeAll` keeps exactly the other elements |
| GroupSpec.RemoveAsWrittenKeepsMembers | telepathy-qt/TelepathyQt/base-channel.cpp:1829-1842 | as written, removeMembers never changes the member list, reports exactly the given non-members and erases only their identifiers |
| GroupSpec.RemoveAsWrittenCounterexample | telepathy-qt/TelepathyQt/base-channel.cpp:1829-1842 | as written, removing member 5 leaves it a member with its identifier and reports nothing |
| GroupSpec.RemoveAsWrittenAnnouncesNonMembers | telepathy-qt/TelepathyQt/base-channel.cpp:1829-1842 | as written, removeMembers queues one MembersChanged listing exactly the given non-members as removed, with reason None, and queues it exactly when some given handle is not a member |
| GroupSpec.RemoveAsWrittenAnnouncesStranger | telepathy-qt/TelepathyQt/base-channel.cpp:1829-1842 | as written, asking to remove non-member 7 from members [5] keeps 5 and announces 7 as removed |
| GroupSpec.IntendedRemoveMembersRemoves | telepathy-qt/TelepathyQt/base-channel.cpp:1829-1842 | the corrected removal keeps exactly the members not named, reports each removed member once in member order, and erases exactly their identifiers |
| GroupSpec.IntendedRemoveExample | telepathy-qt/TelepathyQt/base-channel.cpp:1829-1842 | the corrected removal of member 5 removes it, erases its identifier and reports it |
| Group.GroupInterface.constructor | telepathy-qt/TelepathyQt/base-channel.cpp:1765-1769 | starts with the given flags and self handle, no members, no pending contacts, no owners, and both requests NotImplemented |
| Group.GroupInterface.SetAddMembersCallback | telepathy-qt/TelepathyQt/base-channel.cpp:1804-1807 | afterwards every AddMembers request gets the callback's answer |
| Group.GroupInterface.SetRemoveMembersCallback | telepathy-qt/TelepathyQt/base-channel.cpp:1799-1802 | afterwards every RemoveMembers request gets the callback's answer |
| Group.GroupInterface.AddMembersRequest | telepathy-qt/TelepathyQt/base-channel.cpp:1666-1682 | NotImplemented while no callback is installed |
| Group.GroupInterface.RemoveMembersRequest | telepathy-qt/TelepathyQt/base-channel.cpp:1684-1699 | NotImplemented while no callback is installed |
| Group.GroupInterface.RemoveMembersWithReasonRequest | telepathy-qt/TelepathyQt/base-channel.cpp:1701-1708 | the same as RemoveMembers: the reason is dropped |
| Group.GroupInterface.GetLocalPendingMembers | telepathy-qt/TelepathyQt/base-channel.cpp:1622-1627 | the handles of the local-pending contacts, in order |
| Group.GroupInterface.GetAllMembers | telepathy-qt/TelepathyQt/base-channel.cpp:1710-1713 | the members, the local-pending handles and the remote-pending handles |
| Group.GroupInterface.GetHandleOwners | telepathy-qt/TelepathyQt/base-channel.cpp:1720-1726 | one owner per handle, in order: the recorded owner, or 0 for a handle without one |
| Group.GroupInterface.CollectAdded | telepathy-qt/TelepathyQt/base-channel.cpp:1815-1823 | the loop produces the members followed by Added, the identifiers extended by AddedIdentifiers, and Added itself |
| Group.GroupInterface.AddMembers | telepathy-qt/TelepathyQt/base-channel.cpp:1809-1827 | lists of different lengths change nothing; otherwise the new handles are appended with their identifiers and MembersChanged lists them, unless there are none |
| Group.GroupInterface.RemoveMembers | telepathy-qt/TelepathyQt/base-channel.cpp:1829-1842 | the corrected removal: members named are removed with their identifiers and announced in one MembersChanged; afterwards none of the handles is a member |

## Left out

- **D-Bus plumbing.** The D-Bus adaptors and adaptees, `createAdaptor`, and the method-invocation contexts are left out. An adaptee's getter reads a field, and the model exposes that field directly. An adaptee's request forwarding is the class method or request function it calls.
- **Bus registration.** Registration on the bus and of an interface on the channel's object are parameters of `Channels.Channel.RegisterObject`, as functions from names to an answer. The connection's bus name and object path are parameters too. The `registerObject` overload at line 179 is the base-object registration it relies on, and is outside this model.
- **Signal delivery.** Queued and direct `invokeMethod` calls are both modelled as appending to one ordered queue. When a queued signal is delivered relative to the return of the D-Bus call is not modelled.
- **Clock.** The clock read by `sendMessage` is the `nowMSecs` parameter.
- **Logging.** Debug and warning output is left out.
- **Variants.** `QDBusVariant`/`QVariant` conversions are reduced to a small `Value` datatype. Converting a value of the wrong kind gives 0 or "". The real conversions, such as parsing numbers out of strings, are not modelled.
- **Callback side effects.**
  - A callback is a function value: what it does beyond its answer is not modelled.
  - The message-acknowledged callback's invocations are recorded as the ghost list of tokens it received.
- **Interface order.** The channel's interfaces live in a `QHash`, whose iteration order is unspecified. The model iterates in plug order.
  - For the Interfaces property, that order is the only difference.
  - For the details and for registration, it makes no difference, because the united maps never share a key and registering one interface touches no other.
- **Channel counter.** The process-wide static counter is an explicit `Channels.ChannelCounter` object passed to the constructor.
- **Teardown.** Destructors and reference counting are left out.
- **Group fields.** Nothing in the Group interface ever fills the handle owners or the local- and remote-pending lists, so they are constants of the model. GetGroupFlags, GetMembers, GetSelfHandle and the other trivial getters read fields directly.
- Channels.MessagesInterface.SendMessage: requires a non-empty message. The source reads the header before its own empty-message check, at lines 709 and 728, so an empty message is undefined behaviour there.
- Channels.TextType.PendingMessages: has no contract of its own. It returns `TextSpec.InIdOrder` of the pending map, whose contract is what the pendingMessages getter promises.
- Channels.MessagesInterface.PendingMessages: returns the Text type's PendingMessages and has no contract of its own.
- Captcha.CaptchaAuthenticationInterface.GetCaptchas: requires an installed callback, as do GetCaptchaData, AnswerCaptchas and CancelCaptcha. Unlike the SASL and Group requests, the captcha adaptee calls these callbacks without checking that they are set, at lines 876-926.
- Channels.TextType.AddReceivedMessage: only ids stored before the 2^32 counter wraps are known to be fresh. After a wrap, a new message may replace a still-pending one under the same id, as `QMap::insert` does. The ghost flag `wrapped` tracks this.
- Channels.Channel.constructor: says nothing about `requested` and `initiatorHandle`. The source never initialises these two fields (lines 72-73), so the model leaves them arbitrary until SetRequested and SetInitiatorHandle are called.
- Group.GroupInterface.RemoveMembersWithReasonRequest: the reason is discarded, as in the source.
- **Qt containers.** `QList`, `QMap` and `QHash` are sequences and maps. Their copy-on-write sharing and allocation are not modelled.

## Findings

| source | as written | input that shows it | evidently intended | confidence | as-written member | corrected member |
|---|---|---|---|---|---|---|
| telepathy-qt/TelepathyQt/base-channel.cpp:1829-1842 | removeMembers skips every handle that IS a member, and "removes" and reports the handles that are not | members [5] with identifier "alice", removeMembers([5]): 5 stays a member, keeps its identifier, no MembersChanged | skip non-members, remove members with their identifiers and report them | not executed | GroupSpec.RemoveAsWrittenCounterexample | GroupSpec.IntendedRemoveMembersRemoves |
| telepathy-qt/TelepathyQt/base-channel.cpp:846 | the captcha status is stored in a `bool`, so setCaptchaStatus(3) reads back through the `uint` getter as 1 | setCaptchaStatus(Succeeded = 3), then read CaptchaStatus: 1 (LocalPendingWithError) | store the status as a `uint` so it reads back unchanged | not executed | Captcha.StatusAsWrittenIsLost | Captcha.CaptchaAuthenticationInterface.SetCaptchaStatus |

The `Group.GroupInterface.RemoveMembers` method implements the corrected removal. The `Captcha.CaptchaAuthenticationInterface` class keeps the status as a `UInt32`.
