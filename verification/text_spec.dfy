/**
 * What the Text channel type and the Messages interface compute from a
 * message: the header stamps they add, the plain-text body the legacy flat
 * signals carry, the notifications a received or sent message gives rise
 * to, and how far a batch acknowledgement gets.
 */
module TextSpec {
  import opened Values
  import opened Events

  const PendingMessageIdKey := "pending-message-id"
  const MessageReceivedKey := "message-received"
  const MessageSenderKey := "message-sender"
  const MessageTypeKey := "message-type"
  const MessageTokenKey := "message-token"
  const MessageSentKey := "message-sent"
  const ContentTypeKey := "content-type"
  const ContentKey := "content"
  const PlainTextType := "text/plain"

  /** Channel_Text_Message_Type_Normal. */
  const MessageTypeNormal: UInt32 := 0

  /** The header field `key` read as a `uint`, or `default` when the header lacks it. */
  function HeaderUInt(header: MessagePart, key: string, default: UInt32): UInt32
  {
    if key in header then ToUInt(header[key]) else default
  }

  /** The message with its header's pending-message-id set to `id` (overwriting any earlier one). */
  function StampPendingId(msg: MessagePartList, id: UInt32): (r: MessagePartList)
    requires |msg| > 0
    ensures |r| == |msg| && r[1..] == msg[1..]
    ensures r[0].Keys == msg[0].Keys + {PendingMessageIdKey}
    ensures r[0][PendingMessageIdKey] == UInt(id)
    ensures forall k :: k in msg[0] && k != PendingMessageIdKey ==> r[0][k] == msg[0][k]
  {
    [msg[0][PendingMessageIdKey := UInt(id)]] + msg[1..]
  }

  /** Stamping twice leaves only the second id. */
  lemma StampPendingIdOverwrites(msg: MessagePartList, first: UInt32, second: UInt32)
    requires |msg| > 0
    ensures StampPendingId(StampPendingId(msg, first), second) == StampPendingId(msg, second)
  {
    var a := StampPendingId(StampPendingId(msg, first), second);
    var b := StampPendingId(msg, second);
    assert a[0] == b[0];
    assert a[1..] == b[1..];
  }

  /** The pending-message-id a stored message carries in its header. */
  function PendingIdOf(msg: MessagePartList): UInt32
    requires |msg| > 0 && PendingMessageIdKey in msg[0]
  {
    ToUInt(msg[0][PendingMessageIdKey])
  }

  /** A part whose content-type reads "text/plain" and that has a content field. */
  predicate IsPlainTextPart(part: MessagePart)
  {
    ContentTypeKey in part && ToText(part[ContentTypeKey]) == PlainTextType && ContentKey in part
  }

  /** The content of the first plain-text part, or "" when there is none. */
  function PlainTextOf(parts: seq<MessagePart>): string
  {
    if parts == [] then ""
    else if IsPlainTextPart(parts[0]) then ToText(parts[0][ContentKey])
    else PlainTextOf(parts[1..])
  }

  /** PlainTextOf picks the first plain-text part, and gives "" only for its empty content or when there is none. */
  lemma {:induction false} PlainTextOfIsFirstMatch(parts: seq<MessagePart>)
    ensures forall i :: 0 <= i < |parts| && IsPlainTextPart(parts[i]) &&
                        (forall j :: 0 <= j < i ==> !IsPlainTextPart(parts[j])) ==>
              PlainTextOf(parts) == ToText(parts[i][ContentKey])
    ensures (forall i :: 0 <= i < |parts| ==> !IsPlainTextPart(parts[i])) ==> PlainTextOf(parts) == ""
  {
    if parts != [] {
      PlainTextOfIsFirstMatch(parts[1..]);
      forall i | 0 < i < |parts| && IsPlainTextPart(parts[i]) &&
                 (forall j :: 0 <= j < i ==> !IsPlainTextPart(parts[j]))
        ensures PlainTextOf(parts) == ToText(parts[i][ContentKey])
      {
        assert !IsPlainTextPart(parts[0]);
        assert parts[1..][i - 1] == parts[i];
        forall j | 0 <= j < i - 1
          ensures !IsPlainTextPart(parts[1..][j])
        {
          assert parts[1..][j] == parts[j + 1];
        }
      }
      if forall i :: 0 <= i < |parts| ==> !IsPlainTextPart(parts[i]) {
        forall j | 0 <= j < |parts| - 1
          ensures !IsPlainTextPart(parts[1..][j])
        {
          assert parts[1..][j] == parts[j + 1];
        }
      }
    }
  }

  /** The scan for the body of the legacy flat signals: the first plain-text part's content. */
  method ExtractPlainText(parts: seq<MessagePart>) returns (content: string)
    ensures content == PlainTextOf(parts)
  {
    content := "";
    var i := 0;
    while i < |parts|
      invariant 0 <= i <= |parts|
      invariant content == ""
      invariant PlainTextOf(parts[i..]) == PlainTextOf(parts)
    {
      var part := parts[i];
      if ContentTypeKey in part && ToText(part[ContentTypeKey]) == PlainTextType && ContentKey in part {
        content := ToText(part[ContentKey]);
        break;
      }
      assert parts[i..][1..] == parts[i + 1..];
      i := i + 1;
    }
  }

  /**
   * The legacy Received signal for a stored message (header first), if any:
   * only when the body found by PlainTextOf is non-empty. Missing header
   * fields read as timestamp 0, sender 0 and type Normal; flags are always 0.
   */
  function ReceivedNotification(message: MessagePartList, id: UInt32): (r: Option<Event>)
    requires |message| > 0
    ensures r.Some? <==> PlainTextOf(message[1..]) != ""
    ensures r.Some? ==> r.value.Received? && r.value.id == id && r.value.flags == 0
    ensures r.Some? && MessageReceivedKey !in message[0] ==> r.value.timestamp == 0
    ensures r.Some? && MessageSenderKey !in message[0] ==> r.value.sender == 0
    ensures r.Some? && MessageTypeKey !in message[0] ==> r.value.messageType == MessageTypeNormal
    ensures r.Some? && MessageReceivedKey in message[0] ==> r.value.timestamp == ToUInt(message[0][MessageReceivedKey])
    ensures r.Some? && MessageSenderKey in message[0] ==> r.value.sender == ToUInt(message[0][MessageSenderKey])
    ensures r.Some? && MessageTypeKey in message[0] ==> r.value.messageType == ToUInt(message[0][MessageTypeKey])
    ensures r.Some? ==> r.value.text == PlainTextOf(message[1..])
  {
    var header := message[0];
    var content := PlainTextOf(message[1..]);
    if |content| > 0 then
      Some(Received(id,
                    HeaderUInt(header, MessageReceivedKey, 0),
                    HeaderUInt(header, MessageSenderKey, 0),
                    HeaderUInt(header, MessageTypeKey, MessageTypeNormal),
                    0,
                    content))
    else
      None
  }

  /**
   * The legacy signal is sent exactly when some part after the header is a
   * plain-text part and the first such part's content is non-empty.
   */
  lemma ReceivedNotificationExactly(message: MessagePartList, id: UInt32)
    requires |message| > 0
    ensures ReceivedNotification(message, id).Some? <==>
              exists i :: 1 <= i < |message| && IsPlainTextPart(message[i]) &&
                          (forall j :: 1 <= j < i ==> !IsPlainTextPart(message[j])) &&
                          ToText(message[i][ContentKey]) != ""
  {
    var body := message[1..];
    PlainTextOfIsFirstMatch(body);
    if ReceivedNotification(message, id).Some? {
      if forall i :: 0 <= i < |body| ==> !IsPlainTextPart(body[i]) {
        assert false;
      }
      var i :| 0 <= i < |body| && IsPlainTextPart(body[i]);
      var first := FirstPlainText(body, i);
      assert body[first] == message[first + 1];
      forall j | 1 <= j < first + 1
        ensures !IsPlainTextPart(message[j])
      {
        assert message[j] == body[j - 1];
      }
    } else {
      forall i | 1 <= i < |message| && IsPlainTextPart(message[i]) &&
                 (forall j :: 1 <= j < i ==> !IsPlainTextPart(message[j]))
        ensures ToText(message[i][ContentKey]) == ""
      {
        assert body[i - 1] == message[i];
        forall j | 0 <= j < i - 1
          ensures !IsPlainTextPart(body[j])
        {
          assert body[j] == message[j + 1];
        }
      }
    }
  }

  /** The index of the first plain-text part, given that one exists at or before `i`. */
  lemma FirstPlainText(parts: seq<MessagePart>, i: nat) returns (first: nat)
    requires i < |parts| && IsPlainTextPart(parts[i])
    ensures first <= i && IsPlainTextPart(parts[first])
    ensures forall j :: 0 <= j < first ==> !IsPlainTextPart(parts[j])
  {
    first := 0;
    while !IsPlainTextPart(parts[first])
      invariant first <= i
      invariant forall j :: 0 <= j < first ==> !IsPlainTextPart(parts[j])
      decreases i - first
    {
      first := first + 1;
    }
  }

  /** The notifications one stored message gives rise to, in the order they are queued. */
  function ReceiveEvents(message: MessagePartList, id: UInt32, messagesPlugged: bool): (r: seq<Event>)
    requires |message| > 0
    ensures |r| == (if ReceivedNotification(message, id).Some? then 1 else 0) + (if messagesPlugged then 1 else 0)
    ensures ReceivedNotification(message, id).Some? ==> r[0] == ReceivedNotification(message, id).value
    ensures messagesPlugged ==> r[|r| - 1] == MessageReceived(message)
    ensures MessageReceived(message) in r <==> messagesPlugged
  {
    var legacy := match ReceivedNotification(message, id)
      case Some(e) => [e]
      case None => [];
    legacy + (if messagesPlugged then [MessageReceived(message)] else [])
  }

  /** The message with a message-sent stamp `now` added to its header, unless it already has one. */
  function StampSent(msg: MessagePartList, now: UInt32): (r: MessagePartList)
    requires |msg| > 0
    ensures |r| == |msg| && r[1..] == msg[1..]
    ensures r[0].Keys == msg[0].Keys + {MessageSentKey}
    ensures r[0][MessageSentKey] == if MessageSentKey in msg[0] then msg[0][MessageSentKey] else UInt(now)
    ensures forall k :: k in msg[0] && k != MessageSentKey ==> r[0][k] == msg[0][k]
  {
    if MessageSentKey in msg[0] then msg
    else [msg[0][MessageSentKey := UInt(now)]] + msg[1..]
  }

  /** A sent message keeps its first stamp: stamping again changes nothing. */
  lemma StampSentIdempotent(msg: MessagePartList, first: UInt32, second: UInt32)
    requires |msg| > 0
    ensures StampSent(StampSent(msg, first), second) == StampSent(msg, first)
  {
  }

  /** The two notifications queued for a sent message: MessageSent, then the legacy Sent. */
  function SendEvents(message: MessagePartList, flags: UInt32, token: string, now: UInt32): (r: seq<Event>)
    requires |message| > 0
    ensures |r| == 2 && r[0].MessageSent? && r[1].Sent?
    ensures r[0] == MessageSent(StampSent(message, now), flags, token)
    ensures r[1].timestamp == ToUInt(StampSent(message, now)[0][MessageSentKey])
    ensures r[1].messageType == HeaderUInt(message[0], MessageTypeKey, MessageTypeNormal)
    ensures r[1].text == PlainTextOf(message[1..])
  {
    var fixed := StampSent(message, now);
    var header := fixed[0];
    [MessageSent(fixed, flags, token),
     Sent(HeaderUInt(message[0], MessageSentKey, now),
          HeaderUInt(header, MessageTypeKey, MessageTypeNormal),
          PlainTextOf(message[1..]))]
  }

  /** The `j`-th id of a batch is found when it is stored and not removed earlier in the same batch. */
  predicate Acknowledgeable(pending: map<UInt32, MessagePartList>, ids: seq<UInt32>, j: nat)
    requires j < |ids|
  {
    ids[j] in pending && ids[j] !in ids[..j]
  }

  /** The index in `ids` where a batch acknowledgement stops (|ids| when it gets through). */
  function FirstUnknown(pending: map<UInt32, MessagePartList>, ids: seq<UInt32>, from: nat): (k: nat)
    requires from <= |ids|
    ensures from <= k <= |ids|
    ensures forall j :: from <= j < k ==> Acknowledgeable(pending, ids, j)
    ensures k < |ids| ==> !Acknowledgeable(pending, ids, k)
    decreases |ids| - from
  {
    if from == |ids| || !Acknowledgeable(pending, ids, from) then from
    else FirstUnknown(pending, ids, from + 1)
  }

  /** The message stored under `id` has a header carrying a message-token. */
  predicate CarriesToken(pending: map<UInt32, MessagePartList>, id: UInt32)
  {
    id in pending && |pending[id]| > 0 && MessageTokenKey in pending[id][0]
  }

  /** The message-token in the header of the message stored under `id`. */
  function Token(pending: map<UInt32, MessagePartList>, id: UInt32): string
    requires CarriesToken(pending, id)
  {
    ToText(pending[id][0][MessageTokenKey])
  }

  /** The token handed to the acknowledgement callback for `id`, if its header carries one. */
  function TokenOf(pending: map<UInt32, MessagePartList>, id: UInt32): seq<string>
  {
    if CarriesToken(pending, id) then [Token(pending, id)] else []
  }

  /** The tokens handed to the acknowledgement callback while `ids` are removed, in order. */
  function AckTokens(pending: map<UInt32, MessagePartList>, ids: seq<UInt32>): (r: seq<string>)
    ensures |r| <= |ids|
  {
    if ids == [] then [] else AckTokens(pending, ids[..|ids| - 1]) + TokenOf(pending, ids[|ids| - 1])
  }

  /** The positions of `ids` whose messages carry a message-token. */
  function TokenCarriers(pending: map<UInt32, MessagePartList>, ids: seq<UInt32>): set<nat>
  {
    set j: nat | j < |ids| && CarriesToken(pending, ids[j])
  }

  /** The callback receives exactly one token per acknowledged id whose message carries one. */
  lemma {:induction false} AckTokensCount(pending: map<UInt32, MessagePartList>, ids: seq<UInt32>)
    ensures |AckTokens(pending, ids)| == |TokenCarriers(pending, ids)|
    decreases |ids|
  {
    if ids != [] {
      var n := |ids| - 1;
      var init := ids[..n];
      AckTokensCount(pending, init);
      if CarriesToken(pending, ids[n]) {
        assert TokenCarriers(pending, ids) == TokenCarriers(pending, init) + {n};
      } else {
        assert TokenCarriers(pending, ids) == TokenCarriers(pending, init);
      }
    }
  }

  /** A token reaches the callback iff it is the token of some acknowledged id. */
  lemma {:induction false} AckTokensMembers(pending: map<UInt32, MessagePartList>, ids: seq<UInt32>, t: string)
    ensures t in AckTokens(pending, ids) <==>
              exists j :: 0 <= j < |ids| && CarriesToken(pending, ids[j]) && t == Token(pending, ids[j])
    decreases |ids|
  {
    if ids != [] {
      var n := |ids| - 1;
      var init := ids[..n];
      AckTokensMembers(pending, init, t);
      if t in AckTokens(pending, ids) && t !in AckTokens(pending, init) {
        assert CarriesToken(pending, ids[n]) && t == Token(pending, ids[n]);
      }
      if exists j :: 0 <= j < |ids| && CarriesToken(pending, ids[j]) && t == Token(pending, ids[j]) {
        var j :| 0 <= j < |ids| && CarriesToken(pending, ids[j]) && t == Token(pending, ids[j]);
        if j < n {
          assert init[j] == ids[j];
        }
      }
    }
  }

  /** The tokens arrive in batch order: the k-th id's token follows the tokens of the ids before it. */
  lemma {:induction false} AckTokensOrder(pending: map<UInt32, MessagePartList>, ids: seq<UInt32>, k: nat)
    requires k < |ids| && CarriesToken(pending, ids[k])
    ensures |AckTokens(pending, ids[..k])| < |AckTokens(pending, ids)|
    ensures AckTokens(pending, ids)[|AckTokens(pending, ids[..k])|] == Token(pending, ids[k])
    decreases |ids|
  {
    var n := |ids| - 1;
    var init := ids[..n];
    if k < n {
      assert init[..k] == ids[..k];
      assert init[k] == ids[k];
      AckTokensOrder(pending, init, k);
    } else {
      assert ids[..k] == init;
    }
  }

  /**
   * Acknowledging [5, 99, 7] when 5 and 7 are stored and 99 is not stops at
   * 99: 5 is removed, 7 stays stored.
   */
  lemma AcknowledgeStopsAtUnknownId(pending: map<UInt32, MessagePartList>)
    requires 5 in pending && 7 in pending && 99 !in pending
    ensures FirstUnknown(pending, [5, 99, 7], 0) == 1
    ensures var rest := pending - Elements([5, 99, 7][..1]); 5 !in rest && 7 in rest && rest[7] == pending[7]
  {
    var ids: seq<UInt32> := [5, 99, 7];
    assert Acknowledgeable(pending, ids, 0);
    assert !Acknowledgeable(pending, ids, 1);
    assert Elements(ids[..1]) == {5};
  }

  predicate IsLeastOf(m: UInt32, keys: set<UInt32>)
  {
    m in keys && forall x :: x in keys ==> m <= x
  }

  /** The least element of a non-empty set. */
  function Least(keys: set<UInt32>): (m: UInt32)
    requires keys != {}
    ensures IsLeastOf(m, keys)
  {
    LeastExists(keys);
    var m :| IsLeastOf(m, keys); m
  }

  lemma LeastExists(keys: set<UInt32>)
    requires keys != {}
    ensures exists m :: IsLeastOf(m, keys)
  {
    var m := LeastWitness(keys);
  }

  lemma {:induction false} LeastWitness(keys: set<UInt32>) returns (m: UInt32)
    requires keys != {}
    ensures IsLeastOf(m, keys)
    decreases keys
  {
    var y :| y in keys;
    if keys == {y} {
      m := y;
    } else {
      var rest := LeastWitness(keys - {y});
      m := if y < rest then y else rest;
      forall x | x in keys
        ensures m <= x
      {
        if x != y {
          assert x in keys - {y};
        }
      }
    }
  }

  /** The elements of `keys` in ascending order (the order `QMap::values` yields). */
  function Ascending(keys: set<UInt32>): (r: seq<UInt32>)
    ensures |r| == |keys|
    ensures forall x :: x in r <==> x in keys
    ensures forall i, j :: 0 <= i < j < |r| ==> r[i] < r[j]
    decreases keys
  {
    if keys == {} then []
    else
      var m := Least(keys);
      [m] + Ascending(keys - {m})
  }

  /** Every stored message has a header carrying the id it is stored under. */
  predicate StoredUnderOwnId(pending: map<UInt32, MessagePartList>)
  {
    forall id :: id in pending ==>
      |pending[id]| > 0 && PendingMessageIdKey in pending[id][0] && pending[id][0][PendingMessageIdKey] == UInt(id)
  }

  /** Storing a message under `id`, stamped with that id, keeps every message under its own id. */
  lemma StoreKeepsOwnIds(pending: map<UInt32, MessagePartList>, id: UInt32, msg: MessagePartList)
    requires StoredUnderOwnId(pending) && |msg| > 0
    ensures StoredUnderOwnId(pending[id := StampPendingId(msg, id)])
  {
  }

  /** Removing messages keeps every remaining message under its own id. */
  lemma RemoveKeepsOwnIds(pending: map<UInt32, MessagePartList>, ids: set<UInt32>)
    requires StoredUnderOwnId(pending)
    ensures StoredUnderOwnId(pending - ids)
  {
  }

  /**
   * The stored messages in ascending id order: each listed message is the
   * one stored under the id its header carries, and every stored message is
   * listed.
   */
  function InIdOrder(pending: map<UInt32, MessagePartList>): (r: seq<MessagePartList>)
    requires StoredUnderOwnId(pending)
    ensures |r| == |pending.Keys|
    ensures forall i :: 0 <= i < |r| ==>
              |r[i]| > 0 && PendingMessageIdKey in r[i][0] && PendingIdOf(r[i]) in pending && pending[PendingIdOf(r[i])] == r[i]
    ensures forall i, j :: 0 <= i < j < |r| ==> PendingIdOf(r[i]) < PendingIdOf(r[j])
    ensures forall id :: id in pending ==> exists i :: 0 <= i < |r| && PendingIdOf(r[i]) == id
  {
    var keys := Ascending(pending.Keys);
    StoredAtKeys(pending, keys);
    StoredAt(pending, keys)
  }

  /** Listing the messages under ascending keys lists them by ascending id, each under its own id. */
  lemma StoredAtKeys(pending: map<UInt32, MessagePartList>, keys: seq<UInt32>)
    requires StoredUnderOwnId(pending)
    requires forall x :: x in keys <==> x in pending
    requires forall i, j :: 0 <= i < j < |keys| ==> keys[i] < keys[j]
    ensures var r := StoredAt(pending, keys);
      && (forall i :: 0 <= i < |r| ==>
            |r[i]| > 0 && PendingMessageIdKey in r[i][0] && PendingIdOf(r[i]) in pending && pending[PendingIdOf(r[i])] == r[i])
      && (forall i, j :: 0 <= i < j < |r| ==> PendingIdOf(r[i]) < PendingIdOf(r[j]))
      && (forall id :: id in pending ==> exists i :: 0 <= i < |r| && PendingIdOf(r[i]) == id)
  {
    var r := StoredAt(pending, keys);
    forall i | 0 <= i < |r|
      ensures |r[i]| > 0 && PendingMessageIdKey in r[i][0] && PendingIdOf(r[i]) == keys[i]
      ensures keys[i] in pending && pending[keys[i]] == r[i]
    {
      assert keys[i] in keys;
      assert r[i] == pending[keys[i]];
    }
    forall id | id in pending
      ensures exists i :: 0 <= i < |r| && PendingIdOf(r[i]) == id
    {
      var i :| 0 <= i < |keys| && keys[i] == id;
      assert PendingIdOf(r[i]) == id;
    }
  }

  /** The messages stored under `keys`, in that order. */
  function StoredAt(pending: map<UInt32, MessagePartList>, keys: seq<UInt32>): (r: seq<MessagePartList>)
    requires forall i :: 0 <= i < |keys| ==> keys[i] in pending
    ensures |r| == |keys|
    ensures forall i :: 0 <= i < |keys| ==> r[i] == pending[keys[i]]
  {
    if keys == [] then [] else [pending[keys[0]]] + StoredAt(pending, keys[1..])
  }
}
