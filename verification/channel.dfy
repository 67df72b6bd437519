/**
 * The channel object and the interfaces plugged into it. A channel has a
 * unique name drawn from a process-wide counter, a registry of interfaces
 * keyed by interface name that is frozen once the channel is on the bus, and
 * immutable properties that, united with those of its interfaces, form the
 * channel details. The Text channel type and the Messages interface live
 * here too, because they consult the channel's registry.
 */
module Channels {
  import opened Values
  import opened Names
  import opened Properties
  import opened Events
  import opened TextSpec
  import ServerAuthentication
  import Captcha
  import Sasl
  import Securable
  import ChatState
  import Group

  /** An interface object that can be plugged into a channel, one variant per interface class. */
  datatype Iface =
    | TextIface(text: TextType)
    | MessagesIface(messages: MessagesInterface)
    | ServerAuthenticationIface(serverAuthentication: ServerAuthentication.ServerAuthenticationType)
    | CaptchaIface(captcha: Captcha.CaptchaAuthenticationInterface)
    | SaslIface(sasl: Sasl.SaslAuthenticationInterface)
    | SecurableIface(securable: Securable.SecurableInterface)
    | ChatStateIface(chatState: ChatState.ChatStateInterface)
    | GroupIface(group: Group.GroupInterface)
  {
    /** The D-Bus interface name, fixed by the interface's class. */
    function Name(): (r: string)
      ensures r != ChannelIface
    {
      match this
      case TextIface(_) => TextTypeName
      case MessagesIface(_) => MessagesName
      case ServerAuthenticationIface(_) => ServerAuthenticationTypeName
      case CaptchaIface(_) => CaptchaAuthenticationName
      case SaslIface(_) => SaslAuthenticationName
      case SecurableIface(_) => SecurableName
      case ChatStateIface(_) => ChatStateName
      case GroupIface(_) => GroupName
    }

    /** The object behind the interface. */
    function Obj(): object
    {
      match this
      case TextIface(t) => t
      case MessagesIface(m) => m
      case ServerAuthenticationIface(s) => s
      case CaptchaIface(c) => c
      case SaslIface(s) => s
      case SecurableIface(s) => s
      case ChatStateIface(c) => c
      case GroupIface(g) => g
    }

    /** Whether the interface has been registered on a bus object. */
    predicate Registered()
      reads Obj()
    {
      match this
      case TextIface(t) => t.registered
      case MessagesIface(m) => m.registered
      case ServerAuthenticationIface(s) => s.registered
      case CaptchaIface(c) => c.registered
      case SaslIface(s) => s.registered
      case SecurableIface(s) => s.registered
      case ChatStateIface(c) => c.registered
      case GroupIface(g) => g.registered
    }

    /** The registration of the interface on the channel's bus object succeeded. */
    method MarkRegistered()
      modifies Obj()
      ensures Registered()
    {
      match this
      case TextIface(t) => t.registered := true;
      case MessagesIface(m) => m.registered := true;
      case ServerAuthenticationIface(s) => s.registered := true;
      case CaptchaIface(c) => c.registered := true;
      case SaslIface(s) => s.registered := true;
      case SecurableIface(s) => s.registered := true;
      case ChatStateIface(c) => c.registered := true;
      case GroupIface(g) => g.registered := true;
    }

    /** The interface's immutable properties. */
    function ImmutableProperties(): VariantMap
    {
      match this
      case TextIface(_) => map[]
      case MessagesIface(m) => m.ImmutableProperties()
      case ServerAuthenticationIface(s) => s.ImmutableProperties()
      case CaptchaIface(c) => c.ImmutableProperties()
      case SaslIface(s) => s.ImmutableProperties()
      case SecurableIface(s) => s.ImmutableProperties()
      case ChatStateIface(c) => c.ImmutableProperties()
      case GroupIface(g) => g.ImmutableProperties()
    }
  }

  /** Every immutable property of an interface is named by that interface. */
  lemma ImmutablePropertiesQualified(x: Iface)
    ensures AllQualifiedBy(x.ImmutableProperties(), x.Name())
  {
    match x
    case TextIface(_) =>
    case MessagesIface(m) => m.ImmutablePropertiesNamed();
    case ServerAuthenticationIface(s) => s.ImmutablePropertiesNamed();
    case CaptchaIface(c) => c.ImmutablePropertiesNamed();
    case SaslIface(s) => s.ImmutablePropertiesNamed();
    case SecurableIface(_) =>
    case ChatStateIface(_) =>
    case GroupIface(_) =>
  }

  /** An interface object is wrapped by one interface value only: the classes are pairwise different. */
  lemma ObjInjective(a: Iface, b: Iface)
    requires a.Obj() == b.Obj()
    ensures a == b
  {
  }

  /** Interfaces with different names are different objects. */
  lemma DistinctInterfaceObjects(a: Iface, b: Iface)
    requires a.Name() != b.Name()
    ensures a.Obj() != b.Obj()
  {
    if a.Obj() == b.Obj() {
      ObjInjective(a, b);
    }
  }

  /** The process-wide counter channel names are numbered from. */
  class ChannelCounter {
    var next: UInt32

    constructor ()
      ensures next == 0
    {
      next := 0;
    }
  }

  const ChannelTypeWord := "ChannelType"
  const TargetHandleWord := "TargetHandle"
  const InterfacesWord := "Interfaces"
  const TargetIDWord := "TargetID"
  const TargetHandleTypeWord := "TargetHandleType"
  const RequestedWord := "Requested"
  const InitiatorHandleWord := "InitiatorHandle"
  const InitiatorIDWord := "InitiatorID"

  /** The immutable properties of a channel, in the order they are inserted. */
  const ChannelPropertyWords := [ChannelTypeWord, TargetHandleWord, InterfacesWord, TargetIDWord,
                                 TargetHandleTypeWord, RequestedWord, InitiatorHandleWord, InitiatorIDWord]

  lemma ChannelPropertyWordsDistinct()
    ensures forall i :: 0 <= i < |ChannelPropertyWords| ==> '.' !in ChannelPropertyWords[i]
    ensures NoDup(ChannelPropertyWords)
  {
    var w := ChannelPropertyWords;
    assert '.' !in w[0] && '.' !in w[1] && '.' !in w[2] && '.' !in w[3];
    assert '.' !in w[4] && '.' !in w[5] && '.' !in w[6] && '.' !in w[7];
  }

  /** The immutable properties of each plugged interface, in plug order. */
  function InterfaceProperties(interfaces: map<string, Iface>, order: seq<string>): (r: seq<VariantMap>)
    requires forall i :: 0 <= i < |order| ==> order[i] in interfaces
    ensures |r| == |order|
    ensures forall i :: 0 <= i < |order| ==> r[i] == interfaces[order[i]].ImmutableProperties()
  {
    seq(|order|, i requires 0 <= i < |order| => interfaces[order[i]].ImmutableProperties())
  }

  /** The properties of each plugged interface are named by the name it is filed under. */
  lemma PartsQualified(interfaces: map<string, Iface>, order: seq<string>)
    requires forall i :: 0 <= i < |order| ==> order[i] in interfaces
    requires forall n :: n in interfaces ==> interfaces[n].Name() == n
    ensures forall i :: 0 <= i < |order| ==> AllQualifiedBy(InterfaceProperties(interfaces, order)[i], order[i])
  {
    forall i | 0 <= i < |order|
      ensures AllQualifiedBy(InterfaceProperties(interfaces, order)[i], order[i])
    {
      ImmutablePropertiesQualified(interfaces[order[i]]);
    }
  }

  /**
   * The channel's properties and those of interfaces filed under their own,
   * distinct names are named by pairwise different interfaces.
   */
  lemma DetailsSeparatelyQualified(base: VariantMap, interfaces: map<string, Iface>, order: seq<string>)
    requires AllQualifiedBy(base, ChannelIface)
    requires NoDup(order) && Elements(order) == interfaces.Keys
    requires forall n :: n in interfaces ==> interfaces[n].Name() == n
    ensures forall i :: 0 <= i < |order| ==> order[i] in interfaces
    ensures SeparatelyQualified(base, ChannelIface, InterfaceProperties(interfaces, order), order)
  {
    assert forall i :: 0 <= i < |order| ==> order[i] in Elements(order);
    PartsQualified(interfaces, order);
    assert ChannelIface !in interfaces;
  }

  /** A property kept from the i-th part of the union is kept from the interface filed under order[i]. */
  lemma PartsByName(base: VariantMap, interfaces: map<string, Iface>, order: seq<string>)
    requires forall i :: 0 <= i < |order| ==> order[i] in interfaces
    requires Elements(order) == interfaces.Keys
    requires var parts := InterfaceProperties(interfaces, order);
      forall i, k :: 0 <= i < |parts| && k in parts[i] ==> k in UniteAll(base, parts) && UniteAll(base, parts)[k] == parts[i][k]
    ensures var r := UniteAll(base, InterfaceProperties(interfaces, order));
      forall n, k :: n in interfaces && k in interfaces[n].ImmutableProperties() ==>
        k in r && r[k] == interfaces[n].ImmutableProperties()[k]
  {
    var parts := InterfaceProperties(interfaces, order);
    forall n, k | n in interfaces && k in interfaces[n].ImmutableProperties()
      ensures k in UniteAll(base, parts) && UniteAll(base, parts)[k] == interfaces[n].ImmutableProperties()[k]
    {
      assert n in Elements(order);
      var i :| 0 <= i < |order| && order[i] == n;
      assert parts[i] == interfaces[n].ImmutableProperties();
    }
  }

  /** A property in the union that is not the channel's comes from some plugged interface. */
  lemma UnionFromInterfaces(base: VariantMap, interfaces: map<string, Iface>, order: seq<string>)
    requires forall i :: 0 <= i < |order| ==> order[i] in interfaces
    ensures var r := UniteAll(base, InterfaceProperties(interfaces, order));
      forall k :: k in r ==> k in base || exists n :: n in interfaces && k in interfaces[n].ImmutableProperties()
  {
    UniteAllHoldsNothingElse(base, InterfaceProperties(interfaces, order));
  }

  /**
   * Uniting a channel's properties with the properties of its plugged
   * interfaces keeps every property with its value and adds nothing else.
   */
  lemma ChannelDetailsUnion(c: Channel)
    requires c.Valid()
    ensures forall i :: 0 <= i < |c.plugOrder| ==> c.plugOrder[i] in c.interfaces
    ensures forall k :: k in c.ImmutableProperties() ==>
              k in UniteAll(c.ImmutableProperties(), InterfaceProperties(c.interfaces, c.plugOrder)) &&
              UniteAll(c.ImmutableProperties(), InterfaceProperties(c.interfaces, c.plugOrder))[k] == c.ImmutableProperties()[k]
    ensures forall n, k :: n in c.interfaces && k in c.interfaces[n].ImmutableProperties() ==>
              k in UniteAll(c.ImmutableProperties(), InterfaceProperties(c.interfaces, c.plugOrder)) &&
              UniteAll(c.ImmutableProperties(), InterfaceProperties(c.interfaces, c.plugOrder))[k] == c.interfaces[n].ImmutableProperties()[k]
    ensures forall k :: k in UniteAll(c.ImmutableProperties(), InterfaceProperties(c.interfaces, c.plugOrder)) ==>
              k in c.ImmutableProperties() || exists n :: n in c.interfaces && k in c.interfaces[n].ImmutableProperties()
  {
    var base := c.ImmutableProperties();
    c.ImmutablePropertiesQualified();
    DetailsSeparatelyQualified(base, c.interfaces, c.plugOrder);
    var parts := InterfaceProperties(c.interfaces, c.plugOrder);
    UniteAllKeepsBase(base, ChannelIface, parts, c.plugOrder);
    UniteAllKeepsParts(base, ChannelIface, parts, c.plugOrder);
    PartsByName(base, c.interfaces, c.plugOrder);
    UnionFromInterfaces(base, c.interfaces, c.plugOrder);
  }

  class Channel {
    /** The processing context the channel's notifications are handed to. */
    const queue: EventQueue
    const channelType: string
    const targetHandle: UInt32
    const targetHandleType: UInt32
    const uniqueName: string

    var targetID: string
    var requested: bool
    var initiatorHandle: UInt32
    var initiatorID: string
    /** Whether the channel object is on the bus. */
    var registered: bool
    /** The plugged interfaces by name, and the names in the order they were plugged. */
    var interfaces: map<string, Iface>
    var plugOrder: seq<string>

    /** Each interface is filed under its own name, and each name is listed once in plug order. */
    predicate Valid()
      reads this
    {
      && NoDup(plugOrder)
      && Elements(plugOrder) == interfaces.Keys
      && (forall n :: n in interfaces ==> interfaces[n].Name() == n)
    }

    /**
     * A new channel takes the counter's value for its unique name and
     * advances the counter (wrapping at 2^32); it starts unregistered with no
     * interfaces and empty target and initiator IDs. Whether it was requested
     * and its initiator handle are left unset: they hold whatever they happen
     * to hold until SetRequested and SetInitiatorHandle are called.
     */
    constructor (counter: ChannelCounter, queue: EventQueue, channelType: string, targetHandle: UInt32, targetHandleType: UInt32)
      modifies counter
      ensures Valid()
      ensures uniqueName == UniqueName(channelType, old(counter.next))
      ensures counter.next == Increment32(old(counter.next))
      ensures this.queue == queue && this.channelType == channelType
      ensures this.targetHandle == targetHandle && this.targetHandleType == targetHandleType
      ensures targetID == "" && initiatorID == ""
      ensures !registered && interfaces == map[] && plugOrder == []
    {
      var id := counter.next;
      var baseName := "";
      if IsPrefix(TypePrefix, channelType) {
        baseName := channelType[|TypePrefix|..];
      }
      this.queue := queue;
      this.channelType := channelType;
      this.targetHandle := targetHandle;
      this.targetHandleType := targetHandleType;
      uniqueName := baseName + "Channel" + Decimal(id);
      targetID := "";
      initiatorID := "";
      registered := false;
      interfaces := map[];
      plugOrder := [];
      new;
      counter.next := Increment32(id);
    }

    /** The interface plugged under `name`, if any; it carries that name. */
    function Interface(name: string): (r: Option<Iface>)
      requires Valid()
      reads this
      ensures r.Some? <==> name in plugOrder
      ensures r.Some? ==> r.value.Name() == name
    {
      if name in interfaces then Some(interfaces[name]) else None
    }

    /** Whether a Messages interface is plugged in. */
    predicate MessagesPlugged()
      reads this
    {
      MessagesName in interfaces && interfaces[MessagesName].MessagesIface?
    }

    /**
     * Plugs an interface in. Refused once the channel is registered, when the
     * interface is itself registered, or when one of that name is already
     * plugged; otherwise the interface is filed under its name.
     */
    method PlugInterface(iface: Iface) returns (ok: bool)
      requires Valid()
      modifies this
      ensures Valid()
      ensures ok <==> !old(registered) && !iface.Registered() && iface.Name() !in old(interfaces)
      ensures ok ==> interfaces == old(interfaces)[iface.Name() := iface] && plugOrder == old(plugOrder) + [iface.Name()]
      ensures ok ==> Interface(iface.Name()) == Some(iface)
      ensures !ok ==> interfaces == old(interfaces) && plugOrder == old(plugOrder)
      ensures registered == old(registered) && targetID == old(targetID) && requested == old(requested)
      ensures initiatorHandle == old(initiatorHandle) && initiatorID == old(initiatorID)
    {
      if registered {
        return false;
      }
      if iface.Registered() {
        return false;
      }
      var name := iface.Name();
      if name in interfaces {
        return false;
      }
      interfaces := interfaces[name := iface];
      plugOrder := plugOrder + [name];
      return true;
    }

    /** The Interfaces property: the plugged interface names, leaving out channel types. */
    method InterfaceNames() returns (names: seq<string>)
      requires Valid()
      ensures names == WithoutTypeInterfaces(plugOrder)
    {
      names := [];
      for i := 0 to |plugOrder|
        invariant names == WithoutTypeInterfaces(plugOrder[..i])
      {
        assert plugOrder[i] in Elements(plugOrder);
        var name := interfaces[plugOrder[i]].Name();
        assert plugOrder[..i + 1][..i] == plugOrder[..i];
        if !Contains(name, TypeInfix) {
          names := names + [name];
        }
      }
      assert plugOrder[..|plugOrder|] == plugOrder;
    }

    /** The values of the channel's immutable properties, in the order of ChannelPropertyWords. */
    function PropertyValues(): (r: seq<Value>)
      reads this
      ensures |r| == |ChannelPropertyWords|
    {
      [Str(channelType), UInt(targetHandle), StrList(WithoutTypeInterfaces(plugOrder)), Str(targetID),
       UInt(targetHandleType), Bool(requested), UInt(initiatorHandle), Str(initiatorID)]
    }

    /** The channel's eight immutable properties. */
    function ImmutableProperties(): VariantMap
      reads this
    {
      PropertyMap(ChannelIface, ChannelPropertyWords, PropertyValues())
    }

    /** Every immutable property of the channel is named by the Channel interface. */
    lemma ImmutablePropertiesQualified()
      ensures AllQualifiedBy(ImmutableProperties(), ChannelIface)
    {
      ChannelPropertyWordsDistinct();
      PropertyMapQualified(ChannelIface, ChannelPropertyWords, PropertyValues());
    }

    /** The immutable properties are exactly the eight words qualified by the Channel interface name. */
    lemma ImmutablePropertiesNamed()
      ensures forall i :: 0 <= i < |ChannelPropertyWords| ==> PropertyKey(ChannelIface, ChannelPropertyWords[i]) in ImmutableProperties()
      ensures forall k :: k in ImmutableProperties() ==>
                exists i :: 0 <= i < |ChannelPropertyWords| && k == PropertyKey(ChannelIface, ChannelPropertyWords[i])
    {
      PropertyMapKeys(ChannelIface, ChannelPropertyWords, PropertyValues());
    }

    /** Each immutable property of the channel holds the current value of its field. */
    lemma ImmutablePropertyValues()
      ensures var r := ImmutableProperties();
        && PropertyKey(ChannelIface, ChannelTypeWord) in r && r[PropertyKey(ChannelIface, ChannelTypeWord)] == Str(channelType)
        && PropertyKey(ChannelIface, TargetHandleWord) in r && r[PropertyKey(ChannelIface, TargetHandleWord)] == UInt(targetHandle)
        && PropertyKey(ChannelIface, InterfacesWord) in r
        && r[PropertyKey(ChannelIface, InterfacesWord)] == StrList(WithoutTypeInterfaces(plugOrder))
        && PropertyKey(ChannelIface, TargetIDWord) in r && r[PropertyKey(ChannelIface, TargetIDWord)] == Str(targetID)
        && PropertyKey(ChannelIface, TargetHandleTypeWord) in r
        && r[PropertyKey(ChannelIface, TargetHandleTypeWord)] == UInt(targetHandleType)
        && PropertyKey(ChannelIface, RequestedWord) in r && r[PropertyKey(ChannelIface, RequestedWord)] == Bool(requested)
        && PropertyKey(ChannelIface, InitiatorHandleWord) in r
        && r[PropertyKey(ChannelIface, InitiatorHandleWord)] == UInt(initiatorHandle)
        && PropertyKey(ChannelIface, InitiatorIDWord) in r && r[PropertyKey(ChannelIface, InitiatorIDWord)] == Str(initiatorID)
    {
      var words, values := ChannelPropertyWords, PropertyValues();
      ChannelPropertyWordsDistinct();
      PropertyMapValues(ChannelIface, words, values);
      assert words[0] == ChannelTypeWord && words[1] == TargetHandleWord && words[2] == InterfacesWord;
      assert words[3] == TargetIDWord && words[4] == TargetHandleTypeWord && words[5] == RequestedWord;
      assert words[6] == InitiatorHandleWord && words[7] == InitiatorIDWord;
    }

    /**
     * The properties of the channel details: the channel's own immutable
     * properties united with those of every plugged interface. No two of
     * these maps share a key, so every property keeps its value and nothing
     * else is added.
     */
    function DetailsProperties(): (r: VariantMap)
      requires Valid()
      reads this
      ensures forall k :: k in ImmutableProperties() ==> k in r && r[k] == ImmutableProperties()[k]
      ensures forall n, k :: n in interfaces && k in interfaces[n].ImmutableProperties() ==>
                k in r && r[k] == interfaces[n].ImmutableProperties()[k]
      ensures forall k :: k in r ==>
                k in ImmutableProperties() || exists n :: n in interfaces && k in interfaces[n].ImmutableProperties()
    {
      ChannelDetailsUnion(this);
      UniteAll(ImmutableProperties(), InterfaceProperties(interfaces, plugOrder))
    }

    /** The channel details: the channel's properties united with those of each plugged interface. */
    method Details() returns (properties: VariantMap)
      requires Valid()
      ensures properties == DetailsProperties()
    {
      properties := ImmutableProperties();
      assert forall i :: 0 <= i < |plugOrder| ==> plugOrder[i] in Elements(plugOrder);
      for i := 0 to |plugOrder|
        invariant properties == UniteAll(ImmutableProperties(), InterfaceProperties(interfaces, plugOrder[..i]))
      {
        var parts := InterfaceProperties(interfaces, plugOrder[..i + 1]);
        assert parts[..i] == InterfaceProperties(interfaces, plugOrder[..i]);
        properties := properties + interfaces[plugOrder[i]].ImmutableProperties();
      }
      assert plugOrder[..|plugOrder|] == plugOrder;
    }

    /** The objects behind the plugged interfaces. */
    function InterfaceObjects(): set<object>
      reads this
    {
      set n | n in interfaces :: interfaces[n].Obj()
    }

    /** Every name in plug order is plugged, and different positions hold different objects. */
    ghost predicate ObjectsDistinct()
      reads this
    {
      && (forall j :: 0 <= j < |plugOrder| ==> plugOrder[j] in interfaces)
      && (forall j, k :: 0 <= j < |plugOrder| && 0 <= k < |plugOrder| && j != k ==>
            interfaces[plugOrder[j]].Obj() != interfaces[plugOrder[k]].Obj())
    }

    /** The channel object is not one of its interfaces' objects. */
    lemma NotAnInterfaceObject()
      ensures this !in InterfaceObjects()
    {
      forall n | n in interfaces
        ensures interfaces[n].Obj() != this
      {
        match interfaces[n]
        case TextIface(_) =>
        case MessagesIface(_) =>
        case ServerAuthenticationIface(_) =>
        case CaptchaIface(_) =>
        case SaslIface(_) =>
        case SecurableIface(_) =>
        case ChatStateIface(_) =>
        case GroupIface(_) =>
      }
    }

    lemma ValidObjectsDistinct()
      requires Valid()
      ensures ObjectsDistinct()
    {
      assert forall j :: 0 <= j < |plugOrder| ==> plugOrder[j] in Elements(plugOrder);
      forall j, k | 0 <= j < |plugOrder| && 0 <= k < |plugOrder| && j != k
        ensures interfaces[plugOrder[j]].Obj() != interfaces[plugOrder[k]].Obj()
      {
        DistinctInterfaceObjects(interfaces[plugOrder[j]], interfaces[plugOrder[k]]);
      }
    }

    /**
     * Registers each plugged interface on the channel's bus object, in plug
     * order. `interfaceRegistration` answers whether the interface with that
     * name registers; one that does not is left as it was.
     */
    method RegisterInterfaces(interfaceRegistration: string -> bool)
      requires ObjectsDistinct()
      modifies InterfaceObjects()
      ensures forall j :: 0 <= j < |plugOrder| && interfaceRegistration(plugOrder[j]) ==>
                interfaces[plugOrder[j]].Registered()
      ensures forall j :: 0 <= j < |plugOrder| && !interfaceRegistration(plugOrder[j]) ==>
                interfaces[plugOrder[j]].Registered() == old(interfaces[plugOrder[j]].Registered())
    {
      var i := 0;
      while i < |plugOrder|
        invariant 0 <= i <= |plugOrder|
        invariant forall j :: 0 <= j < i && interfaceRegistration(plugOrder[j]) ==> interfaces[plugOrder[j]].Registered()
        invariant forall j :: 0 <= j < |plugOrder| && !(j < i && interfaceRegistration(plugOrder[j])) ==>
                    interfaces[plugOrder[j]].Registered() == old(interfaces[plugOrder[j]].Registered())
      {
        if interfaceRegistration(plugOrder[i]) {
          interfaces[plugOrder[i]].MarkRegistered();
        }
        i := i + 1;
      }
    }

    /**
     * Registers the channel on the bus at its connection's bus name, under
     * the connection's object path followed by the channel's unique name.
     * Each plugged interface is first registered on the channel's object; an
     * interface that fails is left unregistered without failing the channel.
     * The result is the bus's answer. A channel already registered succeeds
     * at once.
     */
    method RegisterObject(connectionBusName: string, connectionPath: string,
                          interfaceRegistration: string -> bool,
                          busRegistration: (string, string) -> Option<DBusError>)
      returns (ok: bool, error: Option<DBusError>)
      requires Valid()
      modifies this, InterfaceObjects()
      ensures Valid()
      ensures interfaces == old(interfaces) && plugOrder == old(plugOrder)
      ensures targetID == old(targetID) && requested == old(requested)
      ensures initiatorHandle == old(initiatorHandle) && initiatorID == old(initiatorID)
      ensures old(registered) ==> ok && error == None && registered
      ensures old(registered) ==> forall j :: 0 <= j < |plugOrder| ==>
                interfaces[plugOrder[j]].Registered() == old(interfaces[plugOrder[j]].Registered())
      ensures !old(registered) ==>
                && error == busRegistration(connectionBusName, ObjectPath(connectionPath, uniqueName))
                && ok == error.None? && registered == ok
      ensures !old(registered) ==> forall j :: 0 <= j < |plugOrder| && interfaceRegistration(plugOrder[j]) ==>
                interfaces[plugOrder[j]].Registered()
      ensures !old(registered) ==> forall j :: 0 <= j < |plugOrder| && !interfaceRegistration(plugOrder[j]) ==>
                interfaces[plugOrder[j]].Registered() == old(interfaces[plugOrder[j]].Registered())
    {
      if registered {
        return true, None;
      }
      ValidObjectsDistinct();
      NotAnInterfaceObject();
      RegisterInterfaces(interfaceRegistration);
      error := busRegistration(connectionBusName, ObjectPath(connectionPath, uniqueName));
      ok := error.None?;
      registered := ok;
    }

    method SetTargetID(value: string)
      requires Valid()
      modifies this
      ensures Valid()
      ensures targetID == value
      ensures PropertyKey(ChannelIface, TargetIDWord) in ImmutableProperties()
      ensures ImmutableProperties()[PropertyKey(ChannelIface, TargetIDWord)] == Str(value)
      ensures requested == old(requested) && initiatorHandle == old(initiatorHandle) && initiatorID == old(initiatorID)
      ensures registered == old(registered) && interfaces == old(interfaces) && plugOrder == old(plugOrder)
    {
      targetID := value;
      ImmutablePropertyValues();
    }

    method SetRequested(value: bool)
      requires Valid()
      modifies this
      ensures Valid()
      ensures requested == value
      ensures PropertyKey(ChannelIface, RequestedWord) in ImmutableProperties()
      ensures ImmutableProperties()[PropertyKey(ChannelIface, RequestedWord)] == Bool(value)
      ensures targetID == old(targetID) && initiatorHandle == old(initiatorHandle) && initiatorID == old(initiatorID)
      ensures registered == old(registered) && interfaces == old(interfaces) && plugOrder == old(plugOrder)
    {
      requested := value;
      ImmutablePropertyValues();
    }

    method SetInitiatorHandle(value: UInt32)
      requires Valid()
      modifies this
      ensures Valid()
      ensures initiatorHandle == value
      ensures PropertyKey(ChannelIface, InitiatorHandleWord) in ImmutableProperties()
      ensures ImmutableProperties()[PropertyKey(ChannelIface, InitiatorHandleWord)] == UInt(value)
      ensures targetID == old(targetID) && requested == old(requested) && initiatorID == old(initiatorID)
      ensures registered == old(registered) && interfaces == old(interfaces) && plugOrder == old(plugOrder)
    {
      initiatorHandle := value;
      ImmutablePropertyValues();
    }

    method SetInitiatorID(value: string)
      requires Valid()
      modifies this
      ensures Valid()
      ensures initiatorID == value
      ensures PropertyKey(ChannelIface, InitiatorIDWord) in ImmutableProperties()
      ensures ImmutableProperties()[PropertyKey(ChannelIface, InitiatorIDWord)] == Str(value)
      ensures targetID == old(targetID) && requested == old(requested) && initiatorHandle == old(initiatorHandle)
      ensures registered == old(registered) && interfaces == old(interfaces) && plugOrder == old(plugOrder)
    {
      initiatorID := value;
      ImmutablePropertyValues();
    }

    /** Announces the channel's closure on the bus, then to listeners in the same process, both at once. */
    method Close()
      modifies queue
      ensures queue.events == old(queue.events) + [ChannelClosed, LocalClosed]
    {
      queue.Post(ChannelClosed);
      queue.Post(LocalClosed);
    }
  }

  /**
   * Channel.Type.Text: the received messages waiting for acknowledgement,
   * keyed by the pending-message-id each one was given on arrival.
   */
  class TextType {
    const channel: Channel
    var registered: bool
    var pending: map<UInt32, MessagePartList>
    /** The id the next received message gets. */
    var nextId: UInt32
    /** Whether a valid message-acknowledged callback is installed. */
    var ackCallbackSet: bool
    /** The tokens handed to the message-acknowledged callback so far, in order. */
    ghost var acknowledgedTokens: seq<string>
    /** Whether the id counter has wrapped around since construction. */
    ghost var wrapped: bool

    /**
     * Every stored message has a header carrying its own id, and until the
     * counter wraps every stored id is below the next one.
     */
    ghost predicate Valid()
      reads this
    {
      && StoredUnderOwnId(pending)
      && (!wrapped ==> forall id :: id in pending ==> id < nextId)
    }

    constructor (channel: Channel)
      ensures Valid()
      ensures this.channel == channel && !registered
      ensures pending == map[] && nextId == 0 && !ackCallbackSet && acknowledgedTokens == []
    {
      this.channel := channel;
      registered := false;
      pending := map[];
      nextId := 0;
      ackCallbackSet := false;
      acknowledgedTokens := [];
      wrapped := false;
    }

    /** The type has no immutable properties of its own. */
    function ImmutableProperties(): VariantMap
    {
      map[]
    }

    /**
     * Stores a received message under the next id, stamping that id into its
     * header, and queues the legacy Received signal (when the message has a
     * plain-text body) and, when a Messages interface is plugged in,
     * MessageReceived. An empty message is dropped.
     */
    method AddReceivedMessage(msg: MessagePartList)
      requires Valid()
      modifies this, channel.queue
      ensures Valid()
      ensures msg == [] ==> pending == old(pending) && nextId == old(nextId) && channel.queue.events == old(channel.queue.events)
      ensures msg != [] ==>
                && nextId == Increment32(old(nextId))
                && pending == old(pending)[old(nextId) := StampPendingId(msg, old(nextId))]
                && channel.queue.events == old(channel.queue.events) +
                     ReceiveEvents(StampPendingId(msg, old(nextId)), old(nextId), channel.MessagesPlugged())
      ensures msg != [] && !old(wrapped) ==> old(nextId) !in old(pending)
      ensures registered == old(registered) && ackCallbackSet == old(ackCallbackSet)
      ensures acknowledgedTokens == old(acknowledgedTokens)
    {
      if msg == [] {
        return;
      }
      var id := nextId;
      var message := StampPendingId(msg, id);
      StoreKeepsOwnIds(pending, id, msg);
      nextId := Increment32(nextId);
      wrapped := wrapped || id == 0xFFFF_FFFF;
      pending := pending[id := message];

      NotifyReceived(message, id);
    }

    /**
     * The notifications for a message just stored under `id`: Received when
     * its body has plain text, then MessageReceived when a Messages interface
     * is plugged in.
     */
    method NotifyReceived(message: MessagePartList, id: UInt32)
      requires |message| > 0
      modifies channel.queue
      ensures channel.queue.events == old(channel.queue.events) + ReceiveEvents(message, id, channel.MessagesPlugged())
    {
      var header := message[0];
      var timestamp := HeaderUInt(header, MessageReceivedKey, 0);
      var sender := HeaderUInt(header, MessageSenderKey, 0);
      var messageType := HeaderUInt(header, MessageTypeKey, MessageTypeNormal);
      var flags := 0;
      var content := ExtractPlainText(message[1..]);
      if |content| > 0 {
        channel.queue.Post(Received(id, timestamp, sender, messageType, flags, content));
      }
      if channel.MessagesPlugged() {
        channel.queue.Post(MessageReceived(message));
      }
    }

    /** The stored messages in ascending id order (see InIdOrder). */
    function PendingMessages(): seq<MessagePartList>
      requires Valid()
      reads this
    {
      InIdOrder(pending)
    }

    /** Installs (or, with `valid` false, clears) the message-acknowledged callback. */
    method SetMessageAcknowledgedCallback(valid: bool)
      modifies this
      ensures ackCallbackSet == valid
      ensures pending == old(pending) && nextId == old(nextId) && registered == old(registered)
      ensures acknowledgedTokens == old(acknowledgedTokens) && wrapped == old(wrapped)
    {
      ackCallbackSet := valid;
    }

    /**
     * The loop of acknowledgePendingMessages: removes the messages with the
     * given ids from `pending`, in order, collecting the token of each one
     * whose header carries one, and stops at the first id that is not stored
     * (or was already removed in this batch). Returns what is left, the
     * tokens and the position it stopped at.
     */
    method RemoveAcknowledged(ids: seq<UInt32>) returns (rest: map<UInt32, MessagePartList>, tokens: seq<string>, k: nat)
      requires Valid()
      ensures k == FirstUnknown(pending, ids, 0)
      ensures rest == pending - Elements(ids[..k])
      ensures tokens == AckTokens(pending, ids[..k])
    {
      rest, tokens := pending, [];
      var i := 0;
      while i < |ids|
        invariant 0 <= i <= |ids|
        invariant forall j :: 0 <= j < i ==> Acknowledgeable(pending, ids, j)
        invariant rest == pending - Elements(ids[..i])
        invariant tokens == AckTokens(pending, ids[..i])
      {
        var id := ids[i];
        assert ids[..i + 1] == ids[..i] + [id];
        if id !in rest {
          assert !Acknowledgeable(pending, ids, i);
          FirstUnknownAt(pending, ids, i);
          return rest, tokens, i;
        }
        assert rest[id] == pending[id];
        var header := rest[id][0];
        if MessageTokenKey in header {
          tokens := tokens + [ToText(header[MessageTokenKey])];
        }
        rest := rest - {id};
        i := i + 1;
      }
      FirstUnknownAt(pending, ids, i);
      k := i;
    }

    /**
     * Removes the messages with the given ids, in order, handing each one's
     * token to the callback. At the first id that is not stored (or was
     * already removed in this batch) it stops with InvalidArgument, keeping
     * the removals made so far and announcing nothing; otherwise the whole
     * batch is announced as PendingMessagesRemoved when a Messages interface
     * is plugged in.
     */
    method AcknowledgePendingMessages(ids: seq<UInt32>) returns (error: Option<DBusError>)
      requires Valid()
      modifies this, channel.queue
      ensures Valid()
      ensures pending == old(pending) - Elements(ids[..FirstUnknown(old(pending), ids, 0)])
      ensures error.Some? <==> FirstUnknown(old(pending), ids, 0) < |ids|
      ensures acknowledgedTokens == old(acknowledgedTokens) +
                (if ackCallbackSet then AckTokens(old(pending), ids[..FirstUnknown(old(pending), ids, 0)]) else [])
      ensures error.Some? ==> error.value == DBusError(InvalidArgumentName, "id not found")
      ensures error.Some? ==> channel.queue.events == old(channel.queue.events)
      ensures error.None? ==>
                channel.queue.events == old(channel.queue.events) +
                  (if channel.MessagesPlugged() then [PendingMessagesRemoved(ids)] else [])
      ensures nextId == old(nextId) && registered == old(registered) && ackCallbackSet == old(ackCallbackSet)
    {
      var rest, tokens, k := RemoveAcknowledged(ids);
      RemoveKeepsOwnIds(pending, Elements(ids[..k]));
      pending := rest;
      if ackCallbackSet {
        acknowledgedTokens := acknowledgedTokens + tokens;
      }
      if k < |ids| {
        error := Some(DBusError(InvalidArgumentName, "id not found"));
      } else {
        error := None;
        NotifyRemoved(ids);
      }
    }

    /** PendingMessagesRemoved for a completed batch, when a Messages interface is plugged in. */
    method NotifyRemoved(ids: seq<UInt32>)
      modifies channel.queue
      ensures channel.queue.events == old(channel.queue.events) + (if channel.MessagesPlugged() then [PendingMessagesRemoved(ids)] else [])
    {
      if channel.MessagesPlugged() {
        channel.queue.Post(PendingMessagesRemoved(ids));
      }
    }

    /** Announces a sent message through the legacy Sent signal. */
    method Sent(timestamp: UInt32, messageType: UInt32, text: string)
      modifies channel.queue
      ensures channel.queue.events == old(channel.queue.events) + [Events.Sent(timestamp, messageType, text)]
    {
      channel.queue.Post(Events.Sent(timestamp, messageType, text));
    }
  }

  /** The batch stops at `k` when every id before it is acknowledgeable and the one at `k`, if any, is not. */
  lemma FirstUnknownAt(pending: map<UInt32, MessagePartList>, ids: seq<UInt32>, k: nat)
    requires k <= |ids|
    requires forall j :: 0 <= j < k ==> Acknowledgeable(pending, ids, j)
    requires k < |ids| ==> !Acknowledgeable(pending, ids, k)
    ensures FirstUnknown(pending, ids, 0) == k
  {
  }

  /** The immutable properties of the Messages interface, in the order they are inserted. */
  const MessagesPropertyWords := ["SupportedContentTypes", "MessageTypes", "MessagePartSupportFlags", "DeliveryReportingSupport"]

  lemma MessagesPropertyWordsDotFree()
    ensures forall i :: 0 <= i < |MessagesPropertyWords| ==> '.' !in MessagesPropertyWords[i]
    ensures NoDup(MessagesPropertyWords)
  {
    var w := MessagesPropertyWords;
    assert '.' !in w[0] && '.' !in w[1] && '.' !in w[2] && '.' !in w[3];
  }

  /**
   * Channel.Interface.Messages: the rich-message view of a Text channel. It
   * reads the pending messages of its Text type, hands outgoing messages to
   * a send callback, and shares the Text type's processing context.
   */
  class MessagesInterface {
    const textType: TextType
    var registered: bool
    const supportedContentTypes: seq<string>
    const messageTypes: seq<UInt32>
    const messagePartSupportFlags: UInt32
    const deliveryReportingSupport: UInt32
    var sendMessageCallback: Option<(MessagePartList, UInt32) -> SendOutcome>

    constructor (textType: TextType, supportedContentTypes: seq<string>, messageTypes: seq<UInt32>,
                 messagePartSupportFlags: UInt32, deliveryReportingSupport: UInt32)
      ensures this.textType == textType && !registered && sendMessageCallback == None
      ensures this.supportedContentTypes == supportedContentTypes && this.messageTypes == messageTypes
      ensures this.messagePartSupportFlags == messagePartSupportFlags
      ensures this.deliveryReportingSupport == deliveryReportingSupport
    {
      this.textType := textType;
      registered := false;
      this.supportedContentTypes := supportedContentTypes;
      this.messageTypes := messageTypes;
      this.messagePartSupportFlags := messagePartSupportFlags;
      this.deliveryReportingSupport := deliveryReportingSupport;
      sendMessageCallback := None;
    }

    /** The values of the immutable properties, in the order of MessagesPropertyWords. */
    function PropertyValues(): (r: seq<Value>)
      ensures |r| == |MessagesPropertyWords|
    {
      [StrList(supportedContentTypes), UIntList(messageTypes), UInt(messagePartSupportFlags), UInt(deliveryReportingSupport)]
    }

    /** The four immutable properties, each named by the interface and one of MessagesPropertyWords. */
    function ImmutableProperties(): VariantMap
    {
      PropertyMap(MessagesName, MessagesPropertyWords, PropertyValues())
    }

    /**
     * The immutable properties are exactly the four words qualified by the
     * interface name, each holding the value of its field.
     */
    lemma ImmutablePropertiesNamed()
      ensures AllQualifiedBy(ImmutableProperties(), MessagesName)
      ensures forall k :: k in ImmutableProperties() ==>
                exists i :: 0 <= i < |MessagesPropertyWords| && k == PropertyKey(MessagesName, MessagesPropertyWords[i])
      ensures forall i :: 0 <= i < |MessagesPropertyWords| ==>
                PropertyKey(MessagesName, MessagesPropertyWords[i]) in ImmutableProperties() &&
                ImmutableProperties()[PropertyKey(MessagesName, MessagesPropertyWords[i])] == PropertyValues()[i]
    {
      MessagesPropertyWordsDotFree();
      PropertyMapKeys(MessagesName, MessagesPropertyWords, PropertyValues());
      PropertyMapQualified(MessagesName, MessagesPropertyWords, PropertyValues());
      PropertyMapValues(MessagesName, MessagesPropertyWords, PropertyValues());
    }

    /** The PendingMessages property: the Text type's stored messages. */
    function PendingMessages(): seq<MessagePartList>
      requires textType.Valid()
      reads textType
    {
      textType.PendingMessages()
    }

    method MessageSent(content: MessagePartList, flags: UInt32, messageToken: string)
      modifies textType.channel.queue
      ensures textType.channel.queue.events == old(textType.channel.queue.events) + [Events.MessageSent(content, flags, messageToken)]
    {
      textType.channel.queue.Post(Events.MessageSent(content, flags, messageToken));
    }

    method PendingMessagesRemoved(messageIds: seq<UInt32>)
      modifies textType.channel.queue
      ensures textType.channel.queue.events == old(textType.channel.queue.events) + [Events.PendingMessagesRemoved(messageIds)]
    {
      textType.channel.queue.Post(Events.PendingMessagesRemoved(messageIds));
    }

    method MessageReceived(message: MessagePartList)
      modifies textType.channel.queue
      ensures textType.channel.queue.events == old(textType.channel.queue.events) + [Events.MessageReceived(message)]
    {
      textType.channel.queue.Post(Events.MessageReceived(message));
    }

    method SetSendMessageCallback(callback: (MessagePartList, UInt32) -> SendOutcome)
      modifies this
      ensures sendMessageCallback == Some(callback)
      ensures registered == old(registered)
    {
      sendMessageCallback := Some(callback);
    }

    /**
     * Sends a message through the send callback and returns its token and
     * error. Whatever the callback answers, MessageSent (with a message-sent
     * stamp added to the header if it had none, taken from the clock in
     * seconds) and the legacy Sent signal are queued. With no callback the
     * request is not implemented and nothing is queued.
     */
    method SendMessage(message: MessagePartList, flags: UInt32, nowMSecs: nat) returns (token: string, error: Option<DBusError>)
      requires |message| > 0
      modifies textType.channel.queue
      ensures sendMessageCallback.None? ==>
                token == "" && error == Some(NotImplemented) && textType.channel.queue.events == old(textType.channel.queue.events)
      ensures sendMessageCallback.Some? ==>
                var outcome := sendMessageCallback.value(message, flags);
                && token == outcome.token && error == outcome.error
                && textType.channel.queue.events == old(textType.channel.queue.events) +
                     SendEvents(message, flags, outcome.token, Truncate32(nowMSecs / 1000))
    {
      if sendMessageCallback.None? {
        return "", Some(NotImplemented);
      }
      var outcome := sendMessageCallback.value(message, flags);
      token, error := outcome.token, outcome.error;

      var header := message[0];
      var timestamp: UInt32;
      if MessageSentKey in header {
        timestamp := ToUInt(header[MessageSentKey]);
      } else {
        timestamp := Truncate32(nowMSecs / 1000);
        header := header[MessageSentKey := UInt(timestamp)];
      }
      var fixedMessage := [header] + message[1..];
      assert fixedMessage == StampSent(message, Truncate32(nowMSecs / 1000));
      textType.channel.queue.Post(Events.MessageSent(fixedMessage, flags, token));

      var messageType := HeaderUInt(header, MessageTypeKey, MessageTypeNormal);
      var content := ExtractPlainText(message[1..]);
      textType.Sent(timestamp, messageType, content);
    }
  }

  /** What a send callback answers: the delivery token, and an error if sending failed. */
  datatype SendOutcome = SendOutcome(token: string, error: Option<DBusError>)
}
