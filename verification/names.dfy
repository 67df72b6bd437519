/**
 * Names on the bus: the interface names of the channel and its extensions,
 * the unique object name each channel derives from its type and a
 * process-wide counter, and the rule that keeps "Type" interfaces out of a
 * channel's advertised interface list.
 */
module Names {
  import opened Values

  const ChannelIface := "org.freedesktop.Telepathy.Channel"
  const TypeInfix := ".Type."
  const TypePrefix := ChannelIface + TypeInfix

  const TextTypeName := TypePrefix + "Text"
  const ServerAuthenticationTypeName := TypePrefix + "ServerAuthentication"
  const MessagesName := ChannelIface + ".Interface.Messages"
  const GroupName := ChannelIface + ".Interface.Group"
  const SaslAuthenticationName := ChannelIface + ".Interface.SASLAuthentication"
  const CaptchaAuthenticationName := ChannelIface + ".Interface.CaptchaAuthentication1"
  const SecurableName := ChannelIface + ".Interface.Securable"
  const ChatStateName := ChannelIface + ".Interface.ChatState"

  predicate IsPrefix(p: string, s: string)
  {
    |p| <= |s| && s[..|p|] == p
  }

  /** `t` occurs in `s` starting at index `i`. */
  predicate OccursAt(s: string, t: string, i: nat)
  {
    i + |t| <= |s| && s[i..i + |t|] == t
  }

  /** `QString::contains`: `t` occurs somewhere in `s`. */
  predicate Contains(s: string, t: string)
  {
    exists i: nat :: i <= |s| && OccursAt(s, t, i)
  }

  /** The part of a channel type after `...Channel.Type.`, or empty when the type has no such prefix. */
  function TypeSuffix(channelType: string): (r: string)
    ensures IsPrefix(TypePrefix, channelType) ==> channelType == TypePrefix + r
    ensures !IsPrefix(TypePrefix, channelType) ==> r == ""
  {
    if IsPrefix(TypePrefix, channelType) then channelType[|TypePrefix|..] else ""
  }

  /** The unique name given to the channel built while the process-wide counter stood at `id`. */
  function UniqueName(channelType: string, id: UInt32): string
  {
    TypeSuffix(channelType) + "Channel" + Decimal(id)
  }

  /** The longest suffix of `s` made only of decimal digits. */
  function TrailingDigits(s: string): (r: string)
    ensures AllDigits(r)
  {
    if |s| == 0 || !IsDigit(s[|s| - 1]) then "" else TrailingDigits(s[..|s| - 1]) + [s[|s| - 1]]
  }

  lemma {:induction false} TrailingDigitsAfter(x: string, d: string)
    requires |x| > 0 && !IsDigit(x[|x| - 1])
    requires AllDigits(d)
    ensures TrailingDigits(x + d) == d
    decreases |d|
  {
    var s := x + d;
    if |d| == 0 {
      assert s == x;
    } else {
      var d' := d[..|d| - 1];
      assert s[..|s| - 1] == x + d';
      TrailingDigitsAfter(x, d');
      assert d' + [d[|d| - 1]] == d;
    }
  }

  /**
   * Two channels built at different counter values get different names,
   * whatever their types: the counter's digits are the trailing digits of the
   * name, since "Channel" ends in a letter.
   */
  lemma UniqueNamesDiffer(type1: string, type2: string, id1: UInt32, id2: UInt32)
    requires id1 != id2
    ensures UniqueName(type1, id1) != UniqueName(type2, id2)
  {
    var x1 := TypeSuffix(type1) + "Channel";
    var x2 := TypeSuffix(type2) + "Channel";
    assert x1[|x1| - 1] == 'l' && x2[|x2| - 1] == 'l';
    assert UniqueName(type1, id1) == x1 + Decimal(id1);
    assert UniqueName(type2, id2) == x2 + Decimal(id2);
    TrailingDigitsAfter(x1, Decimal(id1));
    TrailingDigitsAfter(x2, Decimal(id2));
    if Decimal(id1) == Decimal(id2) {
      DecimalInjective(id1, id2);
    }
  }

  /** The object path a channel is registered at: under its connection's path, named by its unique name. */
  function ObjectPath(connectionPath: string, name: string): string
  {
    connectionPath + "/" + name
  }

  /** Channels of one connection built at different counter values get different object paths. */
  lemma ObjectPathsDiffer(connectionPath: string, type1: string, type2: string, id1: UInt32, id2: UInt32)
    requires id1 != id2
    ensures ObjectPath(connectionPath, UniqueName(type1, id1)) != ObjectPath(connectionPath, UniqueName(type2, id2))
  {
    var a, b := UniqueName(type1, id1), UniqueName(type2, id2);
    UniqueNamesDiffer(type1, type2, id1, id2);
    assert ObjectPath(connectionPath, a)[|connectionPath| + 1..] == a;
    assert ObjectPath(connectionPath, b)[|connectionPath| + 1..] == b;
  }

  /** A text channel built first is named "TextChannel0"; an unprefixed type contributes nothing. */
  lemma UniqueNameExamples()
    ensures UniqueName(TextTypeName, 0) == "TextChannel0"
    ensures UniqueName("x.y.Custom", 12) == "Channel12"
  {
    assert TextTypeName[..|TypePrefix|] == TypePrefix;
    assert TypeSuffix(TextTypeName) == "Text";
    assert Decimal(12) == Decimal(1) + [DigitChar(2)];
    assert !IsPrefix(TypePrefix, "x.y.Custom");
  }

  /** The names that a channel advertises: those that do not contain ".Type.", in order. */
  function WithoutTypeInterfaces(names: seq<string>): (r: seq<string>)
    ensures forall n :: n in r <==> n in names && !Contains(n, TypeInfix)
    ensures |r| <= |names|
    ensures NoDup(names) ==> NoDup(r)
  {
    if names == [] then []
    else
      var init := names[..|names| - 1];
      var last := names[|names| - 1];
      assert names == init + [last];
      var rest := WithoutTypeInterfaces(init);
      if Contains(last, TypeInfix) then rest else rest + [last]
  }

  lemma TypeNamesContainInfix()
    ensures Contains(TextTypeName, TypeInfix)
    ensures Contains(ServerAuthenticationTypeName, TypeInfix)
  {
    var i := |ChannelIface|;
    assert TextTypeName[i..i + |TypeInfix|] == TypeInfix;
    assert OccursAt(TextTypeName, TypeInfix, i);
    assert ServerAuthenticationTypeName[i..i + |TypeInfix|] == TypeInfix;
    assert OccursAt(ServerAuthenticationTypeName, TypeInfix, i);
  }

  /** The channel type interfaces are never advertised in the interface list. */
  lemma TypeInterfacesNotAdvertised(names: seq<string>)
    ensures TextTypeName !in WithoutTypeInterfaces(names)
    ensures ServerAuthenticationTypeName !in WithoutTypeInterfaces(names)
  {
    TypeNamesContainInfix();
  }
}
