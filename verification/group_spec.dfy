/**
 * What the Group interface's local membership updates compute: which
 * handles addMembers appends and with which identifiers, what
 * removeMembers does as the code stands (its membership test is inverted),
 * and what it evidently should do.
 */
module GroupSpec {
  import opened Values
  import opened Events

  /** The index of the first occurrence of `x` in `s`. */
  function FirstIndex(s: seq<UInt32>, x: UInt32): (r: nat)
    requires x in s
    ensures r < |s| && s[r] == x && x !in s[..r]
  {
    if s[0] == x then 0 else 1 + FirstIndex(s[1..], x)
  }

  lemma FirstIndexUnique(s: seq<UInt32>, x: UInt32, r: nat)
    requires r < |s| && s[r] == x && x !in s[..r]
    ensures FirstIndex(s, x) == r
  {
  }

  /**
   * The handles addMembers appends to the member list: the handles of
   * `handles` that are not members yet, each once, in the order they come.
   */
  function Added(members: seq<UInt32>, handles: seq<UInt32>): (r: seq<UInt32>)
    ensures forall h :: h in r <==> h in handles && h !in members
    ensures NoDup(r)
  {
    if handles == [] then []
    else
      var n := |handles| - 1;
      assert handles == handles[..n] + [handles[n]];
      var prev := Added(members, handles[..n]);
      var h := handles[n];
      if h in members || h in prev then prev else prev + [h]
  }

  /** Appending the added handles keeps a duplicate-free member list duplicate-free. */
  lemma AddedKeepsNoDup(members: seq<UInt32>, handles: seq<UInt32>)
    requires NoDup(members)
    ensures NoDup(members + Added(members, handles))
  {
    var r := members + Added(members, handles);
    forall i, j | 0 <= i < j < |r|
      ensures r[i] != r[j]
    {
      if i < |members| && j >= |members| {
        assert r[j] in Added(members, handles);
      } else if i >= |members| {
        assert r[i] == Added(members, handles)[i - |members|];
        assert r[j] == Added(members, handles)[j - |members|];
      }
    }
  }

  /** The added handles keep the order in which they first occur in the input. */
  lemma {:induction false} AddedInInputOrder(members: seq<UInt32>, handles: seq<UInt32>)
    ensures forall i, j :: 0 <= i < j < |Added(members, handles)| ==>
              FirstIndex(handles, Added(members, handles)[i]) < FirstIndex(handles, Added(members, handles)[j])
  {
    if handles != [] {
      var n := |handles| - 1;
      var init := handles[..n];
      var h := handles[n];
      var prev := Added(members, init);
      AddedInInputOrder(members, init);
      forall x | x in prev
        ensures FirstIndex(handles, x) == FirstIndex(init, x)
      {
        var f := FirstIndex(init, x);
        assert handles[..f] == init[..f];
        FirstIndexUnique(handles, x, f);
      }
      if !(h in members || h in prev) {
        assert h !in init;
        assert handles[..n] == init;
        FirstIndexUnique(handles, h, n);
        var a := Added(members, handles);
        assert a == prev + [h];
        forall i, j | 0 <= i < j < |a|
          ensures FirstIndex(handles, a[i]) < FirstIndex(handles, a[j])
        {
          assert a[i] == prev[i];
          if j < |prev| {
            assert a[j] == prev[j];
          }
        }
      }
    }
  }

  /** The identifiers addMembers records: each added handle gets the identifier at its position. */
  function AddedIdentifiers(members: seq<UInt32>, handles: seq<UInt32>, identifiers: seq<string>): map<UInt32, string>
    requires |handles| == |identifiers|
  {
    if handles == [] then map[]
    else
      var n := |handles| - 1;
      var prev := AddedIdentifiers(members, handles[..n], identifiers[..n]);
      var h := handles[n];
      if h in members || h in Added(members, handles[..n]) then prev else prev[h := identifiers[n]]
  }

  /** Each added handle, and no other, gets the identifier given alongside its first occurrence. */
  lemma {:induction false} AddedIdentifiersExactly(members: seq<UInt32>, handles: seq<UInt32>, identifiers: seq<string>)
    requires |handles| == |identifiers|
    ensures AddedIdentifiers(members, handles, identifiers).Keys == Elements(Added(members, handles))
    ensures forall h :: h in Added(members, handles) ==>
              AddedIdentifiers(members, handles, identifiers)[h] == identifiers[FirstIndex(handles, h)]
  {
    if handles != [] {
      var n := |handles| - 1;
      var init, initIds := handles[..n], identifiers[..n];
      var h := handles[n];
      AddedIdentifiersExactly(members, init, initIds);
      var prev := Added(members, init);
      forall x | x in prev
        ensures FirstIndex(handles, x) == FirstIndex(init, x)
      {
        var f := FirstIndex(init, x);
        assert handles[..f] == init[..f];
        FirstIndexUnique(handles, x, f);
      }
      if !(h in members || h in prev) {
        assert h !in init;
        assert handles[..n] == init;
        FirstIndexUnique(handles, h, n);
      }
    }
  }

  /** One more handle: Added and AddedIdentifiers extend by it exactly when it is new. */
  lemma AddedStep(members: seq<UInt32>, handles: seq<UInt32>, identifiers: seq<string>, i: nat)
    requires i < |handles| == |identifiers|
    ensures var prev := Added(members, handles[..i]);
      var h := handles[i];
      && Added(members, handles[..i + 1]) == (if h in members + prev then prev else prev + [h])
      && AddedIdentifiers(members, handles[..i + 1], identifiers[..i + 1]) ==
           (if h in members + prev then AddedIdentifiers(members, handles[..i], identifiers[..i])
            else AddedIdentifiers(members, handles[..i], identifiers[..i])[h := identifiers[i]])
  {
    assert handles[..i + 1][..i] == handles[..i] && identifiers[..i + 1][..i] == identifiers[..i];
    assert handles[i] in members + Added(members, handles[..i]) <==>
           handles[i] in members || handles[i] in Added(members, handles[..i]);
  }

  /** Added over the first `i` handles, computed position by position as the loop of addMembers does. */
  function AddedUpTo(members: seq<UInt32>, handles: seq<UInt32>, i: nat): seq<UInt32>
    requires i <= |handles|
  {
    if i == 0 then []
    else
      var prev := AddedUpTo(members, handles, i - 1);
      if handles[i - 1] in members + prev then prev else prev + [handles[i - 1]]
  }

  /** AddedIdentifiers over the first `i` handles, computed position by position. */
  function AddedIdentifiersUpTo(members: seq<UInt32>, handles: seq<UInt32>, identifiers: seq<string>, i: nat): map<UInt32, string>
    requires i <= |handles| == |identifiers|
  {
    if i == 0 then map[]
    else
      var prev := AddedIdentifiersUpTo(members, handles, identifiers, i - 1);
      var h := handles[i - 1];
      if h in members + AddedUpTo(members, handles, i - 1) then prev else prev[h := identifiers[i - 1]]
  }

  /** The position-by-position computation agrees with Added and AddedIdentifiers on every prefix. */
  lemma {:induction false} UpToIsAdded(members: seq<UInt32>, handles: seq<UInt32>, identifiers: seq<string>, i: nat)
    requires i <= |handles| == |identifiers|
    ensures AddedUpTo(members, handles, i) == Added(members, handles[..i])
    ensures AddedIdentifiersUpTo(members, handles, identifiers, i) == AddedIdentifiers(members, handles[..i], identifiers[..i])
  {
    if i > 0 {
      UpToIsAdded(members, handles, identifiers, i - 1);
      AddedStep(members, handles, identifiers, i - 1);
    }
  }

  /**
   * Adding members keeps a duplicate-free member list whose identifiers are
   * recorded for exactly its members in that state.
   */
  lemma AddedKeepsIdentified(members: seq<UInt32>, ids: map<UInt32, string>, handles: seq<UInt32>, identifiers: seq<string>)
    requires NoDup(members) && ids.Keys == Elements(members)
    requires |handles| == |identifiers|
    ensures NoDup(members + Added(members, handles))
    ensures (ids + AddedIdentifiers(members, handles, identifiers)).Keys == Elements(members + Added(members, handles))
  {
    AddedKeepsNoDup(members, handles);
    AddedIdentifiersExactly(members, handles, identifiers);
    assert Elements(members + Added(members, handles)) == Elements(members) + Elements(Added(members, handles));
  }

  /** `QList::removeAll`: `s` without any occurrence of `x`. */
  function RemoveAll(s: seq<UInt32>, x: UInt32): (r: seq<UInt32>)
    ensures forall y :: y in r <==> y in s && y != x
  {
    if s == [] then []
    else if s[0] == x then RemoveAll(s[1..], x)
    else [s[0]] + RemoveAll(s[1..], x)
  }

  lemma {:induction false} RemoveAllAbsent(s: seq<UInt32>, x: UInt32)
    requires x !in s
    ensures RemoveAll(s, x) == s
  {
    if s != [] {
      RemoveAllAbsent(s[1..], x);
      assert [s[0]] + s[1..] == s;
    }
  }

  lemma {:induction false} RemoveAllKeepsNoDup(s: seq<UInt32>, x: UInt32)
    requires NoDup(s)
    ensures NoDup(RemoveAll(s, x))
  {
    if s != [] {
      RemoveAllKeepsNoDup(s[1..], x);
      if s[0] != x {
        assert s[0] !in s[1..];
        var r := [s[0]] + RemoveAll(s[1..], x);
        forall i, j | 0 <= i < j < |r|
          ensures r[i] != r[j]
        {
          if i == 0 {
            assert r[j] in RemoveAll(s[1..], x);
          } else {
            assert r[i] == RemoveAll(s[1..], x)[i - 1];
            assert r[j] == RemoveAll(s[1..], x)[j - 1];
          }
        }
      }
    }
  }

  /** The member list, the identifier map and the reported removed handles after a removal. */
  datatype Removal = Removal(members: seq<UInt32>, identifiers: map<UInt32, string>, removed: seq<UInt32>)

  /**
   * removeMembers as the code stands: a handle that IS a member is skipped;
   * any other handle loses its identifier, is removed from the list (where it
   * is not) and is reported as removed.
   */
  function RemoveMembersAsWritten(members: seq<UInt32>, identifiers: map<UInt32, string>, handles: seq<UInt32>): Removal
  {
    if handles == [] then Removal(members, identifiers, [])
    else
      var n := |handles| - 1;
      var prev := RemoveMembersAsWritten(members, identifiers, handles[..n]);
      var h := handles[n];
      if h in prev.members then prev
      else Removal(RemoveAll(prev.members, h), prev.identifiers - {h}, prev.removed + [h])
  }

  /** The handles of `handles` that are not in `members`, in order, repeats kept. */
  function NonMembers(members: seq<UInt32>, handles: seq<UInt32>): (r: seq<UInt32>)
    ensures forall h :: h in r <==> h in handles && h !in members
  {
    if handles == [] then []
    else
      var n := |handles| - 1;
      assert handles == handles[..n] + [handles[n]];
      NonMembers(members, handles[..n]) + (if handles[n] in members then [] else [handles[n]])
  }

  /**
   * As written, removeMembers never changes the member list; the reported
   * removed handles are exactly the input handles that were NOT members, and
   * only their identifiers are erased.
   */
  lemma {:induction false} RemoveAsWrittenKeepsMembers(members: seq<UInt32>, identifiers: map<UInt32, string>, handles: seq<UInt32>)
    ensures RemoveMembersAsWritten(members, identifiers, handles).members == members
    ensures RemoveMembersAsWritten(members, identifiers, handles).removed == NonMembers(members, handles)
    ensures RemoveMembersAsWritten(members, identifiers, handles).identifiers == identifiers - Elements(NonMembers(members, handles))
  {
    if handles != [] {
      var n := |handles| - 1;
      var h := handles[n];
      RemoveAsWrittenKeepsMembers(members, identifiers, handles[..n]);
      if h !in members {
        RemoveAllAbsent(members, h);
        var before := NonMembers(members, handles[..n]);
        assert Elements(before + [h]) == Elements(before) + {h};
      }
    }
  }

  /** Removing a member, as written, leaves it a member, keeps its identifier and reports nothing. */
  lemma RemoveAsWrittenCounterexample()
    ensures RemoveMembersAsWritten([5], map[5 := "alice"], [5]) == Removal([5], map[5 := "alice"], [])
  {
    assert [5][..0] == [];
  }

  /** The Channel_Group_Change_Reason_None reason. */
  const ChangeReasonNone: UInt32 := 0

  /** The signals removeMembers queues, as the code stands: one MembersChanged for the handles it reports, if any. */
  function RemoveAsWrittenEvents(members: seq<UInt32>, identifiers: map<UInt32, string>, handles: seq<UInt32>): seq<Event>
  {
    var removed := RemoveMembersAsWritten(members, identifiers, handles).removed;
    if removed == [] then [] else [MembersChanged("", [], removed, [], [], 0, ChangeReasonNone)]
  }

  /**
   * As written, removeMembers announces the given handles that are NOT
   * members as removed, and announces something exactly when at least one
   * such handle is given.
   */
  lemma RemoveAsWrittenAnnouncesNonMembers(members: seq<UInt32>, identifiers: map<UInt32, string>, handles: seq<UInt32>)
    ensures RemoveAsWrittenEvents(members, identifiers, handles) ==
              if NonMembers(members, handles) == [] then []
              else [MembersChanged("", [], NonMembers(members, handles), [], [], 0, ChangeReasonNone)]
    ensures RemoveAsWrittenEvents(members, identifiers, handles) != [] <==> exists h :: h in handles && h !in members
  {
    RemoveAsWrittenKeepsMembers(members, identifiers, handles);
    if exists h :: h in handles && h !in members {
      var h :| h in handles && h !in members;
      assert h in NonMembers(members, handles);
    }
  }

  /** As written, naming a contact that is not a member announces it as removed, and the members stay as they are. */
  lemma RemoveAsWrittenAnnouncesStranger()
    ensures RemoveMembersAsWritten([5], map[5 := "alice"], [7]).members == [5]
    ensures RemoveAsWrittenEvents([5], map[5 := "alice"], [7]) == [MembersChanged("", [], [7], [], [], 0, ChangeReasonNone)]
  {
    RemoveAsWrittenAnnouncesNonMembers([5], map[5 := "alice"], [7]);
    RemoveAsWrittenKeepsMembers([5], map[5 := "alice"], [7]);
    assert NonMembers([5], [7]) == [7] by {
      assert NonMembers([5], [7]) == (if 7 in [5] then [] else [7]) + NonMembers([5], []);
    }
  }

  /**
   * removeMembers as evidently intended: a handle that is a member is taken
   * out of the list, loses its identifier and is reported; any other handle
   * is ignored.
   */
  function IntendedRemoveMembers(members: seq<UInt32>, identifiers: map<UInt32, string>, handles: seq<UInt32>): Removal
  {
    if handles == [] then Removal(members, identifiers, [])
    else
      var n := |handles| - 1;
      var prev := IntendedRemoveMembers(members, identifiers, handles[..n]);
      var h := handles[n];
      if h !in prev.members then prev
      else Removal(RemoveAll(prev.members, h), prev.identifiers - {h}, prev.removed + [h])
  }

  /**
   * The intended removal leaves exactly the members not named in `handles`,
   * reports each removed member once, and erases exactly their identifiers.
   */
  lemma {:induction false} IntendedRemoveMembersRemoves(members: seq<UInt32>, identifiers: map<UInt32, string>, handles: seq<UInt32>)
    ensures var r := IntendedRemoveMembers(members, identifiers, handles);
      && (forall x :: x in r.members <==> x in members && x !in handles)
      && (forall x :: x in r.removed <==> x in members && x in handles)
      && NoDup(r.removed)
      && r.identifiers == identifiers - Elements(r.removed)
      && (NoDup(members) ==> NoDup(r.members))
  {
    if handles != [] {
      var n := |handles| - 1;
      var init := handles[..n];
      var h := handles[n];
      IntendedRemoveMembersRemoves(members, identifiers, init);
      var prev := IntendedRemoveMembers(members, identifiers, init);
      assert handles == init + [h];
      if h in prev.members {
        assert h !in prev.removed;
        assert Elements(prev.removed + [h]) == Elements(prev.removed) + {h};
        if NoDup(members) {
          RemoveAllKeepsNoDup(prev.members, h);
        }
      }
    }
  }

  /** The intended removal on the counterexample above: the member goes and is reported. */
  lemma IntendedRemoveExample()
    ensures IntendedRemoveMembers([5], map[5 := "alice"], [5]) == Removal([], map[], [5])
  {
    assert [5][..0] == [];
    assert map[5 := "alice"] - {5} == map[];
  }
}
