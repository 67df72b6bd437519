/**
 * Channel.Interface.Group: the member list with an identifier per member,
 * the read-only views of it the bus can query, and the AddMembers and
 * RemoveMembers requests handed to callbacks.
 */
module Group {
  import opened Values
  import opened Events
  import opened GroupSpec

  /** One contact waiting for local approval. */
  datatype LocalPendingInfo = LocalPendingInfo(toBeAdded: UInt32, actor: UInt32, reason: UInt32, message: string)

  class GroupInterface {
    const queue: EventQueue
    var registered: bool

    const flags: UInt32
    const selfHandle: UInt32
    /** Nothing in this interface fills the owner map or the pending lists: they stay as constructed. */
    const handleOwners: map<UInt32, UInt32>
    const localPendingMembers: seq<LocalPendingInfo>
    const remotePendingMembers: seq<UInt32>

    var members: seq<UInt32>
    var memberIdentifiers: map<UInt32, string>

    var addMembersCallback: Option<(seq<UInt32>, string) -> Option<DBusError>>
    var removeMembersCallback: Option<(seq<UInt32>, string) -> Option<DBusError>>

    /** No member is listed twice, and exactly the members have an identifier. */
    predicate Valid()
      reads this
    {
      NoDup(members) && memberIdentifiers.Keys == Elements(members)
    }

    /** The group starts with no members, no pending contacts, no owners and no callbacks. */
    constructor (queue: EventQueue, initialFlags: UInt32, selfHandle: UInt32)
      ensures Valid()
      ensures this.queue == queue && !registered
      ensures flags == initialFlags && this.selfHandle == selfHandle
      ensures handleOwners == map[] && localPendingMembers == [] && remotePendingMembers == []
      ensures members == [] && memberIdentifiers == map[]
      ensures forall contacts, message :: AddMembersRequest(contacts, message) == Some(NotImplemented)
      ensures forall contacts, message :: RemoveMembersRequest(contacts, message) == Some(NotImplemented)
    {
      this.queue := queue;
      registered := false;
      flags := initialFlags;
      this.selfHandle := selfHandle;
      handleOwners := map[];
      localPendingMembers := [];
      remotePendingMembers := [];
      members := [];
      memberIdentifiers := map[];
      addMembersCallback := None;
      removeMembersCallback := None;
    }

    /** The interface has no immutable properties. */
    function ImmutableProperties(): VariantMap
    {
      map[]
    }

    method SetAddMembersCallback(callback: (seq<UInt32>, string) -> Option<DBusError>)
      modifies this
      ensures forall contacts, message :: AddMembersRequest(contacts, message) == callback(contacts, message)
      ensures removeMembersCallback == old(removeMembersCallback)
      ensures members == old(members) && memberIdentifiers == old(memberIdentifiers) && registered == old(registered)
    {
      addMembersCallback := Some(callback);
    }

    method SetRemoveMembersCallback(callback: (seq<UInt32>, string) -> Option<DBusError>)
      modifies this
      ensures forall contacts, message :: RemoveMembersRequest(contacts, message) == callback(contacts, message)
      ensures addMembersCallback == old(addMembersCallback)
      ensures members == old(members) && memberIdentifiers == old(memberIdentifiers) && registered == old(registered)
    {
      removeMembersCallback := Some(callback);
    }

    /** The AddMembers request: NotImplemented while no callback is set. */
    function AddMembersRequest(contacts: seq<UInt32>, message: string): (r: Option<DBusError>)
      reads this
      ensures addMembersCallback.None? ==> r == Some(NotImplemented)
    {
      match addMembersCallback
      case None => Some(NotImplemented)
      case Some(callback) => callback(contacts, message)
    }

    /** The RemoveMembers request: NotImplemented while no callback is set. */
    function RemoveMembersRequest(contacts: seq<UInt32>, message: string): (r: Option<DBusError>)
      reads this
      ensures removeMembersCallback.None? ==> r == Some(NotImplemented)
    {
      match removeMembersCallback
      case None => Some(NotImplemented)
      case Some(callback) => callback(contacts, message)
    }

    /** The RemoveMembersWithReason request: plain RemoveMembers, the reason discarded. */
    function RemoveMembersWithReasonRequest(contacts: seq<UInt32>, message: string, reason: UInt32): (r: Option<DBusError>)
      reads this
      ensures r == RemoveMembersRequest(contacts, message)
      ensures removeMembersCallback.None? ==> r == Some(NotImplemented)
    {
      RemoveMembersRequest(contacts, message)
    }

    /** The handles of the contacts waiting for local approval, in order. */
    method GetLocalPendingMembers() returns (handles: seq<UInt32>)
      ensures |handles| == |localPendingMembers|
      ensures forall i :: 0 <= i < |handles| ==> handles[i] == localPendingMembers[i].toBeAdded
    {
      handles := [];
      for i := 0 to |localPendingMembers|
        invariant |handles| == i
        invariant forall j :: 0 <= j < i ==> handles[j] == localPendingMembers[j].toBeAdded
      {
        handles := handles + [localPendingMembers[i].toBeAdded];
      }
    }

    /** GetAllMembers: the members, the local-pending handles and the remote-pending handles. */
    method GetAllMembers() returns (current: seq<UInt32>, localPending: seq<UInt32>, remotePending: seq<UInt32>)
      ensures current == members && remotePending == remotePendingMembers
      ensures |localPending| == |localPendingMembers|
      ensures forall i :: 0 <= i < |localPending| ==> localPending[i] == localPendingMembers[i].toBeAdded
    {
      localPending := GetLocalPendingMembers();
      current, remotePending := members, remotePendingMembers;
    }

    /** GetHandleOwners: the owner of each handle, in order, 0 for a handle with no known owner. */
    method GetHandleOwners(handles: seq<UInt32>) returns (owners: seq<UInt32>)
      ensures |owners| == |handles|
      ensures forall i :: 0 <= i < |handles| && handles[i] in handleOwners ==> owners[i] == handleOwners[handles[i]]
      ensures forall i :: 0 <= i < |handles| && handles[i] !in handleOwners ==> owners[i] == 0
    {
      owners := [];
      for i := 0 to |handles|
        invariant |owners| == i
        invariant forall j :: 0 <= j < i && handles[j] in handleOwners ==> owners[j] == handleOwners[handles[j]]
        invariant forall j :: 0 <= j < i && handles[j] !in handleOwners ==> owners[j] == 0
      {
        owners := owners + [if handles[i] in handleOwners then handleOwners[handles[i]] else 0];
      }
    }

    /**
     * The loop of addMembers: walks `handles`, skipping current members, and
     * collects the new member list, the new identifier map and the handles
     * added, in order.
     */
    method CollectAdded(handles: seq<UInt32>, identifiers: seq<string>)
      returns (current: seq<UInt32>, identified: map<UInt32, string>, added: seq<UInt32>)
      requires |handles| == |identifiers|
      ensures added == Added(members, handles)
      ensures current == members + added
      ensures identified == memberIdentifiers + AddedIdentifiers(members, handles, identifiers)
    {
      current, identified, added := members, memberIdentifiers, [];
      var i := 0;
      while i < |handles|
        invariant 0 <= i <= |handles|
        invariant added == AddedUpTo(members, handles, i)
        invariant current == members + added
        invariant identified == memberIdentifiers + AddedIdentifiersUpTo(members, handles, identifiers, i)
      {
        var handle := handles[i];
        if handle !in current {
          identified := identified[handle := identifiers[i]];
          current := current + [handle];
          added := added + [handle];
        }
        i := i + 1;
      }
      UpToIsAdded(members, handles, identifiers, i);
      assert handles[..i] == handles && identifiers[..i] == identifiers;
    }

    /**
     * Adds the contacts of `handles` that are not members yet, each with the
     * identifier at its position, and announces them in one MembersChanged.
     * Lists of different lengths are ignored.
     */
    method AddMembers(handles: seq<UInt32>, identifiers: seq<string>)
      requires Valid()
      modifies this, queue
      ensures Valid()
      ensures |handles| != |identifiers| ==>
                members == old(members) && memberIdentifiers == old(memberIdentifiers) && queue.events == old(queue.events)
      ensures |handles| == |identifiers| ==>
                && members == old(members) + Added(old(members), handles)
                && memberIdentifiers == old(memberIdentifiers) + AddedIdentifiers(old(members), handles, identifiers)
                && queue.events == old(queue.events) +
                     (if Added(old(members), handles) == [] then []
                      else [MembersChanged("", Added(old(members), handles), [], [], [], 0, ChangeReasonNone)])
      ensures registered == old(registered)
      ensures addMembersCallback == old(addMembersCallback) && removeMembersCallback == old(removeMembersCallback)
    {
      if |handles| != |identifiers| {
        return;
      }
      var current, identified, added := CollectAdded(handles, identifiers);
      AddedKeepsIdentified(members, memberIdentifiers, handles, identifiers);
      members, memberIdentifiers := current, identified;
      if added != [] {
        queue.Post(MembersChanged("", added, [], [], [], 0, ChangeReasonNone));
      }
    }

    /**
     * Removes the contacts of `handles` that are members, with their
     * identifiers, and announces them in one MembersChanged; other handles are
     * ignored. This is the evidently intended behaviour: the code as it stands
     * tests membership the wrong way round (see RemoveMembersAsWritten).
     */
    method RemoveMembers(handles: seq<UInt32>)
      requires Valid()
      modifies this, queue
      ensures Valid()
      ensures var r := IntendedRemoveMembers(old(members), old(memberIdentifiers), handles);
        && members == r.members && memberIdentifiers == r.identifiers
        && queue.events == old(queue.events) +
             (if r.removed == [] then [] else [MembersChanged("", [], r.removed, [], [], 0, ChangeReasonNone)])
      ensures forall h :: h in handles ==> h !in members
      ensures registered == old(registered)
      ensures addMembersCallback == old(addMembersCallback) && removeMembersCallback == old(removeMembersCallback)
    {
      var removed := [];
      var i := 0;
      while i < |handles|
        invariant 0 <= i <= |handles|
        invariant Removal(members, memberIdentifiers, removed) == IntendedRemoveMembers(old(members), old(memberIdentifiers), handles[..i])
        invariant registered == old(registered) && queue.events == old(queue.events)
        invariant addMembersCallback == old(addMembersCallback) && removeMembersCallback == old(removeMembersCallback)
      {
        var handle := handles[i];
        assert handles[..i + 1][..i] == handles[..i];
        if handle !in members {
          i := i + 1;
          continue;
        }
        memberIdentifiers := memberIdentifiers - {handle};
        members := RemoveAll(members, handle);
        removed := removed + [handle];
        i := i + 1;
      }
      assert handles[..i] == handles;
      IntendedRemoveMembersRemoves(old(members), old(memberIdentifiers), handles);
      if removed != [] {
        queue.Post(MembersChanged("", [], removed, [], [], 0, ChangeReasonNone));
      }
    }
  }
}
