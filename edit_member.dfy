/** The edit-member screen: the access-level ladder a member climbs on each group, the
    per-group access table and how each request's answer is written into it, and the
    moderator toggle. */
module EditMember {
  import opened Wrappers
  import opened Records
  import opened Lists

  // ------------------------------------------------------------ the ladder

  /** The level `upgradeMembership` asks for, or `None` when it makes no call. An absent
      level compares unequal to both 111 and 1. */
  function UpgradeTarget(current: Option<int>): Option<int>
  {
    if current == Some(111) then None
    else if current == Some(1) then Some(11)
    else Some(111)
  }

  /** The level `downgradeMembership` asks for, or `None` when it makes no call. */
  function DowngradeTarget(current: Option<int>): Option<int>
  {
    if current == Some(1) then None
    else if current == Some(111) then Some(11)
    else Some(1)
  }

  /** The three levels the ladder is made of: read, read-write, read-write-delete. */
  predicate IsLadderLevel(level: int)
  {
    level == 1 || level == 11 || level == 111
  }

  /** On the ladder, both moves stay on the ladder; upgrade stops only at the top and
      downgrade only at the bottom, and each move goes strictly in its direction. */
  lemma LadderIsClosed(level: int)
    requires IsLadderLevel(level)
    ensures UpgradeTarget(Some(level)).None? <==> level == 111
    ensures DowngradeTarget(Some(level)).None? <==> level == 1
    ensures UpgradeTarget(Some(level)).Some? ==>
              IsLadderLevel(UpgradeTarget(Some(level)).value) && UpgradeTarget(Some(level)).value > level
    ensures DowngradeTarget(Some(level)).Some? ==>
              IsLadderLevel(DowngradeTarget(Some(level)).value) && DowngradeTarget(Some(level)).value < level
  {
  }

  /** Downgrade undoes upgrade below the top, and upgrade undoes downgrade above the bottom. */
  lemma LadderRoundTrips(level: int)
    ensures level == 1 || level == 11 ==> DowngradeTarget(UpgradeTarget(Some(level))) == Some(level)
    ensures level == 11 || level == 111 ==> UpgradeTarget(DowngradeTarget(Some(level))) == Some(level)
  {
  }

  /** Off the ladder, upgrade jumps straight to the top and downgrade to the bottom. */
  lemma OffLadderJumps(current: Option<int>)
    requires current.None? || !IsLadderLevel(current.value)
    ensures UpgradeTarget(current) == Some(111) && DowngradeTarget(current) == Some(1)
  {
  }

  // ------------------------------------------------------------ the access table

  /** One row of the access table: a group, merged with the member's grant on it if any. */
  datatype AccessEntry = AccessEntry(
    name: string, groupId: string, id: Option<string>, memberId: Option<string>, authorizations: Option<int>)

  /** `{ ...entry, ...grant }`: the grant's fields win. */
  function WithGrant(entry: AccessEntry, grant: GroupMember): (r: AccessEntry)
    ensures r.name == entry.name && r.groupId == grant.groupId
    ensures r.id == Some(grant.id) && r.authorizations == Some(grant.authorizations)
  {
    AccessEntry(entry.name, grant.groupId, Some(grant.id), Some(grant.memberId), Some(grant.authorizations))
  }

  /** The row for one group. */
  function EntryFor(group: Group, grants: seq<GroupMember>): AccessEntry
  {
    var bare := AccessEntry(group.name, group.id, None, None, None);
    match FindByGroup(grants, group.id)
    case Some(grant) => WithGrant(bare, grant)
    case None => bare
  }

  /** The table the screen builds: one row per institution group, in the same order, carrying
      the member's first grant on that group when there is one. */
  function BuildAccessTable(groups: seq<Group>, grants: seq<GroupMember>): (r: seq<AccessEntry>)
    ensures |r| == |groups|
    ensures forall i :: 0 <= i < |r| ==> r[i].name == groups[i].name && r[i].groupId == groups[i].id
    ensures forall i :: 0 <= i < |r| ==>
              (r[i].id.Some? <==> exists k :: 0 <= k < |grants| && grants[k].groupId == groups[i].id)
    ensures forall i :: 0 <= i < |r| && r[i].id.Some? ==>
              exists k :: && 0 <= k < |grants| && grants[k].groupId == groups[i].id
                          && r[i].id == Some(grants[k].id) && r[i].authorizations == Some(grants[k].authorizations)
                          && forall j :: 0 <= j < k ==> grants[j].groupId != groups[i].id
    ensures forall i :: 0 <= i < |r| && r[i].id.None? ==> r[i].authorizations.None?
  {
    seq(|groups|, i requires 0 <= i < |groups| => EntryFor(groups[i], grants))
  }

  /** `findIndex(e => e.groupId === groupId)`. */
  function IndexOfGroup(s: seq<AccessEntry>, groupId: string): int
  {
    FindIndex(s, (e: AccessEntry) => e.groupId == groupId)
  }

  /** `findIndex(e => e.id === id)`; an absent id matches the first row without one. */
  function IndexOfId(s: seq<AccessEntry>, id: Option<string>): int
  {
    FindIndex(s, (e: AccessEntry) => e.id == id)
  }

  /** `table[index] = entry`: with `index == -1` the assignment adds a property named "-1"
      and no row changes. */
  function Replace(s: seq<AccessEntry>, index: int, entry: AccessEntry): (r: seq<AccessEntry>)
    requires -1 <= index < |s|
    ensures |r| == |s|
    ensures forall j :: 0 <= j < |s| && j != index ==> r[j] == s[j]
    ensures index >= 0 ==> r[index] == entry
  {
    if index == -1 then s else s[index := entry]
  }

  /** The row a successful patch or post writes: the grant's fields over the found row. */
  function Granted(s: seq<AccessEntry>, index: int, grant: GroupMember): seq<AccessEntry>
    requires -1 <= index < |s|
  {
    if index == -1 then s else Replace(s, index, WithGrant(s[index], grant))
  }

  /** The groups of the table, in order. */
  function GroupIds(s: seq<AccessEntry>): (r: seq<string>)
    ensures |r| == |s| && forall i :: 0 <= i < |s| ==> r[i] == s[i].groupId
  {
    seq(|s|, i requires 0 <= i < |s| => s[i].groupId)
  }

  /** A grant written into the row of its own group keeps the table's groups and their order. */
  lemma GrantKeepsGroups(s: seq<AccessEntry>, groupId: string, grant: GroupMember)
    requires grant.groupId == groupId
    ensures GroupIds(Granted(s, IndexOfGroup(s, groupId), grant)) == GroupIds(s)
  {
    var r := Granted(s, IndexOfGroup(s, groupId), grant);
    assert forall i :: 0 <= i < |s| ==> GroupIds(r)[i] == GroupIds(s)[i];
  }

  /** After a grant on a group is posted, the group's row carries it, whether or not the row
      already had one. */
  lemma PostedGrantIsShown(s: seq<AccessEntry>, grant: GroupMember)
    requires exists j :: 0 <= j < |s| && s[j].groupId == grant.groupId
    ensures var i := IndexOfGroup(s, grant.groupId);
            0 <= i && Granted(s, i, grant)[i].id == Some(grant.id)
            && Granted(s, i, grant)[i].authorizations == Some(grant.authorizations)
  {
  }

  // ------------------------------------------------------------ the moderator toggle

  /** The level the moderator button sends: depromote (1) for a moderator at 111, promote
      (111) for anyone else. */
  function ModeratorTarget(authorizations: int): (r: int)
    ensures r == 1 || r == 111
    ensures r == 1 <==> authorizations == 111
  {
    if authorizations == 111 then 1 else 111
  }

  /** Pressing the button twice gives back the starting level exactly for the two levels
      the button itself sends. */
  lemma ModeratorToggleReturns(authorizations: int)
    ensures ModeratorTarget(ModeratorTarget(authorizations)) == authorizations
            <==> authorizations == 1 || authorizations == 111
  {
  }

  /** The arguments of `postGroupMember`. */
  datatype GrantPost = GrantPost(groupId: string, memberId: string, authorizations: int)

  /** The arguments of `patchGroupMember`. */
  datatype GrantPatch = GrantPatch(groupMemberId: Option<string>, authorizations: int)

  class EditMemberScreen {
    const memberId: string
    var isLoading: bool
    var error: string
    var reload: bool
    var memberAuthorizations: int
    var confirmPromoteUser: bool
    var confirmDepromoteUser: bool
    var confirmRemoveUserIntention: bool
    var confirmRemoveUser: bool
    var isRemoving: bool
    var accessLevelGroups: array<AccessEntry>

    constructor (memberId: string)
      ensures this.memberId == memberId && isLoading && error == "" && !reload
      ensures !confirmPromoteUser && !confirmDepromoteUser && !confirmRemoveUserIntention
      ensures !confirmRemoveUser && !isRemoving
      ensures fresh(accessLevelGroups) && accessLevelGroups.Length == 0
    {
      this.memberId := memberId;
      isLoading, error, reload := true, "", false;
      memberAuthorizations := 0;
      confirmPromoteUser, confirmDepromoteUser := false, false;
      confirmRemoveUserIntention, confirmRemoveUser, isRemoving := false, false, false;
      accessLevelGroups := new AccessEntry[0];
    }

    /** The focus effect and the table effect, with the two responses standing for how
        `getMember` and then `getInstitution` settle. The table is rebuilt only when the
        institution has groups. */
    method Load(member: Response<Member>, institution: Response<Institution>)
      modifies this`isLoading, this`error, this`memberAuthorizations, this`accessLevelGroups
      ensures !isLoading
      ensures member.Failed? ==>
                && error == member.message && accessLevelGroups == old(accessLevelGroups)
                && memberAuthorizations == old(memberAuthorizations)
      ensures member.Ok? ==> memberAuthorizations == member.payload.authorizations
      ensures member.Ok? && institution.Failed? ==>
                error == institution.message && accessLevelGroups == old(accessLevelGroups)
      ensures member.Ok? && institution.Ok? && institution.payload.groups == [] ==>
                accessLevelGroups == old(accessLevelGroups) && error == old(error)
      ensures member.Ok? && institution.Ok? && institution.payload.groups != [] ==>
                && fresh(accessLevelGroups) && error == old(error)
                && accessLevelGroups[..] == BuildAccessTable(institution.payload.groups, member.payload.groupMembers)
    {
      match member
      case Failed(message) =>
        error := message;
        isLoading := false;
      case Ok(m) =>
        memberAuthorizations := m.authorizations;
        match institution
        case Failed(message) =>
          error := message;
          isLoading := false;
        case Ok(inst) =>
          isLoading := false;
          if |inst.groups| > 0 {
            var table := BuildAccessTable(inst.groups, m.groupMembers);
            accessLevelGroups := new AccessEntry[|table|](i requires 0 <= i < |table| => table[i]);
          }
    }

    /** `addMembership`, with `response` standing for how `postGroupMember` settles. The grant
        is created at level 1, and the answer is written into the group's row of the
        table's own array. */
    method AddMembership(groupId: string, response: Response<GroupMember>) returns (request: GrantPost)
      modifies accessLevelGroups, this`reload, this`error
      ensures request == GrantPost(groupId, memberId, 1)
      ensures accessLevelGroups == old(accessLevelGroups)
      ensures response.Ok? ==>
                && accessLevelGroups[..] == Granted(old(accessLevelGroups[..]),
                                                    IndexOfGroup(old(accessLevelGroups[..]), groupId),
                                                    response.payload)
                && reload == !old(reload) && error == old(error)
      ensures response.Failed? ==>
                accessLevelGroups[..] == old(accessLevelGroups[..]) && error == response.message
                && reload == old(reload)
    {
      request := GrantPost(groupId, memberId, 1);
      match response
      case Ok(grant) =>
        var index := IndexOfGroup(accessLevelGroups[..], groupId);
        if index != -1 {
          accessLevelGroups[index] := WithGrant(accessLevelGroups[index], grant);
        }
        reload := !reload;
      case Failed(message) =>
        error := message;
    }

    /** Writes a patched grant into a copy of the table, as the two level moves do. */
    method WriteCopy(groupMemberId: Option<string>, grant: GroupMember)
      modifies this`accessLevelGroups, this`reload
      ensures fresh(accessLevelGroups)
      ensures accessLevelGroups[..] == Granted(old(accessLevelGroups[..]),
                                               IndexOfId(old(accessLevelGroups[..]), groupMemberId), grant)
      ensures reload == !old(reload)
    {
      var index := IndexOfId(accessLevelGroups[..], groupMemberId);
      var updated := new AccessEntry[accessLevelGroups.Length];
      forall i | 0 <= i < accessLevelGroups.Length {
        updated[i] := accessLevelGroups[i];
      }
      if index != -1 {
        updated[index] := WithGrant(accessLevelGroups[index], grant);
      }
      accessLevelGroups := updated;
      reload := !reload;
    }

    /** `upgradeMembership`, with `response` standing for how `patchGroupMember` settles.
        No call is made at the top of the ladder; a successful patch is written into a new
        copy of the table, leaving the old array as it was. */
    method UpgradeMembership(groupMemberId: Option<string>, current: Option<int>, response: Response<GroupMember>)
      returns (request: Option<GrantPatch>)
      modifies this`accessLevelGroups, this`reload, this`error
      ensures UpgradeTarget(current).None? ==>
                request.None? && accessLevelGroups == old(accessLevelGroups)
                && reload == old(reload) && error == old(error)
      ensures UpgradeTarget(current).Some? ==>
                request == Some(GrantPatch(groupMemberId, UpgradeTarget(current).value))
      ensures UpgradeTarget(current).Some? && response.Ok? ==>
                && fresh(accessLevelGroups)
                && accessLevelGroups[..] == Granted(old(accessLevelGroups[..]),
                                                    IndexOfId(old(accessLevelGroups[..]), groupMemberId),
                                                    response.payload)
                && reload == !old(reload)
                && error == old(error)
      ensures UpgradeTarget(current).Some? && response.Failed? ==>
                accessLevelGroups == old(accessLevelGroups) && reload == old(reload) && error == response.message
      ensures old(accessLevelGroups)[..] == old(accessLevelGroups[..])
    {
      var target := UpgradeTarget(current);
      if target.None? {
        return None;
      }
      request := Some(GrantPatch(groupMemberId, target.value));
      match response
      case Ok(grant) =>
        WriteCopy(groupMemberId, grant);
      case Failed(message) =>
        error := message;
    }

    /** `downgradeMembership`: as `UpgradeMembership`, one step down. */
    method DowngradeMembership(groupMemberId: Option<string>, current: Option<int>, response: Response<GroupMember>)
      returns (request: Option<GrantPatch>)
      modifies this`accessLevelGroups, this`reload, this`error
      ensures DowngradeTarget(current).None? ==>
                request.None? && accessLevelGroups == old(accessLevelGroups)
                && reload == old(reload) && error == old(error)
      ensures DowngradeTarget(current).Some? ==>
                request == Some(GrantPatch(groupMemberId, DowngradeTarget(current).value))
      ensures DowngradeTarget(current).Some? && response.Ok? ==>
                && fresh(accessLevelGroups)
                && accessLevelGroups[..] == Granted(old(accessLevelGroups[..]),
                                                    IndexOfId(old(accessLevelGroups[..]), groupMemberId),
                                                    response.payload)
                && reload == !old(reload)
                && error == old(error)
      ensures DowngradeTarget(current).Some? && response.Failed? ==>
                accessLevelGroups == old(accessLevelGroups) && reload == old(reload) && error == response.message
      ensures old(accessLevelGroups)[..] == old(accessLevelGroups[..])
    {
      var target := DowngradeTarget(current);
      if target.None? {
        return None;
      }
      request := Some(GrantPatch(groupMemberId, target.value));
      match response
      case Ok(grant) =>
        WriteCopy(groupMemberId, grant);
      case Failed(message) =>
        error := message;
    }

    /** `removeMembership`, with `response` standing for how `deleteGroupMember` settles: the
        matching row of the table's own array loses its id and keeps everything else. */
    method RemoveMembership(groupMemberId: Option<string>, response: Response<()>)
      modifies accessLevelGroups, this`reload, this`error
      ensures accessLevelGroups == old(accessLevelGroups)
      ensures response.Ok? ==>
                && var index := IndexOfId(old(accessLevelGroups[..]), groupMemberId);
                && accessLevelGroups[..] == (if index == -1 then old(accessLevelGroups[..])
                                             else Replace(old(accessLevelGroups[..]), index,
                                                          old(accessLevelGroups[index]).(id := None)))
                && reload == !old(reload) && error == old(error)
      ensures response.Failed? ==>
                accessLevelGroups[..] == old(accessLevelGroups[..]) && error == response.message
                && reload == old(reload)
    {
      match response
      case Ok(_) =>
        var index := IndexOfId(accessLevelGroups[..], groupMemberId);
        if index != -1 {
          accessLevelGroups[index] := accessLevelGroups[index].(id := None);
        }
        reload := !reload;
      case Failed(message) =>
        error := message;
    }

    /** The moderator button: `depromoteMember` for a member at 111, `promoteMember` for
        anyone else, with `response` standing for the member's level `patchMember` returns. */
    method ToggleModerator(response: Response<int>) returns (request: int)
      modifies this`memberAuthorizations, this`confirmPromoteUser, this`confirmDepromoteUser, this`error
      ensures request == ModeratorTarget(old(memberAuthorizations))
      ensures response.Ok? ==>
                && memberAuthorizations == response.payload && error == old(error)
                && (old(memberAuthorizations) == 111 ==>
                      confirmDepromoteUser && confirmPromoteUser == old(confirmPromoteUser))
                && (old(memberAuthorizations) != 111 ==>
                      confirmPromoteUser && confirmDepromoteUser == old(confirmDepromoteUser))
      ensures response.Failed? ==>
                && error == response.message && memberAuthorizations == old(memberAuthorizations)
                && confirmPromoteUser == old(confirmPromoteUser)
                && confirmDepromoteUser == old(confirmDepromoteUser)
    {
      request := ModeratorTarget(memberAuthorizations);
      match response
      case Ok(level) =>
        if memberAuthorizations == 111 {
          confirmDepromoteUser := true;
        } else {
          confirmPromoteUser := true;
        }
        memberAuthorizations := level;
      case Failed(message) =>
        error := message;
    }

    /** `removeMember`, with `response` standing for how `deleteMember` settles. */
    method RemoveMember(response: Response<()>)
      modifies this`isRemoving, this`confirmRemoveUserIntention, this`confirmRemoveUser, this`error
      ensures !confirmRemoveUserIntention
      ensures response.Ok? ==> isRemoving && confirmRemoveUser && error == old(error)
      ensures response.Failed? ==>
                !isRemoving && error == response.message && confirmRemoveUser == old(confirmRemoveUser)
    {
      isRemoving := true;
      confirmRemoveUserIntention := false;
      match response
      case Ok(_) =>
        confirmRemoveUser := true;
      case Failed(message) =>
        error := message;
        isRemoving := false;
    }
  }
}
