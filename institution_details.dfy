/** The institution-details screen: the moderator test, the groups the signed-in member
    can see, the permissions the screen puts in the store, and the actions it enables. */
module InstitutionDetails {
  import opened Wrappers
  import opened Records
  import opened Lists
  import Authorization
  import EditMember

  /** `memberPermissions && memberPermissions === 222`, read as a condition. */
  function IsModerator(memberPermissions: Option<int>): (r: bool)
    ensures r <==> memberPermissions == Some(222)
  {
    memberPermissions.Some? && memberPermissions.value != 0 && memberPermissions.value == 222
  }

  /** The moderator button of the edit-member screen sends 111 or 1, so a member it
      promotes is never a moderator by this screen's test. */
  lemma PromotedMemberIsNotModerator(authorizations: int)
    ensures !IsModerator(Some(EditMember.ModeratorTarget(authorizations)))
  {
  }

  /** A row of the group list. */
  datatype GroupItem = GroupItem(id: string, name: string, patientCount: int, groupMemberId: Option<string>)

  /** The row for one group, or `None` (`undefined`) for a group a non-owner has no grant on. */
  function ItemFor(isOwner: bool, group: Group, grants: seq<GroupMember>): Option<GroupItem>
  {
    if isOwner then Some(GroupItem(group.id, group.name, group.patientCount, None))
    else
      match FindByGroup(grants, group.id)
      case Some(grant) => Some(GroupItem(group.id, group.name, group.patientCount, Some(grant.id)))
      case None => None
  }

  /** `institutionData.Group.map(...)`. */
  function Items(isOwner: bool, groups: seq<Group>, grants: seq<GroupMember>): (r: seq<Option<GroupItem>>)
    ensures |r| == |groups|
  {
    if groups == [] then [] else [ItemFor(isOwner, groups[0], grants)] + Items(isOwner, groups[1..], grants)
  }

  /** `.filter(group => group !== undefined)`. */
  function Present(items: seq<Option<GroupItem>>): (r: seq<GroupItem>)
    ensures |r| <= |items|
  {
    if items == [] then []
    else (if items[0].Some? then [items[0].value] else []) + Present(items[1..])
  }

  /** The list the screen shows. */
  function VisibleGroups(isOwner: bool, groups: seq<Group>, grants: seq<GroupMember>): seq<GroupItem>
  {
    Present(Items(isOwner, groups, grants))
  }

  /** Whether the member holds a grant on a group. */
  function HasGrantOn(grants: seq<GroupMember>): Group -> bool
  {
    (g: Group) => FindByGroup(grants, g.id).Some?
  }

  /** The groups behind the visible rows: all of them for an owner, otherwise those the
      member holds a grant on, in the institution's order. */
  function VisibleSource(isOwner: bool, groups: seq<Group>, grants: seq<GroupMember>): (r: seq<Group>)
    ensures IsSubsequence(r, groups)
  {
    if isOwner then (SubsequenceReflexive(groups); groups) else Filter(groups, HasGrantOn(grants))
  }

  /** `item` is the row shown for `group`: it copies the group, and carries no grant id
      for an owner and the id of the member's first grant on the group otherwise. */
  predicate RowFor(item: GroupItem, group: Group, isOwner: bool, grants: seq<GroupMember>)
  {
    && item.id == group.id && item.name == group.name && item.patientCount == group.patientCount
    && if isOwner then item.groupMemberId.None?
       else FindByGroup(grants, group.id).Some? && item.groupMemberId == Some(FindByGroup(grants, group.id).value.id)
  }

  predicate RowsFor(r: seq<GroupItem>, src: seq<Group>, isOwner: bool, grants: seq<GroupMember>)
  {
    |r| == |src| && forall i :: 0 <= i < |r| ==> RowFor(r[i], src[i], isOwner, grants)
  }

  /** One group's step: it contributes a row to the visible list exactly when it
      contributes itself to `VisibleSource`, and that row is its own. */
  lemma VisibleStep(isOwner: bool, groups: seq<Group>, grants: seq<GroupMember>)
    requires groups != []
    ensures var item := ItemFor(isOwner, groups[0], grants);
            && VisibleGroups(isOwner, groups, grants)
               == (if item.Some? then [item.value] else []) + VisibleGroups(isOwner, groups[1..], grants)
            && VisibleSource(isOwner, groups, grants)
               == (if item.Some? then [groups[0]] else []) + VisibleSource(isOwner, groups[1..], grants)
            && (item.Some? ==> RowFor(item.value, groups[0], isOwner, grants))
  {
    var item := ItemFor(isOwner, groups[0], grants);
    assert Items(isOwner, groups, grants) == [item] + Items(isOwner, groups[1..], grants);
    if isOwner {
      assert groups == [groups[0]] + groups[1..];
    } else {
      FilterCons(groups, HasGrantOn(grants));
    }
  }

  lemma RowsForCons(item: GroupItem, group: Group, r: seq<GroupItem>, src: seq<Group>, isOwner: bool, grants: seq<GroupMember>)
    requires RowFor(item, group, isOwner, grants) && RowsFor(r, src, isOwner, grants)
    ensures RowsFor([item] + r, [group] + src, isOwner, grants)
  {
    forall i | 1 <= i < |r| + 1 ensures RowFor(([item] + r)[i], ([group] + src)[i], isOwner, grants) {
      assert ([item] + r)[i] == r[i - 1] && ([group] + src)[i] == src[i - 1];
    }
  }

  /** The visible list has one row per group of `VisibleSource`, in order. */
  lemma {:induction false} VisibleGroupsFollowSource(isOwner: bool, groups: seq<Group>, grants: seq<GroupMember>)
    ensures RowsFor(VisibleGroups(isOwner, groups, grants), VisibleSource(isOwner, groups, grants), isOwner, grants)
  {
    if groups != [] {
      VisibleGroupsFollowSource(isOwner, groups[1..], grants);
      VisibleStep(isOwner, groups, grants);
      var item := ItemFor(isOwner, groups[0], grants);
      if item.Some? {
        RowsForCons(item.value, groups[0], VisibleGroups(isOwner, groups[1..], grants),
                    VisibleSource(isOwner, groups[1..], grants), isOwner, grants);
      }
    }
  }

  /** An owner sees every group of the institution, in order. */
  lemma OwnerSeesEveryGroup(groups: seq<Group>, grants: seq<GroupMember>)
    ensures |VisibleGroups(true, groups, grants)| == |groups|
    ensures forall i :: 0 <= i < |groups| ==>
              VisibleGroups(true, groups, grants)[i] == GroupItem(groups[i].id, groups[i].name, groups[i].patientCount, None)
  {
    VisibleGroupsFollowSource(true, groups, grants);
  }

  /** A member sees a group exactly when holding a grant on it. */
  lemma MemberSeesGrantedGroups(groups: seq<Group>, grants: seq<GroupMember>)
    ensures forall i :: 0 <= i < |VisibleGroups(false, groups, grants)| ==>
              exists k :: 0 <= k < |grants| && grants[k].groupId == VisibleGroups(false, groups, grants)[i].id
    ensures forall j :: 0 <= j < |groups| && (exists k :: 0 <= k < |grants| && grants[k].groupId == groups[j].id) ==>
              groups[j] in VisibleSource(false, groups, grants)
  {
    VisibleGroupsFollowSource(false, groups, grants);
    var src := VisibleSource(false, groups, grants);
    forall i | 0 <= i < |VisibleGroups(false, groups, grants)|
      ensures exists k :: 0 <= k < |grants| && grants[k].groupId == VisibleGroups(false, groups, grants)[i].id
    {
      assert HasGrantOn(grants)(src[i]);
    }
    forall j | 0 <= j < |groups| && (exists k :: 0 <= k < |grants| && grants[k].groupId == groups[j].id)
      ensures groups[j] in src
    {
      assert HasGrantOn(grants)(groups[j]);
    }
  }

  /** Manage and the new-group action need ownership or moderation. */
  function ManageEnabled(isOwner: bool, memberPermissions: Option<int>): (r: bool)
    ensures r <==> isOwner || memberPermissions == Some(222)
  {
    isOwner || IsModerator(memberPermissions)
  }

  class InstitutionDetailsScreen {
    /** The route parameters. */
    const isOwner: bool
    const memberPermissions: Option<int>
    var institutionData: Option<Institution>
    var memberGroupMemberships: Option<seq<GroupMember>>
    var groups: seq<GroupItem>
    var isLoading: bool

    constructor (isOwner: bool, memberPermissions: Option<int>)
      ensures this.isOwner == isOwner && this.memberPermissions == memberPermissions
      ensures institutionData.None? && memberGroupMemberships.None? && groups == [] && isLoading
    {
      this.isOwner, this.memberPermissions := isOwner, memberPermissions;
      institutionData, memberGroupMemberships, groups, isLoading := None, None, [], true;
    }

    /** The mount effect, the focus effect and the list effect, with `institution` and
        `member` standing for how `getInstitution` and `getMember` settle, and `store` for the
        permissions slice before the mount. An owner's grants are taken to be empty; while a
        member's grants have never loaded, the screen stays in the loading state. */
    method Load(institution: Response<Institution>, member: Response<Member>, store: Authorization.AccessState)
      returns (memberRequested: bool, newStore: Authorization.AccessState)
      modifies this`institutionData, this`memberGroupMemberships, this`groups, this`isLoading
      ensures newStore == Authorization.SetInstitutionPermissions(store, isOwner, IsModerator(memberPermissions))
      ensures memberRequested <==> institution.Ok? && !isOwner
      ensures institutionData == if institution.Ok? then Some(institution.payload) else old(institutionData)
      ensures memberGroupMemberships ==
                if institution.Failed? then old(memberGroupMemberships)
                else if isOwner then Some([])
                else if member.Ok? then Some(member.payload.groupMembers)
                else old(memberGroupMemberships)
      ensures institution.Ok? && memberGroupMemberships.Some? ==>
                && !isLoading
                && groups == VisibleGroups(isOwner, institution.payload.groups, memberGroupMemberships.value)
      ensures institution.Failed? || memberGroupMemberships.None? ==>
                isLoading == old(isLoading) && groups == old(groups)
    {
      newStore := Authorization.SetInstitutionPermissions(store, isOwner, IsModerator(memberPermissions));
      memberRequested := false;
      match institution
      case Failed(_) =>
      case Ok(inst) =>
        institutionData := Some(inst);
        if !isOwner {
          memberRequested := true;
          if member.Ok? {
            memberGroupMemberships := Some(member.payload.groupMembers);
          }
        } else {
          memberGroupMemberships := Some([]);
        }
        if memberGroupMemberships.Some? {
          groups := VisibleGroups(isOwner, inst.groups, memberGroupMemberships.value);
          isLoading := false;
        }
    }
  }
}
