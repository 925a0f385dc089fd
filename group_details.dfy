/** The group-details screen: the capabilities a group grant confers, the numbered patient
    list, which requests the screen makes, and which actions it enables. */
module GroupDetails {
  import opened Wrappers
  import opened Text
  import opened Records
  import opened Authorization
  import EditMember

  /** `getGroupMemberAccessLevel`: the capabilities of a level, read as decimal magnitudes;
      an absent or zero level grants nothing. */
  function AccessLevel(authorizations: Option<int>): GroupPermissions
  {
    if authorizations.None? || authorizations.value == 0 then NoGroupPermissions
    else
      var a := authorizations.value;
      GroupPermissions(a >= 1, a >= 11, a >= 111)
  }

  /** Each capability is exactly a threshold on the level, so they are nested. */
  lemma AccessLevelThresholds(authorizations: Option<int>)
    ensures var p := AccessLevel(authorizations);
            && (p.canRead <==> authorizations.Some? && authorizations.value >= 1)
            && (p.canWrite <==> authorizations.Some? && authorizations.value >= 11)
            && (p.canDelete <==> authorizations.Some? && authorizations.value >= 111)
            && (p.canDelete ==> p.canWrite) && (p.canWrite ==> p.canRead)
  {
  }

  /** The three ladder levels grant read, read-write and read-write-delete. */
  lemma LadderCapabilities()
    ensures AccessLevel(Some(1)) == GroupPermissions(true, false, false)
    ensures AccessLevel(Some(11)) == GroupPermissions(true, true, false)
    ensures AccessLevel(Some(111)) == GroupPermissions(true, true, true)
  {
  }

  /** The number of capabilities a grant confers. */
  function CapabilityCount(p: GroupPermissions): nat
  {
    (if p.canRead then 1 else 0) + (if p.canWrite then 1 else 0) + (if p.canDelete then 1 else 0)
  }

  /** On the ladder, an upgrade adds exactly one capability and a downgrade takes one away. */
  lemma LadderMovesOneCapability(level: int)
    requires EditMember.IsLadderLevel(level)
    ensures EditMember.UpgradeTarget(Some(level)).Some? ==>
              CapabilityCount(AccessLevel(EditMember.UpgradeTarget(Some(level))))
              == CapabilityCount(AccessLevel(Some(level))) + 1
    ensures EditMember.DowngradeTarget(Some(level)).Some? ==>
              CapabilityCount(AccessLevel(EditMember.DowngradeTarget(Some(level))))
              == CapabilityCount(AccessLevel(Some(level))) - 1
  {
    LadderCapabilities();
  }

  /** A row of the patient list; the days since the last update are not modelled. */
  datatype PatientItem = PatientItem(id: string, name: string, patientName: string)

  /** The patient list: one row per patient, in the group's order. */
  function PatientItems(patients: seq<Patient>): (r: seq<PatientItem>)
    ensures |r| == |patients|
    ensures forall k :: 0 <= k < |r| ==>
              r[k].id == patients[k].id && r[k].patientName == patients[k].fullname
              && r[k].name == NumberedTitle("Paciente ", k)
  {
    seq(|patients|, k requires 0 <= k < |patients| => PatientItem(patients[k].id, NumberedTitle("Paciente ", k), patients[k].fullname))
  }

  /** The actions the screen enables. */
  datatype GroupActions = GroupActions(manage: bool, addPatient: bool)

  /** Manage needs ownership or moderation; adding a patient needs either of those or the
      write capability of the member's grant. */
  function Actions(isOwner: bool, isModerator: bool, authorizations: Option<int>): (r: GroupActions)
    ensures r.manage <==> isOwner || isModerator
    ensures r.addPatient <==> isOwner || isModerator || (authorizations.Some? && authorizations.value >= 11)
    ensures r.manage ==> r.addPatient
  {
    AccessLevelThresholds(authorizations);
    GroupActions(isOwner || isModerator, isOwner || isModerator || AccessLevel(authorizations).canWrite)
  }

  class GroupDetailsScreen {
    /** The store's institution flags, fixed while the screen is shown. */
    const isOwner: bool
    const isModerator: bool
    var groupData: Option<Group>
    var groupMemberData: Option<GroupMember>
    var patients: seq<PatientItem>
    var isLoading: bool

    constructor (isOwner: bool, isModerator: bool)
      ensures this.isOwner == isOwner && this.isModerator == isModerator
      ensures groupData.None? && groupMemberData.None? && patients == [] && isLoading
    {
      this.isOwner, this.isModerator := isOwner, isModerator;
      groupData, groupMemberData, patients, isLoading := None, None, [], true;
    }

    /** The actions as the screen currently enables them. */
    function CurrentActions(): GroupActions
      reads this
    {
      Actions(isOwner, isModerator, if groupMemberData.Some? then Some(groupMemberData.value.authorizations) else None)
    }

    /** The focus effect and the two effects after it, with `group` and `grant` standing for
        how `getGroup` and `getGroupMember` settle. An owner never asks for a grant, and
        group permissions are dispatched only once a grant has arrived. */
    method Load(group: Response<Group>, grant: Response<GroupMember>)
      returns (grantRequested: bool, dispatched: Option<GroupPermissions>)
      modifies this`groupData, this`groupMemberData, this`patients, this`isLoading
      ensures !isLoading
      ensures grantRequested <==> group.Ok? && !isOwner
      ensures dispatched.Some? <==> grantRequested && grant.Ok?
      ensures dispatched.Some? ==> dispatched.value == AccessLevel(Some(grant.payload.authorizations))
      ensures group.Ok? ==> groupData == Some(group.payload) && patients == PatientItems(group.payload.patients)
      ensures group.Failed? ==> groupData == old(groupData) && patients == old(patients)
      ensures groupMemberData == (if dispatched.Some? then Some(grant.payload) else old(groupMemberData))
    {
      grantRequested, dispatched := false, None;
      match group
      case Failed(_) =>
        isLoading := false;
      case Ok(g) =>
        groupData := Some(g);
        if !isOwner {
          grantRequested := true;
          if grant.Ok? {
            groupMemberData := Some(grant.payload);
          }
        }
        patients := PatientItems(g.patients);
        isLoading := false;
        if grantRequested && grant.Ok? {
          dispatched := Some(AccessLevel(Some(groupMemberData.value.authorizations)));
        }
    }
  }
}
