/** The `authorization` slice of the store: the permissions of the signed-in
    user in the institution and group being browsed. */
module Authorization {
  import opened Wrappers

  datatype GroupPermissions = GroupPermissions(canRead: bool, canWrite: bool, canDelete: bool)

  datatype AccessState = AccessState(isOwner: bool, isModerator: bool, groupPermissions: GroupPermissions)

  const NoGroupPermissions: GroupPermissions := GroupPermissions(false, false, false)

  /** The initial state grants nothing. */
  const InitialAccess: AccessState := AccessState(false, false, NoGroupPermissions)

  /** `{ ...state, isOwner, isModerator }`: the institution flags are overwritten, the group slice kept. */
  function SetInstitutionPermissions(s: AccessState, isOwner: bool, isModerator: bool): (r: AccessState)
    ensures r.isOwner == isOwner && r.isModerator == isModerator
    ensures r.groupPermissions == s.groupPermissions
  {
    s.(isOwner := isOwner, isModerator := isModerator)
  }

  /** `{ ...state, groupPermissions: { ...payload } }`: the group slice is replaced, the institution flags kept. */
  function SetGroupPermissions(s: AccessState, permissions: GroupPermissions): (r: AccessState)
    ensures r.groupPermissions == permissions
    ensures r.isOwner == s.isOwner && r.isModerator == s.isModerator
  {
    s.(groupPermissions := permissions)
  }

  /** The two setters touch disjoint slices, so their order does not matter. */
  lemma SettersCommute(s: AccessState, isOwner: bool, isModerator: bool, permissions: GroupPermissions)
    ensures SetGroupPermissions(SetInstitutionPermissions(s, isOwner, isModerator), permissions)
         == SetInstitutionPermissions(SetGroupPermissions(s, permissions), isOwner, isModerator)
  {
  }

  /** Applying a setter twice with the same payload is the same as applying it once. */
  lemma SettersIdempotent(s: AccessState, isOwner: bool, isModerator: bool, permissions: GroupPermissions)
    ensures SetInstitutionPermissions(SetInstitutionPermissions(s, isOwner, isModerator), isOwner, isModerator)
         == SetInstitutionPermissions(s, isOwner, isModerator)
    ensures SetGroupPermissions(SetGroupPermissions(s, permissions), permissions)
         == SetGroupPermissions(s, permissions)
  {
  }

  datatype Action = InstitutionAction(owner: bool, moderator: bool) | GroupAction(permissions: GroupPermissions)

  function Reduce(s: AccessState, a: Action): AccessState
  {
    match a
    case InstitutionAction(o, m) => SetInstitutionPermissions(s, o, m)
    case GroupAction(p) => SetGroupPermissions(s, p)
  }

  /** The state after dispatching `actions` in order, starting from `s`. */
  function Run(s: AccessState, actions: seq<Action>): AccessState
  {
    if actions == [] then s else Reduce(Run(s, actions[..|actions| - 1]), actions[|actions| - 1])
  }

  /** The institution flags carried by the latest institution action, if any. */
  function LastInstitution(actions: seq<Action>): Option<(bool, bool)>
  {
    if actions == [] then None
    else match actions[|actions| - 1]
      case InstitutionAction(o, m) => Some((o, m))
      case GroupAction(_) => LastInstitution(actions[..|actions| - 1])
  }

  /** The group permissions carried by the latest group action, if any. */
  function LastGroup(actions: seq<Action>): Option<GroupPermissions>
  {
    if actions == [] then None
    else match actions[|actions| - 1]
      case GroupAction(p) => Some(p)
      case InstitutionAction(_, _) => LastGroup(actions[..|actions| - 1])
  }

  /** Over any sequence of dispatches, each slice holds the payload of the latest action
      for that slice (or its initial value): neither setter ever clobbers the other's slice. */
  lemma {:induction false} SlicesFollowTheirOwnActions(actions: seq<Action>)
    ensures var r := Run(InitialAccess, actions);
            && (match LastInstitution(actions)
                case None => !r.isOwner && !r.isModerator
                case Some(f) => r.isOwner == f.0 && r.isModerator == f.1)
            && r.groupPermissions == (match LastGroup(actions)
                                      case None => NoGroupPermissions
                                      case Some(p) => p)
  {
    if actions != [] {
      SlicesFollowTheirOwnActions(actions[..|actions| - 1]);
    }
  }
}
