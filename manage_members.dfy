/** The members screen of an institution: the fetched memberships sorted by
    name, split by invitation status, and searched by name. */
module ManageMembers {
  import opened Wrappers
  import opened Text
  import opened Lists
  import opened Sorting
  import opened Records
  function IsRejected(m: Member): bool
  {
    m.invitation == REJECTED
  }

  /** The members whose invitation is still pending. */
  function InvitedMembers(members: seq<Member>): (r: seq<Member>)
    ensures forall m :: m in r <==> m in members && m.invitation == PENDING
    ensures IsSubsequence(r, members)
  {
    Filter(members, IsPending)
  }

  /** The members who accepted their invitation: the ones the list shows. */
  function RealMembers(members: seq<Member>): (r: seq<Member>)
    ensures forall m :: m in r <==> m in members && m.invitation == ACCEPTED
    ensures IsSubsequence(r, members)
  {
    Filter(members, IsAccepted)
  }

  /** Every membership lands in exactly one of the invited list, the member list
      and the rejected ones that neither shows. */
  lemma MembersSplitByStatus(members: seq<Member>)
    ensures multiset(InvitedMembers(members)) + multiset(RealMembers(members))
            + multiset(Filter(members, IsRejected)) == multiset(members)
    ensures |InvitedMembers(members)| + |RealMembers(members)| + |Filter(members, IsRejected)| == |members|
  {
    FilterThreeWay(members, IsPending, IsAccepted, IsRejected);
  }

  class ManageMembersScreen {
    var isLoading: bool
    var error: string
    var search: string
    var members: seq<Member>

    constructor ()
      ensures isLoading && error == "" && search == "" && members == []
    {
      isLoading := true;
      error := "";
      search := "";
      members := [];
    }

    /** The list under the search box: accepted members whose name includes the search text. */
    function FilteredMembers(): (r: seq<Member>)
      reads this
      ensures forall m :: m in r <==> m in members && m.invitation == ACCEPTED
                                      && (search == "" || Contains(m.fullname, search))
    {
      Search(RealMembers(members), search, MemberName)
    }

    /** The search box is disabled while the list is empty. */
    predicate SearchDisabled()
      reads this
    {
      |members| == 0
    }

    /** Fetching the memberships: on success the fetched array is sorted by name in
        place and kept; on failure its message is shown. Either way loading ends. */
    method Load(response: Response<array<Member>>)
      modifies this`members, this`isLoading, this`error
      modifies if response.Ok? then {response.payload} else {}
      ensures !isLoading && search == old(search)
      ensures response.Ok? ==> && members == response.payload[..]
                               && multiset(members) == old(multiset(response.payload[..]))
                               && Stable(old(response.payload[..]), members, ByName(MemberName))
                               && SortedByName(members, MemberName)
                               && (SearchDisabled() <==> response.payload.Length == 0)
                               && error == old(error)
      ensures response.Failed? ==> members == old(members) && error == response.message
    {
      match response {
        case Ok(data) =>
          SortByName(data, MemberName);
          members := data[..];
        case Failed(message) =>
          error := message;
      }
      isLoading := false;
    }
  }
}
