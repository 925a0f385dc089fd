/** The people responsible for a group: the fetched grants sorted by the
    member's name and searched by it. */
module ManageGroupMembers {
  import opened Wrappers
  import opened Text
  import opened Lists
  import opened Sorting
  import opened Records
  class ManageGroupMembersScreen {
    var isLoading: bool
    var error: string
    var search: string
    var groupMembers: seq<GroupMember>

    constructor ()
      ensures isLoading && error == "" && search == "" && groupMembers == []
    {
      isLoading := true;
      error := "";
      search := "";
      groupMembers := [];
    }

    /** The list under the search box: every grant while the search is empty,
        otherwise those whose member's name includes the search text, in order. */
    function FilteredGroupMembers(): (r: seq<GroupMember>)
      reads this
      ensures forall g :: g in r <==> g in groupMembers && (search == "" || Contains(g.memberFullname, search))
      ensures IsSubsequence(r, groupMembers)
    {
      Search(groupMembers, search, GroupMemberName)
    }

    /** The search box is disabled while the list is empty. */
    predicate SearchDisabled()
      reads this
    {
      |groupMembers| == 0
    }

    /** Fetching the grants of the group: on success the fetched array is sorted by
        member name in place and kept; on failure its message is shown. */
    method Load(response: Response<array<GroupMember>>)
      modifies this`groupMembers, this`isLoading, this`error
      modifies if response.Ok? then {response.payload} else {}
      ensures !isLoading && search == old(search)
      ensures response.Ok? ==> && groupMembers == response.payload[..]
                               && multiset(groupMembers) == old(multiset(response.payload[..]))
                               && Stable(old(response.payload[..]), groupMembers, ByName(GroupMemberName))
                               && SortedByName(groupMembers, GroupMemberName)
                               && (SearchDisabled() <==> response.payload.Length == 0)
                               && error == old(error)
      ensures response.Failed? ==> groupMembers == old(groupMembers) && error == response.message
    {
      match response {
        case Ok(data) =>
          SortByName(data, GroupMemberName);
          groupMembers := data[..];
        case Failed(message) =>
          error := message;
      }
      isLoading := false;
    }
  }
}
