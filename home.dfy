/** The home screen: the list of institutions the user owns or takes part in, the
    owned/participating tabs, the pending-invitation badge and the create action. */
module Home {
  import opened Wrappers
  import opened Records
  import opened Lists

  /** `getUser`'s answer, reduced to the owned institutions and the memberships. */
  datatype UserData = UserData(institutions: seq<Institution>, memberships: seq<Member>)

  /** A row of the institution list. */
  datatype InstitutionItem = InstitutionItem(
    id: string, name: string, members: int, owned: bool, memberId: Option<string>, memberPermissions: Option<int>)

  /** The row of an owned institution; `userId` is absent when the store has no user. */
  function OwnedItem(userId: Option<string>, institution: Institution): InstitutionItem
  {
    InstitutionItem(institution.id, institution.name, institution.memberCount,
                    Some(institution.ownerId) == userId, None, None)
  }

  /** The row of an accepted membership. */
  function ParticipatingItem(userId: Option<string>, membership: Member): InstitutionItem
  {
    var institution := membership.institution;
    InstitutionItem(institution.id, institution.name, institution.memberCount,
                    Some(institution.ownerId) == userId, Some(membership.id), Some(membership.authorizations))
  }

  /** `userData.Institution.map(...)`. */
  function OwnedItems(userId: Option<string>, institutions: seq<Institution>): (r: seq<InstitutionItem>)
    ensures |r| == |institutions|
    ensures forall i :: 0 <= i < |r| ==> r[i] == OwnedItem(userId, institutions[i])
  {
    seq(|institutions|, i requires 0 <= i < |institutions| => OwnedItem(userId, institutions[i]))
  }

  /** `userData.Member.map(...).filter(item => item !== null)`: a row per accepted membership. */
  function ParticipatingItems(userId: Option<string>, memberships: seq<Member>): seq<InstitutionItem>
  {
    if memberships == [] then []
    else (if memberships[0].invitation == ACCEPTED then [ParticipatingItem(userId, memberships[0])] else [])
         + ParticipatingItems(userId, memberships[1..])
  }

  /** `r` holds the participating row of each membership of `accepted`, in order. */
  predicate RowsOf(r: seq<InstitutionItem>, userId: Option<string>, accepted: seq<Member>)
  {
    |r| == |accepted| && forall i :: 0 <= i < |r| ==> r[i] == ParticipatingItem(userId, accepted[i])
  }

  lemma RowsOfCons(userId: Option<string>, m: Member, r: seq<InstitutionItem>, accepted: seq<Member>)
    requires RowsOf(r, userId, accepted)
    ensures RowsOf([ParticipatingItem(userId, m)] + r, userId, [m] + accepted)
  {
  }

  /** The participating rows are exactly the accepted memberships, in order. */
  lemma {:induction false} ParticipatingAreAccepted(userId: Option<string>, memberships: seq<Member>)
    ensures var r, accepted := ParticipatingItems(userId, memberships), Filter(memberships, IsAccepted);
            |r| == |accepted| && forall i :: 0 <= i < |r| ==> r[i] == ParticipatingItem(userId, accepted[i])
  {
    if memberships != [] {
      var m := memberships[0];
      ParticipatingAreAccepted(userId, memberships[1..]);
      var rest, acceptedRest := ParticipatingItems(userId, memberships[1..]), Filter(memberships[1..], IsAccepted);
      assert RowsOf(rest, userId, acceptedRest);
      FilterCons(memberships, IsAccepted);
      if IsAccepted(m) {
        assert ParticipatingItems(userId, memberships) == [ParticipatingItem(userId, m)] + rest;
        assert Filter(memberships, IsAccepted) == [m] + acceptedRest;
        RowsOfCons(userId, m, rest, acceptedRest);
      } else {
        assert ParticipatingItems(userId, memberships) == rest;
        assert Filter(memberships, IsAccepted) == acceptedRest;
      }
    }
  }

  /** The full list: owned rows, then participating rows. */
  function InstitutionList(userId: Option<string>, data: UserData): (r: seq<InstitutionItem>)
    ensures |r| >= |data.institutions|
    ensures r[..|data.institutions|] == OwnedItems(userId, data.institutions)
    ensures r[|data.institutions|..] == ParticipatingItems(userId, data.memberships)
  {
    OwnedItems(userId, data.institutions) + ParticipatingItems(userId, data.memberships)
  }

  /** Every owned row has no membership id, and participating rows always have one. */
  lemma {:induction false} MembershipIdMarksParticipation(userId: Option<string>, data: UserData)
    ensures var r := InstitutionList(userId, data);
            forall i :: 0 <= i < |r| ==> (r[i].memberId.None? <==> i < |data.institutions|)
  {
    ParticipatingAreAccepted(userId, data.memberships);
  }

  /** `institutions.filter(item => item.owned === (selectedFilter === 'first'))`. */
  function Tab(items: seq<InstitutionItem>, first: bool): (r: seq<InstitutionItem>)
    ensures forall i :: 0 <= i < |r| ==> r[i].owned == first
    ensures forall i :: 0 <= i < |items| && items[i].owned == first ==> items[i] in r
  {
    if |items| == 0 then [] else Filter(items, (item: InstitutionItem) => item.owned == first)
  }

  /** The two tabs split the list: every row is in exactly one of them. */
  lemma TabsPartition(items: seq<InstitutionItem>)
    ensures multiset(Tab(items, true)) + multiset(Tab(items, false)) == multiset(items)
  {
    if |items| > 0 {
      FilterPartition(items, (item: InstitutionItem) => item.owned == true, (item: InstitutionItem) => item.owned == false);
    }
  }

  /** `pendingInvites`: the user's data has loaded and some membership awaits an answer. */
  function PendingInvites(data: Option<UserData>): (r: bool)
    ensures r <==> data.Some? && exists k :: 0 <= k < |data.value.memberships| && data.value.memberships[k].invitation == PENDING
  {
    if data.None? then false
    else
      var pending := Filter(data.value.memberships, IsPending);
      assert pending != [] ==> IsPending(pending[0]) && pending[0] in data.value.memberships;
      |pending| > 0
  }

  /** The create-institution action: it opens the form for the user as owner only for an
      administrator, and does nothing otherwise. */
  function CreateInstitution(user: Option<User>): (ownerId: Option<string>)
    ensures ownerId.Some? <==> user.Some? && user.value.isAdmin
    ensures ownerId.Some? ==> ownerId.value == user.value.id
  {
    if user.Some? && user.value.isAdmin then Some(user.value.id) else None
  }

  class HomeScreen {
    /** The signed-in user's id, as the store has it. */
    const userId: Option<string>
    var userData: Option<UserData>
    var selectedFirst: bool
    var institutions: seq<InstitutionItem>
    var isLoading: bool
    var error: string

    constructor (userId: Option<string>)
      ensures this.userId == userId && userData.None? && selectedFirst && institutions == []
      ensures isLoading && error == ""
    {
      this.userId := userId;
      userData, selectedFirst, institutions, isLoading, error := None, true, [], true, "";
    }

    /** The rows of the selected tab. */
    function Filtered(): seq<InstitutionItem>
      reads this
    {
      Tab(institutions, selectedFirst)
    }

    /** The focus effect and the list effect, with `response` standing for how `getUser` settles. */
    method Load(response: Response<UserData>)
      modifies this`userData, this`institutions, this`isLoading, this`error
      ensures !isLoading
      ensures response.Ok? ==>
                && userData == Some(response.payload) && error == old(error)
                && institutions == InstitutionList(userId, response.payload)
      ensures response.Failed? ==>
                userData == old(userData) && institutions == old(institutions) && error == response.message
    {
      match response
      case Ok(data) =>
        userData := Some(data);
        isLoading := false;
        institutions := InstitutionList(userId, data);
      case Failed(message) =>
        error := message;
        isLoading := false;
    }

    /** The filter buttons. */
    method SelectFilter(first: bool)
      modifies this`selectedFirst
      ensures selectedFirst == first
      ensures forall i :: 0 <= i < |Filtered()| ==> Filtered()[i].owned == first
    {
      selectedFirst := first;
    }
  }
}
