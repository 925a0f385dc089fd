/** The invitations screen: the pending invitations of the user and the accept/decline
    action. The fetched memberships are objects whose status the action changes in place. */
module Invitations {
  import opened Wrappers
  import opened Records
  import opened Lists

  /** A membership as the screen holds it: its id never changes, its status may. */
  class Invitation {
    const id: string
    var invitation: Status

    constructor (id: string, invitation: Status)
      ensures this.id == id && this.invitation == invitation
    {
      this.id := id;
      this.invitation := invitation;
    }
  }

  /** `invitations.filter(i => i.invitation === 'PENDING')`. */
  function PendingOf(s: seq<Invitation>): (r: seq<Invitation>)
    reads s
    ensures forall k :: 0 <= k < |r| ==> r[k] in s && r[k].invitation == PENDING
    ensures forall k :: 0 <= k < |s| && s[k].invitation == PENDING ==> s[k] in r
  {
    if s == [] then []
    else (if s[0].invitation == PENDING then [s[0]] else []) + PendingOf(s[1..])
  }

  /** `findIndex(invite => invite.id === id)`. */
  function IndexOfId(s: seq<Invitation>, id: string): int
  {
    FindIndex(s, (invite: Invitation) => invite.id == id)
  }


  /** The status an answer sets. */
  function AnswerStatus(accepted: bool): (r: Status)
    ensures r != PENDING
    ensures r == ACCEPTED <==> accepted
  {
    if accepted then ACCEPTED else REJECTED
  }

  /** The arguments of `patchMember` for an answer. */
  datatype AnswerRequest = AnswerRequest(memberId: string, invitation: Status)

  class InvitationsScreen {
    var isLoading: bool
    var invitations: seq<Invitation>
    var error: string

    constructor ()
      ensures !isLoading && invitations == [] && error == ""
    {
      isLoading, invitations, error := false, [], "";
    }

    /** `pendingInvitations`: nothing while loading, otherwise the pending invitations. */
    function Pending(): (r: seq<Invitation>)
      reads this, invitations
      ensures isLoading ==> r == []
      ensures !isLoading ==> forall k :: 0 <= k < |invitations| ==>
                (invitations[k] in r <==> invitations[k].invitation == PENDING)
    {
      if isLoading then [] else PendingOf(invitations)
    }

    /** The mount effect, with `response` standing for the memberships `getUser` returns. */
    method Load(response: Response<seq<Invitation>>)
      modifies this`invitations, this`isLoading, this`error
      ensures !isLoading
      ensures response.Ok? ==> invitations == response.payload && error == old(error)
      ensures response.Failed? ==> invitations == old(invitations) && error == response.message
    {
      match response
      case Ok(members) =>
        invitations := members;
        isLoading := false;
      case Failed(message) =>
        error := message;
        isLoading := false;
    }

    /** `updateInvite`, with `response` standing for how `patchMember` settles. On success
        the first invitation with the id takes the new status, in place: the shallow copy
        the screen stores holds the same objects. Nothing else changes. When no invitation
        has the id, the status is written to an element that does not exist: the JavaScript
        engine throws a TypeError, whose message `typeError` (its wording depends on the
        engine) reaches the error popup. */
    method UpdateInvite(id: string, accepted: bool, response: Response<()>, typeError: string)
        returns (request: AnswerRequest)
      modifies this`invitations, this`error, invitations
      ensures request == AnswerRequest(id, AnswerStatus(accepted))
      ensures invitations == old(invitations)
      ensures var index := IndexOfId(invitations, id);
              response.Ok? && index >= 0 ==>
                && invitations[index].invitation == AnswerStatus(accepted)
                && invitations[index] !in Pending()
                && error == old(error)
                && forall k :: 0 <= k < |invitations| && invitations[k] != invitations[index] ==>
                     invitations[k].invitation == old(invitations[k].invitation)
      ensures var index := IndexOfId(invitations, id);
              !(response.Ok? && index >= 0) ==>
                && (forall k :: 0 <= k < |invitations| ==> invitations[k].invitation == old(invitations[k].invitation))
                && error == (if response.Failed? then response.message else typeError)
    {
      var status := AnswerStatus(accepted);
      request := AnswerRequest(id, status);
      match response
      case Ok(_) =>
        var index := IndexOfId(invitations, id);
        var updated := invitations;
        if index == -1 {
          error := typeError;
        } else {
          updated[index].invitation := status;
          invitations := updated;
          assert invitations[index] !in Pending();
        }
      case Failed(message) =>
        error := message;
    }
  }
}
