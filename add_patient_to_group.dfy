/** Adding a patient of the institution to a group: the screen lists the
    patients that belong to no group, sorted and searched by name, and patches
    the selected one with the group's id. */
module AddPatientToGroup {
  import opened Wrappers
  import opened Text
  import opened Lists
  import opened Sorting
  import opened Records
  import PatientDetails
  import ManagePatients
  /** `!patient.groupId`: no group id, or an empty one. */
  function IsUnassigned(p: Patient): (r: bool)
    ensures r <==> p.groupId.None? || p.groupId == Some("")
  {
    !Truthy(p.groupId)
  }

  /** The patch that adds `patientId` to `groupId`: only the group and the institution are sent. */
  function AddToGroupRequest(patientId: string, groupId: string, institutionId: string): (r: PatientPatch)
    ensures r.patientId == patientId && r.groupId == Some(groupId) && r.institutionId == Some(institutionId)
    ensures r.fullname.None? && r.birthDate.None? && r.height.None? && r.weight.None?
  {
    PatientPatch(patientId, None, None, None, None, Some(groupId), Some(institutionId))
  }

  /** A patient taken out of a group from its details screen is offered here again,
      while one added to a group with a non-empty id is not. */
  lemma RemovedPatientIsOfferedAgain(p: Patient, groupId: string, institutionId: string)
    ensures IsUnassigned(p.(groupId := PatientDetails.RemoveFromGroupRequest(p.id).groupId))
    ensures groupId != "" ==> !IsUnassigned(p.(groupId := AddToGroupRequest(p.id, groupId, institutionId).groupId))
  {
  }

  /** What any reordering of the unassigned patients lists: exactly the unassigned
      ones, and nothing at all when every patient already has a group. */
  lemma UnassignedListing(data: seq<Patient>, patients: seq<Patient>)
    requires multiset(patients) == multiset(Filter(data, IsUnassigned))
    ensures forall p :: p in patients <==> p in data && IsUnassigned(p)
    ensures |patients| == 0 <==> forall k :: 0 <= k < |data| ==> !IsUnassigned(data[k])
  {
    var unassigned := Filter(data, IsUnassigned);
    forall p ensures p in patients <==> p in unassigned {
      assert p in patients <==> p in multiset(patients);
      assert p in unassigned <==> p in multiset(unassigned);
    }
    if patients == [] {
      assert |multiset(unassigned)| == 0;
    } else {
      assert patients[0] in unassigned;
    }
  }

  class AddPatientToGroupScreen {
    const institutionId: string
    const groupId: string
    var isLoading: bool
    var search: string
    var patientId: string
    var patients: seq<Patient>
    var navigatedBack: bool

    constructor (institutionId: string, groupId: string)
      ensures this.institutionId == institutionId && this.groupId == groupId
      ensures isLoading && search == "" && patientId == "" && patients == [] && !navigatedBack
    {
      this.institutionId := institutionId;
      this.groupId := groupId;
      isLoading := true;
      search := "";
      patientId := "";
      patients := [];
      navigatedBack := false;
    }

    /** The list under the search box. */
    function FilteredPatients(): seq<Patient>
      reads this
    {
      ManagePatients.PatientsMatching(patients, search)
    }

    /** The search box and the add button are disabled when no patient is listed. */
    predicate ControlsDisabled()
      reads this
    {
      |patients| == 0
    }

    /** Fetching the institution's patients: on success the unassigned ones are kept,
        sorted by name; a failure is only logged. Either way loading ends. */
    method Load(response: Response<seq<Patient>>)
      modifies this`patients, this`isLoading
      ensures !isLoading
      ensures response.Ok? ==> && multiset(patients) == multiset(Filter(response.payload, IsUnassigned))
                               && SortedByName(patients, PatientName)
                               && Stable(Filter(response.payload, IsUnassigned), patients, ByName(PatientName))
                               && (forall p :: p in patients <==> p in response.payload && IsUnassigned(p))
                               && (ControlsDisabled() <==> forall k :: 0 <= k < |response.payload| ==> !IsUnassigned(response.payload[k]))
      ensures response.Failed? ==> patients == old(patients)
    {
      match response {
        case Ok(data) =>
          var unassigned := Filter(data, IsUnassigned);
          var a := new Patient[|unassigned|](i requires 0 <= i < |unassigned| => unassigned[i]);
          assert a[..] == unassigned;
          SortByName(a, PatientName);
          patients := a[..];
          UnassignedListing(data, patients);
        case Failed(_) =>
      }
      isLoading := false;
    }

    /** Tapping a patient of the list selects it. */
    method Select(id: string)
      modifies this`patientId
      ensures patientId == id
    {
      patientId := id;
    }

    /** Tapping "Adicionar" (only rendered after loading, and enabled while some
        patient is listed): the selected patient is patched into the group; on
        success the screen goes back, on failure the loading state stays on. */
    method AddPatient(response: Response<()>) returns (request: PatientPatch)
      requires !isLoading && !ControlsDisabled()
      modifies this`isLoading, this`navigatedBack
      ensures request == AddToGroupRequest(patientId, groupId, institutionId)
      ensures isLoading
      ensures navigatedBack == (old(navigatedBack) || response.Ok?)
    {
      isLoading := true;
      request := AddToGroupRequest(patientId, groupId, institutionId);
      if response.Ok? {
        navigatedBack := true;
      }
    }
  }
}
