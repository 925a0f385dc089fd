/** The patients screen of an institution: the fetched patients sorted by name
    and searched by name. */
module ManagePatients {
  import opened Wrappers
  import opened Text
  import opened Lists
  import opened Sorting
  import opened Records
  /** The patients listed under a search box: every patient while the search is empty,
      otherwise those whose name includes the search text, in order. */
  function PatientsMatching(patients: seq<Patient>, search: string): (r: seq<Patient>)
    ensures forall p :: p in r <==> p in patients && (search == "" || Contains(p.fullname, search))
    ensures IsSubsequence(r, patients)
  {
    Search(patients, search, PatientName)
  }

  class ManagePatientsScreen {
    var isLoading: bool
    var error: string
    var search: string
    var patients: seq<Patient>

    constructor ()
      ensures isLoading && error == "" && search == "" && patients == []
    {
      isLoading := true;
      error := "";
      search := "";
      patients := [];
    }

    /** The list under the search box. */
    function FilteredPatients(): seq<Patient>
      reads this
    {
      PatientsMatching(patients, search)
    }

    /** The search box is disabled while the list is empty. */
    predicate SearchDisabled()
      reads this
    {
      |patients| == 0
    }

    /** Fetching the patients: on success the fetched array is sorted by name in
        place and kept; on failure its message is shown. Either way loading ends. */
    method Load(response: Response<array<Patient>>)
      modifies this`patients, this`isLoading, this`error
      modifies if response.Ok? then {response.payload} else {}
      ensures !isLoading && search == old(search)
      ensures response.Ok? ==> && patients == response.payload[..]
                               && multiset(patients) == old(multiset(response.payload[..]))
                               && Stable(old(response.payload[..]), patients, ByName(PatientName))
                               && SortedByName(patients, PatientName)
                               && (SearchDisabled() <==> response.payload.Length == 0)
                               && error == old(error)
      ensures response.Failed? ==> patients == old(patients) && error == response.message
    {
      match response {
        case Ok(data) =>
          SortByName(data, PatientName);
          patients := data[..];
        case Failed(message) =>
          error := message;
      }
      isLoading := false;
    }
  }
}
