/** The backend records the screens receive, reduced to the fields the
    screens read. Counts such as `_count.Member` are plain integers. */
module Records {
  import opened Wrappers

  /** The invitation status of a membership. */
  datatype Status = PENDING | ACCEPTED | REJECTED

  datatype User = User(id: string, fullname: string, email: string, isAdmin: bool)

  /** A calendar date as `Date` reports it: day of month, month (1-12) and full year. */
  datatype CalendarDate = CalendarDate(day: nat, month: nat, year: nat)

  /** The processing state of a summarization; `OtherStatus` is any other text the backend sends. */
  datatype SummaryStatus = PROCESSING | COMPLETED | FAILED | OtherStatus(name: string)

  datatype StructuredData = StructuredData(
    clinicalDepartments: seq<string>,
    occurrences: seq<string>,
    problems: seq<string>,
    tests: seq<string>,
    treatments: seq<string>)

  /** The output of the external insight extraction, opaque to the app except for these fields. */
  datatype Insights = Insights(tags: Option<seq<string>>, structuredData: StructuredData)

  /** `createdAt` is the creation time in milliseconds, as `Date.getTime()` gives it. */
  datatype Summarization = Summarization(
    id: string,
    status: SummaryStatus,
    createdAt: int,
    transcription: string,
    audioPath: Option<string>,
    insights: Option<Insights>)

  /** `height` and `weight` are kept as the text the app shows for them. */
  datatype Patient = Patient(
    id: string,
    fullname: string,
    birthDate: CalendarDate,
    height: Option<string>,
    weight: Option<string>,
    groupId: Option<string>,
    institutionId: string)

  datatype Group = Group(id: string, name: string, institutionId: string, patientCount: int, patients: seq<Patient>)

  datatype Institution = Institution(id: string, ownerId: string, name: string, memberCount: int, groups: seq<Group>)

  /** A member's grant on one group; `memberFullname` is `Member.User.fullname`. */
  datatype GroupMember = GroupMember(id: string, memberId: string, groupId: string, authorizations: int, memberFullname: string)

  /** A user's membership of an institution; `fullname` is `User.fullname`. */
  datatype Member = Member(
    id: string,
    authorizations: int,
    invitation: Status,
    fullname: string,
    institution: Institution,
    groupMembers: seq<GroupMember>)

  function IsPending(m: Member): bool
  {
    m.invitation == PENDING
  }

  function IsAccepted(m: Member): bool
  {
    m.invitation == ACCEPTED
  }

  /** `memberships.find(m => m.groupId === groupId)`: the first grant on that group, if any. */
  function FindByGroup(memberships: seq<GroupMember>, groupId: string): (r: Option<GroupMember>)
    ensures r.None? <==> forall k :: 0 <= k < |memberships| ==> memberships[k].groupId != groupId
    ensures r.Some? ==> exists k :: 0 <= k < |memberships| && memberships[k] == r.value
                                     && memberships[k].groupId == groupId
                                     && forall j :: 0 <= j < k ==> memberships[j].groupId != groupId
  {
    if memberships == [] then None
    else if memberships[0].groupId == groupId then Some(memberships[0])
    else FindByGroup(memberships[1..], groupId)
  }

  /** The arguments of `patchPatient`: the patient's id and the fields to change, `None`
      standing for `null` or an omitted argument. Height and weight are the typed text. */
  datatype PatientPatch = PatientPatch(
    patientId: string,
    fullname: Option<string>,
    birthDate: Option<string>,
    height: Option<string>,
    weight: Option<string>,
    groupId: Option<string>,
    institutionId: Option<string>)

  /** The name a list of patients is sorted and searched by. */
  function PatientName(p: Patient): string
  {
    p.fullname
  }

  /** The name a list of institution members is sorted and searched by. */
  function MemberName(m: Member): string
  {
    m.fullname
  }

  /** The name a list of group grants is sorted and searched by: the member's. */
  function GroupMemberName(g: GroupMember): string
  {
    g.memberFullname
  }
}
