/** The patient-details screen: the patient's summarizations sorted by creation time and
    numbered, the actions the screen enables, and the request that removes the patient
    from its group. */
module PatientDetails {
  import opened Wrappers
  import opened Text
  import opened Records
  import opened Sorting
  import opened Authorization
  import GroupDetails

  /** A row of the summary list; the formatted creation date is not modelled. */
  datatype SummaryItem = SummaryItem(id: string, name: string, status: SummaryStatus, tags: Option<seq<string>>)

  /** The comparator `(a, b) => a.createdAt - b.createdAt`, as an ordering. */
  function ByCreatedAt(): (Summarization, Summarization) -> bool
  {
    (x: Summarization, y: Summarization) => x.createdAt <= y.createdAt
  }

  lemma ByCreatedAtIsTotalPreorder()
    ensures TotalPreorder(ByCreatedAt())
  {
  }

  /** The prefix of every summary row's title. */
  const SummaryPrefix: string := "Sumariza\U{00E7}\U{00E3}o "

  /** Whether every summarization carries insights (the rows read their tags). */
  predicate AllHaveInsights(s: seq<Summarization>)
  {
    forall i :: 0 <= i < |s| ==> s[i].insights.Some?
  }

  /** `orderedSummaries.map(...)`: row `k` is numbered `k + 1` and copies the id, status
      and tags of the `k`-th summarization. */
  function NumberSummaries(s: seq<Summarization>): (r: seq<SummaryItem>)
    requires AllHaveInsights(s)
    ensures |r| == |s|
    ensures forall k :: 0 <= k < |r| ==>
              && r[k].id == s[k].id && r[k].status == s[k].status && r[k].tags == s[k].insights.value.tags
              && r[k].name == NumberedTitle(SummaryPrefix, k)
  {
    seq(|s|, k requires 0 <= k < |s| =>
      SummaryItem(s[k].id, NumberedTitle(SummaryPrefix, k), s[k].status, s[k].insights.value.tags))
  }

  /** Reordering the summarizations keeps every one of them. */
  lemma ReorderingKeepsInsights(s: seq<Summarization>, t: seq<Summarization>)
    requires AllHaveInsights(s) && multiset(t) == multiset(s)
    ensures AllHaveInsights(t)
  {
    forall i | 0 <= i < |t|
      ensures t[i].insights.Some?
    {
      assert t[i] in multiset(t);
    }
  }

  /** `assembleSummaries`: with no patient data there is nothing; otherwise the patient's
      own array of summarizations is sorted in place by creation time, and the rows follow
      that order, one per summarization. */
  method AssembleSummaries(summarizations: Option<array<Summarization>>) returns (items: Option<seq<SummaryItem>>)
    requires summarizations.Some? ==> AllHaveInsights(summarizations.value[..])
    modifies if summarizations.Some? then {summarizations.value} else {}
    ensures summarizations.None? ==> items.None?
    ensures summarizations.Some? ==>
              && var a := summarizations.value;
              && multiset(a[..]) == old(multiset(a[..]))
              && (forall i, j :: 0 <= i < j < a.Length ==> a[i].createdAt <= a[j].createdAt)
              && Stable(old(a[..]), a[..], ByCreatedAt())
              && AllHaveInsights(a[..])
              && items == Some(NumberSummaries(a[..]))
  {
    if summarizations.None? {
      return None;
    }
    var a := summarizations.value;
    ghost var before := a[..];
    ByCreatedAtIsTotalPreorder();
    SortInPlace(a, ByCreatedAt());
    ReorderingKeepsInsights(before, a[..]);
    items := Some(NumberSummaries(a[..]));
  }

  /** The actions the screen enables. */
  datatype PatientActions = PatientActions(removeFromGroup: bool, newRecording: bool)

  /** Removal needs ownership, moderation or the delete capability; a new recording needs
      ownership, moderation or the write capability. */
  function Actions(access: AccessState): PatientActions
  {
    PatientActions(
      access.isOwner || access.isModerator || access.groupPermissions.canDelete,
      access.isOwner || access.isModerator || access.groupPermissions.canWrite)
  }

  /** With the group permissions the group screen dispatched for a grant at `level`, a plain
      member may remove the patient from level 111 up and record from level 11 up, so whoever
      may remove may also record. */
  lemma ActionsFollowGrantLevel(access: AccessState, level: int)
    requires access.groupPermissions == GroupDetails.AccessLevel(Some(level))
    ensures Actions(access).removeFromGroup <==> access.isOwner || access.isModerator || level >= 111
    ensures Actions(access).newRecording <==> access.isOwner || access.isModerator || level >= 11
    ensures Actions(access).removeFromGroup ==> Actions(access).newRecording
  {
    GroupDetails.AccessLevelThresholds(Some(level));
  }

  /** `removePatientFromGroup`'s request: only the group is sent, as the empty string. */
  function RemoveFromGroupRequest(patientId: string): (r: PatientPatch)
    ensures r.patientId == patientId && r.groupId == Some("")
    ensures r.fullname.None? && r.birthDate.None? && r.height.None? && r.weight.None? && r.institutionId.None?
  {
    PatientPatch(patientId, None, None, None, None, Some(""), None)
  }
}
