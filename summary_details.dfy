/** The summary-details screen: the findings table, the audio download address, the
    status banner, and the delete and validate actions. */
module SummaryDetails {
  import opened Wrappers
  import opened Text
  import opened Records

  /** A row of the findings table. */
  datatype TableRow = TableRow(title: string, values: seq<string>, color: string)

  /** `tableContents`: the five kinds of findings in a fixed order, or nothing unless the
      summarization has insights with tags. */
  function TableContents(data: Option<Summarization>): (r: seq<TableRow>)
    ensures r == [] <==> !(data.Some? && data.value.insights.Some? && data.value.insights.value.tags.Some?)
    ensures r != [] ==> |r| == 5
  {
    if data.Some? && data.value.insights.Some? && data.value.insights.value.tags.Some? then
      var found := data.value.insights.value.structuredData;
      [ TableRow("Departamentos cl\U{00ED}nicos", found.clinicalDepartments, "#2E86C1"),
        TableRow("Ocorr\U{00EA}ncias", found.occurrences, "#920F3E"),
        TableRow("Problemas", found.problems, "#D35400"),
        TableRow("Testes", found.tests, "#410F92"),
        TableRow("Tratamentos", found.treatments, "#28B463") ]
    else []
  }

  /** Every row of a non-empty table shows the findings of its own kind. */
  lemma TableRowsMatchFindings(data: Option<Summarization>)
    requires TableContents(data) != []
    ensures var found, r := data.value.insights.value.structuredData, TableContents(data);
            && r[0].values == found.clinicalDepartments && r[1].values == found.occurrences
            && r[2].values == found.problems && r[3].values == found.tests && r[4].values == found.treatments
  {
  }

  const StorageHost: string := "https://storage.googleapis.com"

  /** The address the audio is downloaded from: the storage host followed by the stored
      path without its first four characters. */
  function DownloadUri(audioPath: string): string
  {
    StorageHost + SliceFrom(audioPath, 4)
  }

  /** A `gs://bucket/object` path is fetched from `https://storage.googleapis.com/bucket/object`. */
  lemma DownloadUriOfBucketPath(rest: string)
    ensures DownloadUri("gs://" + rest) == StorageHost + "/" + rest
  {
    assert ("gs://" + rest)[4..] == "/" + rest;
  }

  /** The banner over the summary. */
  datatype Banner = Finished | InProcessing | ShowsFailed

  /** `COMPLETED` and `PROCESSING` show as themselves and anything else as failed. */
  function StatusBanner(status: SummaryStatus): (r: Banner)
    ensures r == Finished <==> status == COMPLETED
    ensures r == InProcessing <==> status == PROCESSING
    ensures r == ShowsFailed <==> status != COMPLETED && status != PROCESSING
  {
    if status == COMPLETED then Finished
    else if status == PROCESSING then InProcessing
    else ShowsFailed
  }

  /** The arguments of `validateSummarization`. */
  datatype ValidationRequest = ValidationRequest(summaryId: string, transcription: string)

  class SummaryDetailsScreen {
    const summaryId: string
    var data: Option<Summarization>
    var downloadedAudioPath: Option<string>
    var isLoading: bool
    var error: string
    var confirmDeleteIntention: bool
    var confirmDelete: bool
    var isDeleting: bool
    var confirmSentToValidation: bool
    var isValidating: bool
    var openValidateModal: bool
    var noChangesWereMade: bool

    constructor (summaryId: string)
      ensures this.summaryId == summaryId && data.None? && downloadedAudioPath.None?
      ensures isLoading && error == "" && !confirmDeleteIntention && !confirmDelete && !isDeleting
      ensures !confirmSentToValidation && !isValidating && !openValidateModal && !noChangesWereMade
    {
      this.summaryId := summaryId;
      data, downloadedAudioPath, isLoading, error := None, None, true, "";
      confirmDeleteIntention, confirmDelete, isDeleting := false, false, false;
      confirmSentToValidation, isValidating, openValidateModal, noChangesWereMade := false, false, false, false;
    }

    /** The mount effect, with `response` standing for how `getSummarization` settles and
        `download` for how the audio download settles (its local path). The download is
        attempted exactly when the summarization has an audio path. */
    method Load(response: Response<Summarization>, download: Response<string>) returns (downloadUri: Option<string>)
      modifies this`data, this`downloadedAudioPath, this`isLoading, this`error
      ensures !isLoading
      ensures response.Failed? ==>
                downloadUri.None? && error == response.message && data == old(data)
                && downloadedAudioPath == old(downloadedAudioPath)
      ensures response.Ok? ==> data == Some(response.payload)
      ensures response.Ok? ==> (downloadUri.Some? <==> Truthy(response.payload.audioPath))
      ensures response.Ok? && downloadUri.Some? ==>
                && downloadUri.value == DownloadUri(response.payload.audioPath.value)
                && (download.Ok? ==> downloadedAudioPath == Some(download.payload) && error == old(error))
                && (download.Failed? ==> downloadedAudioPath == old(downloadedAudioPath) && error == download.message)
      ensures response.Ok? && downloadUri.None? ==> downloadedAudioPath == old(downloadedAudioPath) && error == old(error)
    {
      downloadUri := None;
      match response
      case Failed(message) =>
        error := message;
        isLoading := false;
      case Ok(summary) =>
        data := Some(summary);
        if !Truthy(summary.audioPath) {
          isLoading := false;
          return;
        }
        downloadUri := Some(DownloadUri(summary.audioPath.value));
        match download
        case Ok(uri) =>
          downloadedAudioPath := Some(uri);
          isLoading := false;
        case Failed(message) =>
          error := message;
          isLoading := false;
    }

    /** `deleteEntry`, with `response` standing for how `deleteSummarization` settles: the
        confirmation closes, and either outcome clears the busy flag. */
    method DeleteEntry(response: Response<()>)
      modifies this`isDeleting, this`confirmDeleteIntention, this`confirmDelete, this`error
      ensures !isDeleting && !confirmDeleteIntention
      ensures response.Ok? ==> confirmDelete && error == old(error)
      ensures response.Failed? ==> error == response.message && confirmDelete == old(confirmDelete)
    {
      isDeleting := true;
      confirmDeleteIntention := false;
      match response
      case Ok(_) =>
        isDeleting := false;
        confirmDelete := true;
      case Failed(message) =>
        error := message;
        isDeleting := false;
    }

    /** `validateEntry`, with `response` standing for how `validateSummarization` settles. An
        empty or unchanged transcription is refused without a request; otherwise the exact
        text is sent, and either outcome closes the modal and clears the busy flag. The
        screen shows the modal only once the summarization has loaded. */
    method ValidateEntry(validated: string, response: Response<()>) returns (request: Option<ValidationRequest>)
      requires data.Some?
      modifies this`noChangesWereMade, this`isValidating, this`openValidateModal,
               this`confirmSentToValidation, this`error
      ensures request.None? <==> validated == "" || validated == data.value.transcription
      ensures request.None? ==>
                && noChangesWereMade && isValidating == old(isValidating)
                && openValidateModal == old(openValidateModal)
                && confirmSentToValidation == old(confirmSentToValidation) && error == old(error)
      ensures request.Some? ==>
                && request.value == ValidationRequest(summaryId, validated)
                && !noChangesWereMade && !isValidating && !openValidateModal
                && (response.Ok? ==> confirmSentToValidation && error == old(error))
                && (response.Failed? ==> error == response.message
                                         && confirmSentToValidation == old(confirmSentToValidation))
    {
      if validated == "" || validated == data.value.transcription {
        noChangesWereMade := true;
        return None;
      }
      noChangesWereMade := false;
      isValidating := true;
      request := Some(ValidationRequest(summaryId, validated));
      match response
      case Ok(_) =>
        isValidating := false;
        openValidateModal := false;
        confirmSentToValidation := true;
      case Failed(message) =>
        error := message;
        isValidating := false;
        openValidateModal := false;
    }
  }
}
