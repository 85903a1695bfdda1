/**
 * The stem-extractor page: its component state (server status, drag
 * highlight, selected file, progress, results and error) moved step by step
 * by the page's handlers, with every network outcome passed in as a value;
 * and the download file name, which strips the final extension with the
 * regular expression `/\.[^/.]+$/`.
 */
module StemExtractor {
  import opened Base
  import opened Strings
  import opened NodePath
  import MultiTrackPlayer

  datatype ServerStatus = Checking | Ready | NoDemucs | Offline

  /** How the health request and the capability request ended. */
  datatype StatusCheck =
    | HealthNotOk                                   // the health request answered with a non-2xx status
    | Checked(installed: bool, message: Option<string>)  // both answered; `None` for a missing `message`
    | CheckThrew                                    // a request rejected or a body was not JSON

  const OfflineMessage := "Backend server not available. Please start the server first."
  const NotInstalledPrefix := "Demucs not installed: "
  const NotReadyMessage := "Server not ready. Please check server status."
  const FailurePrefix := "Processing failed: "
  const DefaultFailure := "Processing failed"

  /** A value interpolated into a template literal; a missing one reads `undefined`. */
  function Show(o: Option<string>): string {
    match o
    case None => "undefined"
    case Some(s) => s
  }

  /** The server status a completed check leaves. */
  function StatusAfter(check: StatusCheck): ServerStatus {
    match check
    case HealthNotOk => Offline
    case Checked(installed, _) => if installed then Ready else NoDemucs
    case CheckThrew => Offline
  }

  /**
   * The page is ready exactly when the capability check reported Demucs
   * installed; it is offline exactly when the health check failed or a
   * request threw; otherwise Demucs is missing.
   */
  lemma StatusDerivation(check: StatusCheck)
    ensures StatusAfter(check) == Ready <==> check.Checked? && check.installed
    ensures StatusAfter(check) == Offline <==> !check.Checked?
    ensures StatusAfter(check) == NoDemucs <==> check.Checked? && !check.installed
    ensures StatusAfter(check) != Checking
  {
  }

  /** The JSON body of a `/api/separate` answer, as far as the page reads it. */
  datatype SeparationResult = SeparationResult(success: bool, error: Option<string>)

  /** How the `/api/separate` request ended. */
  datatype Response =
    | FetchRejected(message: string)         // the request itself failed
    | HttpError(status: nat, text: string)   // a non-2xx answer and its body text
    | BodyUnreadable(message: string)        // the body could not be read or parsed
    | Answered(result: SeparationResult)

  predicate Succeeded(response: Response) {
    response.Answered? && response.result.success
  }

  /** `result.error || 'Processing failed'`. */
  function ErrorText(e: Option<string>): (r: string)
    ensures r != ""
  {
    if e.None? || e.value == "" then DefaultFailure else e.value
  }

  /** The message of the error `processAudio` catches, if any. */
  function Failure(response: Response): (r: Option<string>)
    ensures r.None? <==> Succeeded(response)
  {
    match response
    case FetchRejected(m) => Some(m)
    case HttpError(status, text) => Some("Server error " + Decimal(status) + ": " + text)
    case BodyUnreadable(m) => Some(m)
    case Answered(result) => if result.success then None else Some(ErrorText(result.error))
  }

  /** The error the page shows after a request: `Processing failed: ` and the caught message. */
  function ErrorShown(response: Response): (r: Option<string>)
    ensures r.None? <==> Succeeded(response)
    ensures r.Some? ==> IsPrefix(FailurePrefix, r.value)
  {
    match Failure(response)
    case None => None
    case Some(m) => Some(FailurePrefix + m)
  }

  const ProgressValues: set<nat> := {0, 5, 15, 100}

  /** The progress values `processAudio` sets, in order, for one request. */
  function ProgressSteps(response: Response): (r: seq<nat>)
    ensures |r| >= 2
  {
    [0, 5] + (if response.FetchRejected? then [] else [15]) + (if Succeeded(response) then [100] else [])
  }

  /**
   * Progress starts at 0, takes only the values 0, 5, 15 and 100, never
   * goes down, and ends at 100 exactly when the server reported success.
   */
  lemma ProgressStepsShape(response: Response)
    ensures var r := ProgressSteps(response);
      && r[0] == 0
      && (forall i :: 0 <= i < |r| ==> r[i] in ProgressValues)
      && (forall i, j :: 0 <= i < j < |r| ==> r[i] <= r[j])
      && (r[|r| - 1] == 100 <==> Succeeded(response))
  {
  }

  /**
   * The characters from index `i` to the end match `\.[^/.]+$`: a dot
   * followed by at least one character, none of them a slash or a dot.
   */
  predicate ExtensionMatchAt(s: string, i: int) {
    0 <= i < |s| - 1 && s[i] == '.' && forall j :: i < j < |s| ==> s[j] != '/' && s[j] != '.'
  }

  /** `name.replace(/\.[^/.]+$/, "")`: the final extension is removed when there is one. */
  function StripFinalExtension(s: string): (r: string)
    ensures IsPrefix(r, s)
    ensures r != s <==> exists i :: ExtensionMatchAt(s, i)
    ensures r != s ==> ExtensionMatchAt(s, |r|)
  {
    match LastIndexOf(s, '.')
    case None => s
    case Some(d) =>
      if ExtensionMatchAt(s, d) then s[..d]
      else
        assert forall i :: !ExtensionMatchAt(s, i) by {
          forall i | 0 <= i < |s| - 1 && s[i] == '.'
            ensures !ExtensionMatchAt(s, i)
          {
            if i < d {
              assert s[d] == '.';
            } else {
              assert !ExtensionMatchAt(s, d);
            }
          }
        }
        s
  }

  /**
   * For a file name whose Node extension has at least one character after
   * the dot, stripping the final extension gives Node's base name without
   * the extension.
   */
  lemma StripAgreesWithExtName(name: string)
    requires '/' !in name
    requires |ExtName(name)| >= 2
    ensures StripFinalExtension(name) == BaseNameSansExt(name)
  {
    PlainNameIsFinalSegment(name);
    var e := ExtName(name);
    var b := BaseNameSansExt(name);
    assert b + e == name;
    var d := |b|;
    assert name[d..] == e;
    assert ExtensionMatchAt(name, d) by {
      forall j | d < j < |name|
        ensures name[j] != '/' && name[j] != '.'
      {
        assert name[j] == e[1..][j - d - 1];
      }
    }
    assert LastIndexOf(name, '.') == Some(d);
  }

  /**
   * A dot-file name such as `.env`, whose only `.` leads it, loses everything,
   * where Node would see no extension at all.
   */
  lemma StripDotFile(name: string)
    requires |name| >= 2 && name[0] == '.'
    requires forall j :: 0 < j < |name| ==> name[j] != '.' && name[j] != '/'
    ensures StripFinalExtension(name) == ""
    ensures ExtName(name) == ""
  {
    assert ExtensionMatchAt(name, 0);
    assert LastIndexOf(name, '.') == Some(0);
    PlainNameIsFinalSegment(name);
  }

  /** `downloadStem`: the stem's path under the development server, saved as `<name without extension>_<stem>.mp3`. */
  function DownloadStem(fileName: string, stem: string, filePath: string): (r: MultiTrackPlayer.Link)
    ensures r.href == MultiTrackPlayer.DevServer + filePath
    ensures r.download == StripFinalExtension(fileName) + "_" + stem + ".mp3"
  {
    MultiTrackPlayer.Link(MultiTrackPlayer.DevServer + filePath, StripFinalExtension(fileName) + "_" + stem + ".mp3")
  }

  class Extractor {
    var dragActive: bool
    /** The selected file's name; `None` for `null` or `undefined`. */
    var selected: Option<string>
    var processing: bool
    var progress: nat
    var results: Option<SeparationResult>
    var error: Option<string>
    var status: ServerStatus
    var demucsAvailable: bool
    /** Every value `setProgress` was called with, in order. */
    ghost var progressLog: seq<nat>

    /**
     * Progress only ever holds one of its four values, 100 only with a
     * result, a result only after a successful run on a selected file, and
     * a ready server only once Demucs was found.
     */
    ghost predicate Valid()
      reads this
    {
      && progress in ProgressValues
      && (forall i :: 0 <= i < |progressLog| ==> progressLog[i] in ProgressValues)
      && (progress == 100 ==> results.Some?)
      && (results.Some? ==> results.value.success && selected.Some?)
      && (status == Ready ==> demucsAvailable)
      && !processing
    }

    /** The page's initial state: checking, nothing selected, no progress. */
    constructor()
      ensures Valid()
      ensures !dragActive && selected == None && progress == 0 && results == None && error == None
      ensures status == Checking && !demucsAvailable && progressLog == []
    {
      dragActive := false;
      selected := None;
      processing := false;
      progress := 0;
      results := None;
      error := None;
      status := Checking;
      demucsAvailable := false;
      progressLog := [];
    }

    /**
     * `checkServerAndDemucsStatus` once its requests have ended: the status
     * follows `StatusAfter`; a missing Demucs names the server's message,
     * a thrown request sets the offline message, and a failed health check
     * leaves the error as it was.
     */
    method CheckStatus(check: StatusCheck)
      requires Valid()
      modifies this
      ensures Valid()
      ensures status == StatusAfter(check)
      ensures check.Checked? ==> demucsAvailable == check.installed
      ensures !check.Checked? ==> demucsAvailable == old(demucsAvailable)
      ensures error == match check
        case HealthNotOk => old(error)
        case Checked(installed, message) => if installed then old(error) else Some(NotInstalledPrefix + Show(message))
        case CheckThrew => Some(OfflineMessage)
      ensures dragActive == old(dragActive) && selected == old(selected) && progress == old(progress)
      ensures results == old(results) && progressLog == old(progressLog)
    {
      match check
      case HealthNotOk =>
        status := Offline;
      case Checked(installed, message) =>
        if installed {
          status := Ready;
          demucsAvailable := true;
        } else {
          status := NoDemucs;
          demucsAvailable := false;
          error := Some(NotInstalledPrefix + Show(message));
        }
      case CheckThrew =>
        status := Offline;
        error := Some(OfflineMessage);
    }

    /** `retryServerConnection` before its check completes: back to checking, no error. */
    method Retry()
      requires Valid()
      modifies this
      ensures Valid()
      ensures status == Checking && error == None
      ensures demucsAvailable == old(demucsAvailable) && dragActive == old(dragActive) && selected == old(selected)
      ensures progress == old(progress) && results == old(results) && progressLog == old(progressLog)
    {
      status := Checking;
      error := None;
    }

    /** `setProgress`, recorded in the progress log. */
    method SetProgress(p: nat)
      requires p in ProgressValues
      requires forall i :: 0 <= i < |progressLog| ==> progressLog[i] in ProgressValues
      modifies this
      ensures progress == p && progressLog == old(progressLog) + [p]
      ensures forall i :: 0 <= i < |progressLog| ==> progressLog[i] in ProgressValues
      ensures dragActive == old(dragActive) && selected == old(selected) && processing == old(processing)
      ensures results == old(results) && error == old(error) && status == old(status) && demucsAvailable == old(demucsAvailable)
    {
      progress := p;
      progressLog := progressLog + [p];
    }

    /** `handleFileChange`: the file is selected, error and results are cleared, progress is back at 0. */
    method HandleFileChange(file: Option<string>)
      requires Valid()
      modifies this
      ensures Valid()
      ensures selected == file && error == None && results == None && progress == 0
      ensures progressLog == old(progressLog) + [0]
      ensures dragActive == old(dragActive) && status == old(status) && demucsAvailable == old(demucsAvailable)
    {
      selected := file;
      error := None;
      results := None;
      SetProgress(0);
    }

    /** `handleDrag`: entering or moving over the zone lights it, leaving it clears it, other events change nothing. */
    method HandleDrag(eventType: string)
      requires Valid()
      modifies this
      ensures Valid()
      ensures eventType == "dragenter" || eventType == "dragover" ==> dragActive
      ensures eventType == "dragleave" ==> !dragActive
      ensures eventType !in {"dragenter", "dragover", "dragleave"} ==> dragActive == old(dragActive)
      ensures selected == old(selected) && progress == old(progress) && results == old(results) && error == old(error)
      ensures status == old(status) && demucsAvailable == old(demucsAvailable) && progressLog == old(progressLog)
    {
      if eventType == "dragenter" || eventType == "dragover" {
        dragActive := true;
      } else if eventType == "dragleave" {
        dragActive := false;
      }
    }

    /** `handleDrop`: the highlight always goes off; the first dropped file, if any, is selected. */
    method HandleDrop(files: seq<string>)
      requires Valid()
      modifies this
      ensures Valid()
      ensures !dragActive
      ensures |files| > 0 ==> selected == Some(files[0]) && error == None && results == None && progress == 0
      ensures |files| == 0 ==> selected == old(selected) && error == old(error) && results == old(results) && progress == old(progress)
      ensures status == old(status) && demucsAvailable == old(demucsAvailable)
    {
      dragActive := false;
      if |files| > 0 {
        HandleFileChange(Some(files[0]));
      }
    }

    /**
     * The rest of `processAudio` once the request is under way, from the
     * `fetch` on: the remaining progress steps, the stored result on success
     * and the error otherwise.
     */
    method Receive(response: Response)
      requires progress == 5 && error == None
      requires forall i :: 0 <= i < |progressLog| ==> progressLog[i] in ProgressValues
      modifies this
      ensures progressLog == old(progressLog) + ProgressSteps(response)[2..]
      ensures forall i :: 0 <= i < |progressLog| ==> progressLog[i] in ProgressValues
      ensures progress == ProgressSteps(response)[|ProgressSteps(response)| - 1]
      ensures results == (if Succeeded(response) then Some(response.result) else old(results))
      ensures error == ErrorShown(response)
      ensures selected == old(selected) && status == old(status) && demucsAvailable == old(demucsAvailable)
      ensures dragActive == old(dragActive) && processing == old(processing)
    {
      match response {
        case FetchRejected(m) =>
          error := Some(FailurePrefix + m);
        case HttpError(code, text) =>
          SetProgress(15);
          var message := "Server error " + Decimal(code) + ": " + text;
          error := Some(FailurePrefix + message);
        case BodyUnreadable(m) =>
          SetProgress(15);
          error := Some(FailurePrefix + m);
        case Answered(result) =>
          SetProgress(15);
          if result.success {
            SetProgress(100);
            results := Some(result);
          } else {
            error := Some(FailurePrefix + ErrorText(result.error));
          }
      }
    }

    /**
     * `processAudio` for one request outcome. Without a file nothing
     * changes; with a server that is not ready only the error is set.
     * Otherwise progress runs through `ProgressSteps`, a success stores the
     * result, a failure sets the error `Processing failed: <message>`, and
     * processing is over at the end.
     */
    method ProcessAudio(response: Response)
      requires Valid()
      modifies this
      ensures Valid()
      ensures old(selected).None? ==>
        error == old(error) && progress == old(progress) && results == old(results) && progressLog == old(progressLog)
      ensures old(selected).Some? && old(status) != Ready ==>
        error == Some(NotReadyMessage) && progress == old(progress) && results == old(results) && progressLog == old(progressLog)
      ensures old(selected).Some? && old(status) == Ready ==>
        && progressLog == old(progressLog) + ProgressSteps(response)
        && progress == ProgressSteps(response)[|ProgressSteps(response)| - 1]
        && results == (if Succeeded(response) then Some(response.result) else old(results))
        && error == ErrorShown(response)
      ensures !processing
      ensures selected == old(selected) && status == old(status) && demucsAvailable == old(demucsAvailable)
      ensures dragActive == old(dragActive)
    {
      if selected.None? {
        return;
      }
      if status != Ready {
        error := Some(NotReadyMessage);
        return;
      }
      processing := true;
      SetProgress(0);
      error := None;
      SetProgress(5);
      Receive(response);
      processing := false;
    }
  }
}
