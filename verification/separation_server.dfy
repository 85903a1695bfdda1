/**
 * The production separation server: multer's upload filter and stored file
 * name, the `/api/check-demucs` probe endpoint, and the `/api/separate`
 * decision chain from the capability probe, through the separation run, to
 * the per-stem existence check and the JSON reply.
 *
 * Child processes, the file system and the clock are inputs: a probe or run
 * is given by the event that ends it, the file system by the set of paths
 * that exist, and `Date.now()` / `Math.random()` by whole numbers.
 */
module SeparationServer {
  import opened Base
  import opened Strings
  import opened NodePath
  import opened UploadFilter

  const InvalidTypeMessage := "Invalid file type. Please upload MP3, WAV, FLAC, or M4A files."
  const NoFileMessage := "No audio file uploaded"
  const ProbeErrorMessage := "Demucs not installed. Run: pip3 install demucs torch torchaudio"
  const ProbeFailedMessage := "Demucs not properly installed or configured"
  const InternalErrorMessage := "Internal server error"
  const SpawnFailedMessage := "Failed to start separation process"
  const RunFailedMessage := "Audio separation failed"
  const DefaultRunDetails := "Unknown error occurred during processing"
  const SuccessMessage := "Separation completed successfully!"
  const ProcessingTimeNote := "Variable based on file length"

  /** The separation model's name, which is also the first directory level of its output. */
  const ModelName := "htdemucs"

  datatype FilterDecision = Accept | Reject(message: string)

  /** multer's `fileFilter`: accept the listed audio types, reject anything else with a message naming them. */
  function FileFilter(originalName: string): (r: FilterDecision)
    ensures r.Accept? <==> EndsInAllowedType(originalName)
    ensures r.Reject? ==> r.message == InvalidTypeMessage
  {
    AllowedTypeIffSuffix(originalName);
    if HasAllowedType(originalName) then Accept else Reject(InvalidTypeMessage)
  }

  /** `Date.now() + '-' + Math.round(Math.random() * 1E9)`. */
  function UniqueSuffix(now: nat, random: nat): (r: string)
    ensures '.' !in r && '/' !in r
  {
    var s := Decimal(now) + "-" + Decimal(random);
    assert forall i :: 0 <= i < |s| ==> s[i] == '-' || IsDigit(s[i]);
    s
  }

  /** multer's `filename`: `'audio-' + uniqueSuffix + path.extname(originalname)`. */
  function StoredFileName(suffix: string, originalName: string): string {
    "audio-" + suffix + ExtName(originalName)
  }

  /**
   * The stored upload keeps the original extension, case and all, and its
   * base name (the separation tool's output directory) is `audio-<suffix>`.
   */
  lemma StoredNameKeepsExtension(uploadDir: string, now: nat, random: nat, originalName: string)
    ensures var path := Join(uploadDir, StoredFileName(UniqueSuffix(now, random), originalName));
      && ExtName(path) == ExtName(originalName)
      && BaseNameSansExt(path) == "audio-" + UniqueSuffix(now, random)
  {
    var prefix := "audio-" + UniqueSuffix(now, random);
    assert '.' !in prefix && '/' !in prefix;
    ExtNameShape(originalName);
    assert StoredFileName(UniqueSuffix(now, random), originalName) == prefix + ExtName(originalName);
    ExtNameOfJoinedName(uploadDir, prefix, ExtName(originalName));
  }

  // ---------------------------------------------------------------------------
  // Child-process outcomes and replies

  /** The `code` of a `close` event: an exit code, or `null` when a signal ended the process. */
  datatype ExitStatus = Exited(code: int) | Signalled

  /** How the capability probe `python3 -c "import demucs; ..."` ends. */
  datatype ProbeEvent =
    | ProbeThrew(message: string)   // `spawn` threw synchronously
    | ProbeError                    // the probe's `error` event
    | ProbeClosed(status: ExitStatus)

  /** How the separation run ends; a `close` carries the stderr chunks captured before it. */
  datatype RunEvent =
    | RunError(message: string)
    | RunClosed(status: ExitStatus, stderrChunks: seq<string>)

  /** What multer leaves in `req.file`: the client's name and the stored path. */
  datatype Upload = Upload(originalName: string, path: string)

  /** One key of the reply's `stems` object with its URL. */
  datatype StemEntry = StemEntry(stem: Stem, url: string)

  /** A JSON reply; `runDetails` and `missingDetails` are sent under the key `details`. */
  datatype Reply =
    | Separated(sessionId: string, stems: seq<StemEntry>, message: string, originalFile: string, processingTime: string)
    | Failed(status: int, error: string, details: Option<string>)
    | RunFailed(runDetails: string, exitCode: Option<int>)          // error: RunFailedMessage
    | StemsMissing(error: string, missingDetails: string, generatedStems: seq<Stem>)
  {
    /** The HTTP status sent with the reply. */
    function Status(): int {
      match this
      case Separated(_, _, _, _, _) => 200
      case Failed(status, _, _) => status
      case RunFailed(_, _) => 500
      case StemsMissing(_, _, _) => 500
    }
  }

  /** The reply, the files that exist afterwards, and whether the separation run was started. */
  datatype Outcome = Outcome(reply: Reply, files: set<string>, separationStarted: bool)

  // ---------------------------------------------------------------------------
  // /api/check-demucs

  datatype CheckReply = CheckReply(installed: bool, message: string)

  /** `/api/check-demucs`: installed exactly when the probe exits with code 0. */
  function CheckDemucs(probe: ProbeEvent): (r: CheckReply)
    ensures r.installed <==> probe == ProbeClosed(Exited(0))
    ensures probe.ProbeThrew? ==> r.message == probe.message
  {
    match probe
    case ProbeThrew(message) => CheckReply(false, message)
    case ProbeError => CheckReply(false, "Python3 or Demucs not available")
    case ProbeClosed(status) =>
      if status == Exited(0) then CheckReply(true, "Demucs is properly installed")
      else CheckReply(false, "Demucs not found")
  }

  // ---------------------------------------------------------------------------
  // Stem files and their URLs

  /** The four stems the separation tool writes. */
  datatype Stem = Vocals | Drums | Bass | Other {
    /** The stem's key in the reply and its file name without `.mp3`. */
    function Name(): string {
      match this
      case Vocals => "vocals"
      case Drums => "drums"
      case Bass => "bass"
      case Other => "other"
    }

    /** The stem's position in `AllStems`. */
    function Index(): (i: nat)
      ensures i < 4
    {
      match this
      case Vocals => 0
      case Drums => 1
      case Bass => 2
      case Other => 3
    }
  }

  /** The stems in the order the `stemFiles` object lists them. */
  const AllStems: seq<Stem> := [Vocals, Drums, Bass, Other]

  /** `path.join(outputDir, 'htdemucs', baseName)`. */
  function SeparatedDir(outputDir: string, baseName: string): string {
    Join(Join(outputDir, ModelName), baseName)
  }

  /** Where the separation tool writes one stem. */
  function StemPath(outputDir: string, baseName: string, stem: Stem): string {
    Join(SeparatedDir(outputDir, baseName), stem.Name() + ".mp3")
  }

  /** A stem's path below the output root. */
  function StemRelativePath(baseName: string, stem: Stem): string {
    ModelName + "/" + baseName + "/" + stem.Name() + ".mp3"
  }

  lemma StemPathUnderRoot(outputDir: string, baseName: string, stem: Stem)
    ensures StemPath(outputDir, baseName, stem) == outputDir + "/" + StemRelativePath(baseName, stem)
  {
  }

  /** `path.relative(root, p)` for a path below `root`. */
  function RelativeTo(root: string, p: string): string
    requires IsPrefix(root + "/", p)
  {
    p[|root| + 1..]
  }

  /** The public URL of one stem: its path below the output root, with `/` separators. */
  function StemUrl(outputDir: string, baseName: string, stem: Stem): string {
    var p := StemPath(outputDir, baseName, stem);
    StemPathUnderRoot(outputDir, baseName, stem);
    "/separated/" + BackslashesToSlashes(RelativeTo(outputDir, p))
  }

  /** A stem URL never holds a backslash. */
  lemma StemUrlHasNoBackslash(outputDir: string, baseName: string, stem: Stem)
    ensures '\\' !in StemUrl(outputDir, baseName, stem)
  {
    assert StemUrl(outputDir, baseName, stem)[..11] == "/separated/";
  }

  /** For a base name without backslashes the URL is `/separated/htdemucs/<baseName>/<stem>.mp3`. */
  lemma StemUrlShape(outputDir: string, baseName: string, stem: Stem)
    requires '\\' !in baseName
    ensures StemUrl(outputDir, baseName, stem) == "/separated/" + StemRelativePath(baseName, stem)
  {
    var rel := StemRelativePath(baseName, stem);
    StemPathUnderRoot(outputDir, baseName, stem);
    assert RelativeTo(outputDir, StemPath(outputDir, baseName, stem)) == rel;
    assert '\\' !in stem.Name();
    assert '\\' !in rel;
    BackslashFreeUnchanged(rel);
  }

  /** `xs` lists stems in the order of `AllStems`, each at most once. */
  predicate InStemOrder(xs: seq<Stem>) {
    forall i, j :: 0 <= i < j < |xs| ==> xs[i].Index() < xs[j].Index()
  }

  /** The names of a list of stems. */
  function Names(stems: seq<Stem>): (r: seq<string>)
    ensures |r| == |stems| && forall i :: 0 <= i < |stems| ==> r[i] == stems[i].Name()
  {
    if stems == [] then [] else Names(stems[..|stems| - 1]) + [stems[|stems| - 1].Name()]
  }

  /** `Object.keys(stems)`. */
  function Keys(stems: seq<StemEntry>): (r: seq<Stem>)
    ensures |r| == |stems| && forall i :: 0 <= i < |stems| ==> r[i] == stems[i].stem
  {
    if stems == [] then [] else Keys(stems[..|stems| - 1]) + [stems[|stems| - 1].stem]
  }

  /** The stems whose files `fs.existsSync` finds. */
  function Present(outputDir: string, baseName: string, files: set<string>): set<Stem> {
    set s: Stem | s in AllStems && StemPath(outputDir, baseName, s) in files
  }

  /** The stems among the first `n` that are in `present`, in stem order. */
  function FoundIn(present: set<Stem>, n: nat): seq<Stem>
    requires n <= |AllStems|
  {
    if n == 0 then []
    else FoundIn(present, n - 1) + if AllStems[n - 1] in present then [AllStems[n - 1]] else []
  }

  /** The stems among the first `n` that are not in `present`, in stem order. */
  function MissingIn(present: set<Stem>, n: nat): seq<Stem>
    requires n <= |AllStems|
  {
    if n == 0 then []
    else MissingIn(present, n - 1) + if AllStems[n - 1] in present then [] else [AllStems[n - 1]]
  }

  /** The `stems` object for a list of found stems: each stem with its URL. */
  function Entries(outputDir: string, baseName: string, stems: seq<Stem>): (r: seq<StemEntry>)
    ensures |r| == |stems|
    ensures forall i :: 0 <= i < |r| ==> r[i] == StemEntry(stems[i], StemUrl(outputDir, baseName, stems[i]))
  {
    if stems == [] then []
    else
      var last := stems[|stems| - 1];
      Entries(outputDir, baseName, stems[..|stems| - 1]) + [StemEntry(last, StemUrl(outputDir, baseName, last))]
  }

  /** Adding a found stem appends its entry. */
  lemma EntriesAppend(outputDir: string, baseName: string, stems: seq<Stem>, stem: Stem)
    ensures Entries(outputDir, baseName, stems + [stem])
         == Entries(outputDir, baseName, stems) + [StemEntry(stem, StemUrl(outputDir, baseName, stem))]
  {
    assert (stems + [stem])[..|stems|] == stems;
  }

  /** The keys of the `stems` object are the found stems, each with its own URL. */
  lemma EntriesKeys(outputDir: string, baseName: string, stems: seq<Stem>)
    ensures Keys(Entries(outputDir, baseName, stems)) == stems
    ensures forall e :: e in Entries(outputDir, baseName, stems) ==> e.url == StemUrl(outputDir, baseName, e.stem)
  {
  }

  /** A stem is present exactly when its file exists. */
  lemma PresentIffFileExists(outputDir: string, baseName: string, files: set<string>, s: Stem)
    ensures s in Present(outputDir, baseName, files) <==> StemPath(outputDir, baseName, s) in files
  {
    assert s in AllStems;
  }

  /**
   * The existence loop: each stem whose file exists gets its URL in `stems`,
   * every other stem is appended to `missingFiles`.
   */
  method CollectStems(outputDir: string, baseName: string, files: set<string>)
    returns (stems: seq<StemEntry>, missing: seq<Stem>)
    ensures stems == Entries(outputDir, baseName, FoundIn(Present(outputDir, baseName, files), |AllStems|))
    ensures missing == MissingIn(Present(outputDir, baseName, files), |AllStems|)
  {
    ghost var present := Present(outputDir, baseName, files);
    stems, missing := [], [];
    for i := 0 to |AllStems|
      invariant stems == Entries(outputDir, baseName, FoundIn(present, i))
      invariant missing == MissingIn(present, i)
    {
      var stem := AllStems[i];
      CollectStep(outputDir, baseName, files, i);
      if StemPath(outputDir, baseName, stem) in files {
        stems := stems + [StemEntry(stem, StemUrl(outputDir, baseName, stem))];
      } else {
        missing := missing + [stem];
      }
    }
  }

  /** One step of the existence loop: the `i`-th stem joins exactly one of the two lists. */
  lemma CollectStep(outputDir: string, baseName: string, files: set<string>, i: nat)
    requires i < |AllStems|
    ensures var present, stem := Present(outputDir, baseName, files), AllStems[i];
      if StemPath(outputDir, baseName, stem) in files then
        Entries(outputDir, baseName, FoundIn(present, i + 1))
          == Entries(outputDir, baseName, FoundIn(present, i)) + [StemEntry(stem, StemUrl(outputDir, baseName, stem))]
        && MissingIn(present, i + 1) == MissingIn(present, i)
      else
        FoundIn(present, i + 1) == FoundIn(present, i)
        && MissingIn(present, i + 1) == MissingIn(present, i) + [stem]
  {
    var present, stem := Present(outputDir, baseName, files), AllStems[i];
    PresentIffFileExists(outputDir, baseName, files, stem);
    if stem in present {
      EntriesAppend(outputDir, baseName, FoundIn(present, i), stem);
    }
  }

  /** Each stem sits at its own index in `AllStems`. */
  lemma StemIndex(n: nat)
    requires n < |AllStems|
    ensures AllStems[n].Index() == n
    ensures forall s: Stem :: s.Index() == n ==> s == AllStems[n]
  {
  }
  /** The found list holds exactly the present stems among the first `n`. */
  lemma {:induction false} FoundMembers(present: set<Stem>, n: nat)
    requires n <= |AllStems|
    ensures forall s: Stem :: s in FoundIn(present, n) <==> s.Index() < n && s in present
  {
    if n > 0 {
      FoundMembers(present, n - 1);
      StemIndex(n - 1);
    }
  }
  /** The missing list holds exactly the absent stems among the first `n`. */
  lemma {:induction false} MissingMembers(present: set<Stem>, n: nat)
    requires n <= |AllStems|
    ensures forall s: Stem :: s in MissingIn(present, n) <==> s.Index() < n && s !in present
  {
    if n > 0 {
      MissingMembers(present, n - 1);
      StemIndex(n - 1);
    }
  }
  /** Each of the first `n` stems lands in exactly one of the two lists. */
  lemma {:induction false} FoundMissingCount(present: set<Stem>, n: nat)
    requires n <= |AllStems|
    ensures |FoundIn(present, n)| + |MissingIn(present, n)| == n
  {
    if n > 0 {
      FoundMissingCount(present, n - 1);
    }
  }
  /** The found list keeps the order vocals, drums, bass, other. */
  lemma {:induction false} FoundInOrder(present: set<Stem>, n: nat)
    requires n <= |AllStems|
    ensures forall s :: s in FoundIn(present, n) ==> s.Index() < n
    ensures InStemOrder(FoundIn(present, n))
  {
    if n > 0 {
      FoundInOrder(present, n - 1);
      StemIndex(n - 1);
    }
  }
  /** The missing list keeps the order vocals, drums, bass, other. */
  lemma {:induction false} MissingInOrder(present: set<Stem>, n: nat)
    requires n <= |AllStems|
    ensures forall s :: s in MissingIn(present, n) ==> s.Index() < n
    ensures InStemOrder(MissingIn(present, n))
  {
    if n > 0 {
      MissingInOrder(present, n - 1);
      StemIndex(n - 1);
    }
  }

  /**
   * After looking at `n` stems, each of them is in exactly one of `stems`
   * (when its file exists) and `missingFiles` (when it does not), and both
   * keep the order vocals, drums, bass, other.
   */
  lemma StemPartition(present: set<Stem>, n: nat)
    requires n <= |AllStems|
    ensures forall s: Stem :: s in FoundIn(present, n) <==> s.Index() < n && s in present
    ensures forall s: Stem :: s in MissingIn(present, n) <==> s.Index() < n && s !in present
    ensures |FoundIn(present, n)| + |MissingIn(present, n)| == n
    ensures InStemOrder(FoundIn(present, n)) && InStemOrder(MissingIn(present, n))
  {
    FoundMembers(present, n);
    MissingMembers(present, n);
    FoundMissingCount(present, n);
    FoundInOrder(present, n);
    MissingInOrder(present, n);
  }

  /** Four stems in stem order are the four stems in order. */
  lemma FullStemOrder(ks: seq<Stem>)
    requires |ks| == 4 && InStemOrder(ks)
    ensures ks == AllStems
  {
    assert ks[0].Index() < ks[1].Index() < ks[2].Index() < ks[3].Index();
  }

  /**
   * All four stems are found exactly when all four are present, and then
   * they are found in order; otherwise at least one is missing.
   */
  lemma AllStemsFoundIffAllPresent(present: set<Stem>)
    ensures |FoundIn(present, 4)| == 4 <==> forall s: Stem :: s in present
    ensures |FoundIn(present, 4)| == 4 <==> MissingIn(present, 4) == []
    ensures |FoundIn(present, 4)| == 4 ==> FoundIn(present, 4) == AllStems
  {
    FoundMissingCount(present, 4);
    var found := FoundIn(present, 4);
    var missing := MissingIn(present, 4);
    if |found| == 4 {
      MissingMembers(present, 4);
      forall s: Stem
        ensures s in present
      {
        assert s.Index() < 4;
        assert s !in missing;
      }
      FoundInOrder(present, 4);
      FullStemOrder(found);
    } else {
      MissingMembers(present, 4);
      assert missing[0] in missing;
      assert missing[0] !in present;
    }
  }

  // ---------------------------------------------------------------------------
  // /api/separate

  /**
   * The `/api/separate` handler as one function of its inputs: the upload
   * (absent when multer stored none), the output root, `Date.now()`, how the
   * probe and the run end, and the files that exist when the run ends.
   */
  function Separate(file: Option<Upload>, outputDir: string, now: nat,
                    probe: ProbeEvent, run: RunEvent, files: set<string>): Outcome
  {
    if file.None? then Outcome(Failed(400, NoFileMessage, None), files, false)
    else
      var input := file.value.path;
      var cleaned := files - {input};
      match probe
      case ProbeThrew(message) => Outcome(Failed(500, InternalErrorMessage, Some(message)), cleaned, false)
      case ProbeError => Outcome(Failed(500, ProbeErrorMessage, None), cleaned, false)
      case ProbeClosed(status) =>
        if status != Exited(0) then Outcome(Failed(500, ProbeFailedMessage, None), cleaned, false)
        else
          match run
          case RunError(message) => Outcome(Failed(500, SpawnFailedMessage, Some(message)), cleaned, true)
          case RunClosed(runStatus, stderrChunks) =>
            Outcome(RunReply(file.value, outputDir, Decimal(now), runStatus, Concat(stderrChunks), cleaned), cleaned, true)
  }

  /** The reply of the run's `close` handler, given its status, its stderr and the files left after clean-up. */
  function RunReply(file: Upload, outputDir: string, sessionId: string, status: ExitStatus,
                    stderr: string, files: set<string>): Reply
  {
    if status == Exited(0) then
      var baseName := BaseNameSansExt(file.path);
      var present := Present(outputDir, baseName, files);
      var found := FoundIn(present, 4);
      var missing := MissingIn(present, 4);
      if |found| == 4 then Separated(sessionId, Entries(outputDir, baseName, found), SuccessMessage, file.originalName, ProcessingTimeNote)
      else StemsMissing("Missing stems: " + JoinWith(Names(missing), ", "),
                        "Expected files in: " + SeparatedDir(outputDir, baseName), found)
    else
      RunFailed(if stderr == "" then DefaultRunDetails else stderr,
                if status.Exited? then Some(status.code) else None)
  }

  /** The run's `close` handler, with the existence loop collecting the stems. */
  method OnRunClose(file: Upload, outputDir: string, sessionId: string, status: ExitStatus,
                    stderr: string, files: set<string>)
    returns (reply: Reply)
    ensures reply == RunReply(file, outputDir, sessionId, status, stderr, files)
  {
    if status == Exited(0) {
      var baseName := BaseNameSansExt(file.path);
      var stems, missing := CollectStems(outputDir, baseName, files);
      EntriesKeys(outputDir, baseName, FoundIn(Present(outputDir, baseName, files), 4));
      if |stems| == 4 {
        reply := Separated(sessionId, stems, SuccessMessage, file.originalName, ProcessingTimeNote);
      } else {
        reply := StemsMissing("Missing stems: " + JoinWith(Names(missing), ", "),
                              "Expected files in: " + SeparatedDir(outputDir, baseName), Keys(stems));
      }
    } else {
      var details := if stderr == "" then DefaultRunDetails else stderr;
      reply := RunFailed(details, if status.Exited? then Some(status.code) else None);
    }
  }

  /**
   * The handler as the server runs it: the callbacks in order, stderr
   * accumulated chunk by chunk, and the stems collected by the existence loop.
   */
  method HandleSeparate(file: Option<Upload>, outputDir: string, now: nat,
                        probe: ProbeEvent, run: RunEvent, files: set<string>)
    returns (outcome: Outcome)
    ensures outcome == Separate(file, outputDir, now, probe, run, files)
  {
    if file.None? {
      return Outcome(Failed(400, NoFileMessage, None), files, false);
    }
    var input := file.value.path;
    var sessionId := Decimal(now);
    match probe {
      case ProbeThrew(message) =>
        return Outcome(Failed(500, InternalErrorMessage, Some(message)), files - {input}, false);
      case ProbeError =>
        return Outcome(Failed(500, ProbeErrorMessage, None), files - {input}, false);
      case ProbeClosed(status) =>
        if status != Exited(0) {
          return Outcome(Failed(500, ProbeFailedMessage, None), files - {input}, false);
        }
    }
    match run {
      case RunError(message) =>
        return Outcome(Failed(500, SpawnFailedMessage, Some(message)), files - {input}, true);
      case RunClosed(status, stderrChunks) =>
        var stderr := Accumulate(stderrChunks);
        var remaining := files - {input};
        var reply := OnRunClose(file.value, outputDir, sessionId, status, stderr, remaining);
        return Outcome(reply, remaining, true);
    }
  }

  // ---------------------------------------------------------------------------
  // Properties of /api/separate

  /** Without a file the reply is 400 and nothing is started or removed. */
  lemma NoFileIsRejected(outputDir: string, now: nat, probe: ProbeEvent, run: RunEvent, files: set<string>)
    ensures var o := Separate(None, outputDir, now, probe, run, files);
      && o.reply == Failed(400, NoFileMessage, None)
      && o.files == files && !o.separationStarted
  {
  }

  /**
   * Every request with a file removes exactly the stored input, whatever
   * happens, and a request with no file removes nothing.
   */
  lemma InputAlwaysRemoved(file: Option<Upload>, outputDir: string, now: nat,
                           probe: ProbeEvent, run: RunEvent, files: set<string>)
    ensures var o := Separate(file, outputDir, now, probe, run, files);
      o.files == if file.Some? then files - {file.value.path} else files
  {
  }

  /** Separation starts exactly when a file arrived and the probe exited with 0, as `/api/check-demucs` reports it. */
  lemma SeparationStartsOnlyAfterProbe(file: Option<Upload>, outputDir: string, now: nat,
                                       probe: ProbeEvent, run: RunEvent, files: set<string>)
    ensures Separate(file, outputDir, now, probe, run, files).separationStarted
        <==> file.Some? && CheckDemucs(probe).installed
    ensures file.Some? && !CheckDemucs(probe).installed ==>
      Separate(file, outputDir, now, probe, run, files).reply.Status() == 500
  {
  }

  /**
   * A run that ends with anything but exit code 0 fails with that code (none
   * after a signal) and the captured stderr, or the default text when stderr
   * was empty.
   */
  lemma RunFailureReportsExitCode(file: Upload, outputDir: string, now: nat,
                                  status: ExitStatus, chunks: seq<string>, files: set<string>)
    requires status != Exited(0)
    ensures var o := Separate(Some(file), outputDir, now, ProbeClosed(Exited(0)), RunClosed(status, chunks), files);
      && o.reply.RunFailed?
      && o.reply.Status() == 500
      && o.reply.exitCode == (if status.Exited? then Some(status.code) else None)
      && o.reply.runDetails == (if Concat(chunks) == "" then DefaultRunDetails else Concat(chunks))
  {
  }

  /** The present stems are exactly those whose files exist. */
  lemma PresentMembers(outputDir: string, baseName: string, files: set<string>)
    ensures forall s: Stem :: s in Present(outputDir, baseName, files) <==> StemPath(outputDir, baseName, s) in files
  {
    forall s: Stem
      ensures s in Present(outputDir, baseName, files) <==> StemPath(outputDir, baseName, s) in files
    {
      PresentIffFileExists(outputDir, baseName, files, s);
    }
  }

  /**
   * A run that exits with 0 succeeds exactly when all four stem files exist
   * once the input is removed; the success reply lists the four stems in
   * order, each with its own URL.
   */
  lemma SuccessIffAllStemsExist(file: Upload, outputDir: string, sessionId: string, stderr: string, files: set<string>)
    ensures var reply := RunReply(file, outputDir, sessionId, Exited(0), stderr, files);
      var baseName := BaseNameSansExt(file.path);
      && (reply.Separated? <==> forall s: Stem :: StemPath(outputDir, baseName, s) in files)
      && (reply.Separated? ==>
            && Keys(reply.stems) == AllStems
            && reply.sessionId == sessionId
            && reply.message == SuccessMessage
            && reply.originalFile == file.originalName
            && reply.processingTime == ProcessingTimeNote
            && forall e :: e in reply.stems ==> e.url == StemUrl(outputDir, baseName, e.stem))
  {
    var baseName := BaseNameSansExt(file.path);
    var present := Present(outputDir, baseName, files);
    AllStemsFoundIffAllPresent(present);
    EntriesKeys(outputDir, baseName, FoundIn(present, 4));
    PresentMembers(outputDir, baseName, files);
  }

  /**
   * When some stem is missing, the error names exactly the missing stems in
   * order, joined with `, `.
   */
  lemma MissingStemsError(file: Upload, outputDir: string, sessionId: string, stderr: string, files: set<string>)
    ensures var reply := RunReply(file, outputDir, sessionId, Exited(0), stderr, files);
      var missing := MissingIn(Present(outputDir, BaseNameSansExt(file.path), files), 4);
      reply.StemsMissing? ==>
        && missing != []
        && reply.error == "Missing stems: " + JoinWith(Names(missing), ", ")
  {
    var baseName := BaseNameSansExt(file.path);
    AllStemsFoundIffAllPresent(Present(outputDir, baseName, files));
  }

  /**
   * When some stem is missing, the missing list and `generatedStems` hold
   * exactly the stems whose files are absent and present, each in stem
   * order, and together they cover the four stems with no overlap.
   */
  lemma MissingStemsPartition(file: Upload, outputDir: string, sessionId: string, stderr: string, files: set<string>)
    ensures var reply := RunReply(file, outputDir, sessionId, Exited(0), stderr, files);
      var baseName := BaseNameSansExt(file.path);
      var missing := MissingIn(Present(outputDir, baseName, files), 4);
      reply.StemsMissing? ==>
        && InStemOrder(missing) && InStemOrder(reply.generatedStems)
        && (forall s: Stem :: s in missing <==> StemPath(outputDir, baseName, s) !in files)
        && (forall s: Stem :: s in reply.generatedStems <==> StemPath(outputDir, baseName, s) in files)
        && |missing| + |reply.generatedStems| == 4
  {
    var baseName := BaseNameSansExt(file.path);
    var present := Present(outputDir, baseName, files);
    StemPartition(present, 4);
    PresentMembers(outputDir, baseName, files);
  }

  /** Once the probe passes and the run exits, the reply is the `close` handler's, over the files left after clean-up. */
  lemma RunClosedReply(file: Upload, outputDir: string, now: nat, status: ExitStatus,
                       chunks: seq<string>, files: set<string>)
    ensures Separate(Some(file), outputDir, now, ProbeClosed(Exited(0)), RunClosed(status, chunks), files)
         == Outcome(RunReply(file, outputDir, Decimal(now), status, Concat(chunks), files - {file.path}),
                    files - {file.path}, true)
  {
  }

  /** Whether the stored input still existed when the run ended does not change the reply. */
  lemma CleanupDoesNotChangeReply(file: Upload, outputDir: string, now: nat, probe: ProbeEvent,
                                  run: RunEvent, files: set<string>)
    ensures Separate(Some(file), outputDir, now, probe, run, files + {file.path}).reply
         == Separate(Some(file), outputDir, now, probe, run, files - {file.path}).reply
  {
    assert (files + {file.path}) - {file.path} == (files - {file.path}) - {file.path};
  }
}
