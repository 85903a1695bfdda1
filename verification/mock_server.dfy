/**
 * The mock separation server used for interface work: the same upload
 * allow-list as the production server, a stored name prefixed with the form
 * field, and an `/api/separate` that never runs a separation but removes the
 * stored upload and answers with four fixed stem URLs derived from the
 * client's file name.
 */
module MockServer {
  import opened Base
  import opened Strings
  import opened NodePath
  import opened UploadFilter
  import opened SeparationServer

  const MockInvalidTypeMessage := "Invalid file type"
  const MockSuccessMessage := "Mock separation completed successfully! (No actual processing - UI testing mode)"

  /** The mock's `fileFilter`: the same allow-list, a shorter rejection message. */
  function MockFileFilter(originalName: string): (r: FilterDecision)
    ensures r.Accept? <==> EndsInAllowedType(originalName)
    ensures r.Accept? <==> FileFilter(originalName).Accept?
    ensures r.Reject? ==> r.message == MockInvalidTypeMessage
  {
    AllowedTypeIffSuffix(originalName);
    if HasAllowedType(originalName) then Accept else Reject(MockInvalidTypeMessage)
  }

  /** The mock's `filename`: `fieldname + '-' + uniqueSuffix + path.extname(originalname)`. */
  function MockStoredFileName(fieldName: string, suffix: string, originalName: string): string {
    fieldName + "-" + suffix + ExtName(originalName)
  }

  /** The stored upload keeps the original extension, and its base name is `<fieldname>-<suffix>`. */
  lemma MockStoredNameKeepsExtension(uploadDir: string, fieldName: string, now: nat, random: nat, originalName: string)
    requires '.' !in fieldName && '/' !in fieldName
    ensures var path := Join(uploadDir, MockStoredFileName(fieldName, UniqueSuffix(now, random), originalName));
      && ExtName(path) == ExtName(originalName)
      && BaseNameSansExt(path) == fieldName + "-" + UniqueSuffix(now, random)
  {
    var prefix := fieldName + "-" + UniqueSuffix(now, random);
    assert '.' !in prefix && '/' !in prefix;
    ExtNameShape(originalName);
    assert MockStoredFileName(fieldName, UniqueSuffix(now, random), originalName) == prefix + ExtName(originalName);
    ExtNameOfJoinedName(uploadDir, prefix, ExtName(originalName));
  }

  const MockStemsPrefix := "/mock-stems/"

  /** The mock URL of one stem: `/mock-stems/<stem>_<baseName>.wav`. */
  function MockStemUrl(stem: Stem, baseName: string): string {
    MockStemsPrefix + stem.Name() + "_" + baseName + ".wav"
  }

  /** The four stem names start with four different letters. */
  lemma StemInitialsDistinct(s: Stem, t: Stem)
    requires s != t
    ensures s.Name()[0] != t.Name()[0]
  {
  }

  /** Different stems never share a URL, whatever the base name. */
  lemma MockStemUrlsDistinct(s: Stem, t: Stem, baseName: string)
    requires s != t
    ensures MockStemUrl(s, baseName) != MockStemUrl(t, baseName)
  {
    StemInitialsDistinct(s, t);
    assert MockStemUrl(s, baseName)[|MockStemsPrefix|] == s.Name()[0];
    assert MockStemUrl(t, baseName)[|MockStemsPrefix|] == t.Name()[0];
  }

  /** The base name can be read back out of a stem's URL. */
  function BaseNameOfMockUrl(stem: Stem, url: string): string
    requires |url| >= |MockStemsPrefix| + |stem.Name()| + 1 + 4
  {
    url[|MockStemsPrefix| + |stem.Name()| + 1..|url| - 4]
  }

  /** Reading the base name back out of a stem's URL gives the base name it was built from. */
  lemma MockStemUrlRoundTrip(stem: Stem, baseName: string)
    ensures var url := MockStemUrl(stem, baseName);
      |url| >= |MockStemsPrefix| + |stem.Name()| + 1 + 4 && BaseNameOfMockUrl(stem, url) == baseName
  {
    var url := MockStemUrl(stem, baseName);
    var k := |MockStemsPrefix| + |stem.Name()| + 1;
    assert url == (MockStemsPrefix + stem.Name() + "_") + baseName + ".wav";
    assert url[k..|url| - 4] == baseName;
  }

  /** Each stem's URL determines the base name, so two files with different base names get different URLs. */
  lemma MockStemUrlInjective(stem: Stem, b1: string, b2: string)
    requires MockStemUrl(stem, b1) == MockStemUrl(stem, b2)
    ensures b1 == b2
  {
    MockStemUrlRoundTrip(stem, b1);
    MockStemUrlRoundTrip(stem, b2);
  }

  /** The mock `stems` object for a client's file name, keys in the order vocals, drums, bass, other. */
  function MockStems(originalName: string): (r: seq<StemEntry>)
    ensures Keys(r) == AllStems
    ensures forall i :: 0 <= i < |r| ==> r[i].url == MockStemUrl(r[i].stem, BaseNameSansExt(originalName))
  {
    var baseName := BaseNameSansExt(originalName);
    var r := seq(4, i requires 0 <= i < 4 => StemEntry(AllStems[i], MockStemUrl(AllStems[i], baseName)));
    assert Keys(r) == AllStems;
    r
  }

  /** The stems of the mock reply carry four different URLs. */
  lemma MockStemsDistinct(originalName: string)
    ensures var r := MockStems(originalName);
      forall i, j :: 0 <= i < j < |r| ==> r[i].url != r[j].url
  {
    var r := MockStems(originalName);
    forall i, j | 0 <= i < j < |r|
      ensures r[i].url != r[j].url
    {
      assert Keys(r)[i] == AllStems[i] && Keys(r)[j] == AllStems[j];
      StemIndex(i);
      StemIndex(j);
      MockStemUrlsDistinct(r[i].stem, r[j].stem, BaseNameSansExt(originalName));
    }
  }

  /** The mock's JSON replies. */
  datatype MockReply =
    | NoFile(error: string)   // 400, success: false
    | MockSeparated(sessionId: string, stems: seq<StemEntry>, message: string)
  {
    function Status(): int {
      if NoFile? then 400 else 200
    }
  }

  /** The reply and the files that exist afterwards. */
  datatype MockOutcome = MockOutcome(reply: MockReply, files: set<string>)

  /**
   * The mock `/api/separate`: without a file, 400; otherwise, after the
   * delay, the stored upload is removed (a failed removal is only logged)
   * and the fixed stems are sent with `Date.now()` as the session id.
   */
  function MockSeparate(file: Option<Upload>, now: nat, files: set<string>): MockOutcome {
    match file
    case None => MockOutcome(NoFile(NoFileMessage), files)
    case Some(f) => MockOutcome(MockSeparated(Decimal(now), MockStems(f.originalName), MockSuccessMessage), files - {f.path})
  }

  /** Without a file the mock answers 400 and removes nothing. */
  lemma MockNoFileIsRejected(now: nat, files: set<string>)
    ensures MockSeparate(None, now, files) == MockOutcome(NoFile(NoFileMessage), files)
    ensures MockSeparate(None, now, files).reply.Status() == 400
  {
  }

  /**
   * With a file the mock always succeeds, whether or not the stored upload
   * still exists: it removes exactly that upload, its session id reads back
   * as the request time, and the four stems come in order.
   */
  lemma MockAlwaysSucceeds(f: Upload, now: nat, files: set<string>)
    ensures var o := MockSeparate(Some(f), now, files);
      && o.reply.MockSeparated?
      && o.reply.Status() == 200
      && o.files == files - {f.path}
      && f.path !in o.files
      && AllDigits(o.reply.sessionId) && DecimalValue(o.reply.sessionId) == now
      && Keys(o.reply.stems) == AllStems
    ensures MockSeparate(Some(f), now, files).reply == MockSeparate(Some(f), now, files + {f.path}).reply
  {
    DecimalRoundTrip(now);
  }
}
