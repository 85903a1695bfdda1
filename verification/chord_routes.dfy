/**
 * The chord-analysis route: its upload filter (an unanchored regular
 * expression over the lower-cased extension), the stored file name, and the
 * `/analyze` close handler's cascade from the analyser's exit code, through
 * parsing its output, to the merged JSON reply.
 *
 * JSON parsing is an input: a function from text to a value, or to nothing
 * when `JSON.parse` would throw.
 */
module ChordRoutes {
  import opened Base
  import opened Strings
  import opened NodePath
  import opened UploadFilter
  import SeparationServer

  type ExitStatus = SeparationServer.ExitStatus
  type Upload = SeparationServer.Upload
  type FilterDecision = SeparationServer.FilterDecision

  /** The alternatives of `/mp3|wav|m4a|ogg|flac/`. */
  const AudioPatterns: seq<string> := ["mp3", "wav", "m4a", "ogg", "flac"]

  const AudioOnlyMessage := "Only audio files are allowed"
  const NoFileMessage := "No audio file uploaded"
  const AnalysisFailedMessage := "Analysis failed"
  const ParseFailedMessage := "Failed to parse analysis results"

  /** `/mp3|wav|m4a|ogg|flac/.test(s)`: one alternative occurs anywhere in `s`. */
  predicate AudioRegexTest(s: string) {
    Contains(s, "mp3") || Contains(s, "wav") || Contains(s, "m4a") || Contains(s, "ogg") || Contains(s, "flac")
  }

  /** The regular expression matches exactly when one of its alternatives occurs. */
  lemma AudioRegexTestIffPattern(s: string)
    ensures AudioRegexTest(s) <==> exists w :: w in AudioPatterns && Contains(s, w)
  {
    if AudioRegexTest(s) {
      var w := if Contains(s, "mp3") then AudioPatterns[0]
        else if Contains(s, "wav") then AudioPatterns[1]
        else if Contains(s, "m4a") then AudioPatterns[2]
        else if Contains(s, "ogg") then AudioPatterns[3]
        else AudioPatterns[4];
      assert w in AudioPatterns && Contains(s, w);
    }
    if exists w :: w in AudioPatterns && Contains(s, w) {
      var w :| w in AudioPatterns && Contains(s, w);
      var i :| 0 <= i < |AudioPatterns| && AudioPatterns[i] == w;
      assert AudioRegexTest(s);
    }
  }

  /** The route's `fileFilter`: the lower-cased extension must contain one of the alternatives. */
  function ChordFileFilter(originalName: string): (r: FilterDecision)
    ensures r.Accept? <==> exists w :: w in AudioPatterns && Contains(Lower(ExtName(originalName)), w)
    ensures r.Reject? ==> r.message == AudioOnlyMessage
  {
    var ext := Lower(ExtName(originalName));
    AudioRegexTestIffPattern(ext);
    if AudioRegexTest(ext) then SeparationServer.Accept else SeparationServer.Reject(AudioOnlyMessage)
  }

  /** A name without an extension is rejected: the regular expression has nothing to match. */
  lemma EmptyExtensionRejected(originalName: string)
    requires ExtName(originalName) == ""
    ensures ChordFileFilter(originalName).Reject?
  {
    var ext := Lower(ExtName(originalName));
    assert ext == "";
    forall w | w in AudioPatterns
      ensures !Contains(ext, w)
    {
      assert |w| > 0;
    }
  }

  /** Because the pattern is unanchored, an extension that merely contains `mp3`, such as `.mp3x`, passes. */
  lemma UnanchoredPatternAcceptsLongerExtension(prefix: string)
    requires prefix != "" && '/' !in prefix && '.' !in prefix
    ensures ChordFileFilter(prefix + ".mp3x").Accept?
  {
    ExtNameOfPlainName(prefix, ".mp3x");
    var ext := Lower(".mp3x");
    assert ext == ".mp3x";
    assert OccursAt(ext, "mp3", 1);
    assert "mp3" in AudioPatterns;
  }

  /** Every name the separation servers accept is also accepted here. */
  lemma SeparationTypesAreAudio(originalName: string)
    requires HasAllowedType(originalName)
    ensures ChordFileFilter(originalName).Accept?
  {
    var ext := Lower(ExtName(originalName));
    AllowedTypeTailIsPattern(ext);
    var w := ext[1..];
    assert OccursAt(ext, w, 1);
  }

  /** Each allowed type, without its leading `.`, is one of the alternatives. */
  lemma AllowedTypeTailIsPattern(t: string)
    requires t in AllowedTypes
    ensures |t| >= 1 && t[1..] in AudioPatterns
  {
    if t == ".mp3" { assert t[1..] == "mp3"; }
    else if t == ".wav" { assert t[1..] == "wav"; }
    else if t == ".flac" { assert t[1..] == "flac"; }
    else { assert t[1..] == "m4a"; }
  }

  /** `${Date.now()}-${file.originalname}`. */
  function StoredName(now: nat, originalName: string): string {
    Decimal(now) + "-" + originalName
  }

  /** Splits a stored name at its first `-` into the time and the original name. */
  function ParseStoredName(stored: string): Option<(nat, string)> {
    match IndexOf(stored, "-")
    case None => None
    case Some(i) =>
      var digits := stored[..i];
      if AllDigits(digits) then Some((DecimalValue(digits), stored[i + 1..])) else None
  }

  /** The stored name keeps the original name unmodified after the time and a `-`. */
  lemma StoredNameRoundTrip(now: nat, originalName: string)
    ensures ParseStoredName(StoredName(now, originalName)) == Some((now, originalName))
  {
    var d := Decimal(now);
    var s := StoredName(now, originalName);
    assert OccursAt(s, "-", |d|);
    forall j | 0 <= j < |d|
      ensures !OccursAt(s, "-", j)
    {
      assert s[j] == d[j];
    }
    assert IndexOf(s, "-") == Some(|d|);
    assert s[..|d|] == d;
    assert s[|d| + 1..] == originalName;
    DecimalRoundTrip(now);
  }

  // ---------------------------------------------------------------------------
  // JSON values and the reply

  datatype Json =
    | JNull
    | JBool(b: bool)
    | JNum(n: real)
    | JStr(s: string)
    | JArr(items: seq<Json>)
    | JObj(fields: map<string, Json>)

  /** JavaScript truthiness of a parsed value. */
  predicate Truthy(v: Json) {
    match v
    case JNull => false
    case JBool(b) => b
    case JNum(n) => n != 0.0
    case JStr(s) => s != ""
    case JArr(_) => true
    case JObj(_) => true
  }

  /** `result.error` is truthy; only an object can carry such a field. */
  predicate HasErrorField(v: Json) {
    v.JObj? && "error" in v.fields && Truthy(v.fields["error"])
  }

  /** The own enumerable properties of the first `n` characters of a string, keyed by index. */
  function StringSpread(s: string, n: nat): (r: map<string, Json>)
    requires n <= |s|
    ensures forall i :: 0 <= i < n ==> Decimal(i) in r && r[Decimal(i)] == JStr([s[i]])
    ensures forall k :: k in r ==> AllDigits(k) && DecimalValue(k) < n
    ensures forall k :: k in r ==> exists i :: 0 <= i < n && k == Decimal(i)
  {
    if n == 0 then map[]
    else
      DecimalRoundTrip(n - 1);
      StringSpread(s, n - 1)[Decimal(n - 1) := JStr([s[n - 1]])]
  }

  /** The own enumerable properties of the first `n` array items, keyed by index. */
  function ArraySpread(items: seq<Json>, n: nat): (r: map<string, Json>)
    requires n <= |items|
    ensures forall i :: 0 <= i < n ==> Decimal(i) in r && r[Decimal(i)] == items[i]
    ensures forall k :: k in r ==> AllDigits(k) && DecimalValue(k) < n
    ensures forall k :: k in r ==> exists i :: 0 <= i < n && k == Decimal(i)
  {
    if n == 0 then map[]
    else
      DecimalRoundTrip(n - 1);
      ArraySpread(items, n - 1)[Decimal(n - 1) := items[n - 1]]
  }

  /** The properties `...result` copies: an object's fields, a string's or array's indices, nothing otherwise. */
  function Spread(v: Json): map<string, Json> {
    match v
    case JObj(fields) => fields
    case JStr(s) => StringSpread(s, |s|)
    case JArr(items) => ArraySpread(items, |items|)
    case _ => map[]
  }

  /** A reply: its HTTP status and its JSON body. */
  datatype Reply = Reply(status: int, body: map<string, Json>)

  function ErrorReply(status: int, message: string): Reply {
    Reply(status, map["error" := JStr(message)])
  }

  /** `{ ...result, audioUrl: '/' + filePath, filename: originalname }`. */
  function Merge(result: Json, file: Upload): map<string, Json> {
    Spread(result)["audioUrl" := JStr("/" + file.path)]["filename" := JStr(file.originalName)]
  }

  /**
   * The `/analyze` handler as one function: the upload (absent when multer
   * stored none), the analyser's exit status, its stdout chunks and the JSON
   * parser.
   */
  function Analyze(file: Option<Upload>, status: ExitStatus, chunks: seq<string>,
                   parse: string -> Option<Json>): Reply
  {
    if file.None? then ErrorReply(400, NoFileMessage)
    else if status != SeparationServer.Exited(0) then ErrorReply(500, AnalysisFailedMessage)
    else
      match parse(Concat(chunks))
      case None => ErrorReply(500, ParseFailedMessage)
      case Some(result) =>
        // reading `.error` of `null` throws inside the same `try`
        if result.JNull? then ErrorReply(500, ParseFailedMessage)
        else if HasErrorField(result) then Reply(500, map["error" := result.fields["error"]])
        else Reply(200, Merge(result, file.value))
  }

  /** The handler as the route runs it: stdout accumulated chunk by chunk, then the `close` cascade. */
  method HandleAnalyze(file: Option<Upload>, status: ExitStatus, chunks: seq<string>,
                       parse: string -> Option<Json>)
    returns (reply: Reply)
    ensures reply == Analyze(file, status, chunks, parse)
  {
    if file.None? {
      return ErrorReply(400, NoFileMessage);
    }
    var dataString := Accumulate(chunks);
    if status != SeparationServer.Exited(0) {
      return ErrorReply(500, AnalysisFailedMessage);
    }
    var parsed := parse(dataString);
    if parsed.None? || parsed.value.JNull? {
      return ErrorReply(500, ParseFailedMessage);
    }
    var result := parsed.value;
    if HasErrorField(result) {
      return Reply(500, map["error" := result.fields["error"]]);
    }
    reply := Reply(200, Merge(result, file.value));
  }

  // ---------------------------------------------------------------------------
  // Properties of /analyze

  /** Without a file the reply is 400, whatever else happened. */
  lemma NoFileIs400(status: ExitStatus, chunks: seq<string>, parse: string -> Option<Json>)
    ensures Analyze(None, status, chunks, parse) == ErrorReply(400, NoFileMessage)
  {
  }

  /** A non-zero or missing exit code gives 500 `Analysis failed`, whatever the output was. */
  lemma FailedRunIgnoresOutput(file: Upload, status: ExitStatus, chunks: seq<string>,
                               parse: string -> Option<Json>, otherChunks: seq<string>)
    requires status != SeparationServer.Exited(0)
    ensures Analyze(Some(file), status, chunks, parse) == ErrorReply(500, AnalysisFailedMessage)
    ensures Analyze(Some(file), status, chunks, parse) == Analyze(Some(file), status, otherChunks, parse)
  {
  }

  /** A clean exit whose output does not parse gives 500 with the parse-failure message. */
  lemma UnparsableOutputFails(file: Upload, chunks: seq<string>, parse: string -> Option<Json>)
    requires parse(Concat(chunks)).None?
    ensures Analyze(Some(file), SeparationServer.Exited(0), chunks, parse) == ErrorReply(500, ParseFailedMessage)
  {
  }

  /** A parsed result with a truthy `error` field gives 500 carrying that value unchanged. */
  lemma ErrorFieldIsForwarded(file: Upload, chunks: seq<string>, parse: string -> Option<Json>)
    requires parse(Concat(chunks)).Some? && HasErrorField(parse(Concat(chunks)).value)
    ensures var reply := Analyze(Some(file), SeparationServer.Exited(0), chunks, parse);
      && reply.status == 500
      && reply.body == map["error" := parse(Concat(chunks)).value.fields["error"]]
  {
  }

  /**
   * The reply is 200 exactly when a file arrived, the analyser exited with
   * 0, and its output parsed to a value that is neither `null` nor an object
   * with a truthy `error`; every other reply is a 400 or a 500 with an
   * `error` key.
   */
  lemma SuccessIff(file: Option<Upload>, status: ExitStatus, chunks: seq<string>, parse: string -> Option<Json>)
    ensures var reply := Analyze(file, status, chunks, parse);
      var parsed := parse(Concat(chunks));
      reply.status == 200 <==>
        && file.Some? && status == SeparationServer.Exited(0)
        && parsed.Some? && !parsed.value.JNull? && !HasErrorField(parsed.value)
    ensures var reply := Analyze(file, status, chunks, parse);
      reply.status != 200 ==> (reply.status == 400 || reply.status == 500) && reply.body.Keys == {"error"}
  {
  }

  /**
   * On success the body holds every parsed key, `audioUrl` is `/` plus the
   * stored path and `filename` the client's name, overriding parsed keys of
   * the same names; every other parsed key keeps its value.
   */
  lemma SuccessMergesResult(file: Upload, chunks: seq<string>, parse: string -> Option<Json>)
    requires Analyze(Some(file), SeparationServer.Exited(0), chunks, parse).status == 200
    ensures var reply := Analyze(Some(file), SeparationServer.Exited(0), chunks, parse);
      var fields := Spread(parse(Concat(chunks)).value);
      && reply.body.Keys == fields.Keys + {"audioUrl", "filename"}
      && reply.body["audioUrl"] == JStr("/" + file.path)
      && reply.body["filename"] == JStr(file.originalName)
      && forall k :: k in fields && k != "audioUrl" && k != "filename" ==> reply.body[k] == fields[k]
  {
  }
}
