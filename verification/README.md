# AI music landing page: a verified model of its decision logic

The repository is a music web app. It has three parts:

- An Express server that separates an uploaded song into four stems (vocals, drums, bass, other) with the Demucs tool. It comes in two versions: a production one, `server-real.js`, and a mock one, `server.js`.
- A chord-analysis route that runs a Python template matcher over the song's chroma.
- React pages that show the stems and chords: a multi-track mixer, a stem-extractor page and a chord display.

This project models the decision logic of those parts in Dafny and proves what they promise. The stored-file names, the upload allow-lists, the reply cascades, the stem bookkeeping, the chord ranking, the chord lookup tables and the page state machines are all modelled. Child processes, the file system, the clock, random numbers and network requests are not run. They enter as plain values:

- a process is the event that ends it;
- the file system is the set of paths that exist;
- `Date.now()` and `Math.random()` are whole numbers;
- a `fetch` is the way it ended;
- `JSON.parse` is a function that returns a value, or nothing when it would throw.

Modules, one per source file plus shared helpers:

- `Base`: the `Option` type.
- `Strings`: ASCII lower-casing, first-occurrence search and replace, decimal digits, and stdout/stderr chunk accumulation.
- `NodePath`: `path.extname`, `path.basename` without extension, and `path.join`.
- `UploadFilter`: the audio allow-list shared by both servers.
- `SeparationServer` (`server-real.js`).
- `MockServer` (`server.js`).
- `ChordRoutes` (`src/routes/chordRoutes.js`).
- `ChordDetection` (`src/python/chord_analyzer.py`).
- `ChordDisplay` (`src/components/ChordDisplay.jsx`).
- `MultiTrackPlayer`, with the class `Mixer` (`src/components/MultiTrackPlayer.jsx`).
- `StemExtractor`, with the class `Extractor` (`src/components/StemExtractor.jsx`).

Code that mutates state step by step is modelled imperatively: the output accumulation, the stem-collection loop, the similarity loop, the mixer and the extractor page. Each such method is proved against a specification function or a class invariant. Everything else is modelled as functions and lemmas.

## Model

| member | source | states |
|---|---|---|
| NodePath.ExtName | server-real.js:41 | The extension is a suffix of the path's final segment. It is either empty or a dot followed by no other dot, and is always shorter than the segment, so a lone leading dot is never an extension. |
| NodePath.BaseNameSansExt | server-real.js:166 | The base name followed by the extension gives back the final segment. |
| NodePath.ExtNameShape | server-real.js:41 | Every extension is empty, or a dot followed by text with no dot and no slash. |
| NodePath.ExtNameOfJoinedName | server-real.js:166 | A stored name `<prefix><ext>` under a directory has extension `ext` and base name `prefix`, when the prefix has no dot or slash. |
| Strings.Lower | server-real.js:41 | Lower-casing keeps the length and maps each character on its own; only A–Z change. |
| Strings.IndexOf | src/components/MultiTrackPlayer.jsx:330 | Some position exactly when the text contains the pattern. That position holds an occurrence, and no occurrence starts earlier. |
| Strings.BackslashesToSlashes | server-real.js:187 | The result has the same length and no backslash. Every other character is kept in place. |
| Strings.BackslashFreeUnchanged | server-real.js:187 | Text without backslashes comes back unchanged. |
| Strings.DecimalRoundTrip | server-real.js:91 | Reading back the digits of `n.toString()` gives `n`. |
| Strings.Accumulate | server-real.js:138-150 | Appending chunks in arrival order yields their concatenation, whose length is the sum of the chunk lengths. |
| UploadFilter.AllowedTypeIffSuffix | server-real.js:40-42 | The lower-cased extension is in the allow-list exactly when the lower-cased final segment ends in `.mp3`, `.wav`, `.flac` or `.m4a` with at least one character before it. |
| UploadFilter.AcceptedEndsInAllowedType | server-real.js:40-42 | An accepted name ends in an allowed type (one direction of the equivalence). |
| UploadFilter.EndingInAllowedTypeIsAccepted | server-real.js:40-42 | A name ending in an allowed type is accepted (the other direction). |
| SeparationServer.FileFilter | server-real.js:39-47 | Accepts exactly the names ending in an allowed type. Any rejection carries the message naming the four types. |
| SeparationServer.UniqueSuffix | server-real.js:31 | The time-and-random suffix contains no dot and no slash. |
| SeparationServer.StoredNameKeepsExtension | server-real.js:30-33 | The stored upload has the original extension with its original case. Its base name is `audio-<suffix>`. |
| SeparationServer.CheckDemucs | server-real.js:60-78 | `/api/check-demucs` reports installed exactly when the probe exits with code 0. A thrown error's message is passed on. |
| SeparationServer.StemPathUnderRoot | server-real.js:167-177 | A stem file is `<output>/htdemucs/<baseName>/<stem>.mp3`. |
| SeparationServer.StemUrlHasNoBackslash | server-real.js:186-187 | No stem URL contains a backslash. |
| SeparationServer.StemUrlShape | server-real.js:166-187 | For a base name without backslashes, a stem URL is `/separated/htdemucs/<baseName>/<stem>.mp3`. |
| SeparationServer.Entries | server-real.js:183-188 | There is one entry per found stem, in the same order, each carrying that stem's URL. |
| SeparationServer.EntriesKeys | server-real.js:214 | `Object.keys(stems)` are exactly the found stems, each with its own URL. |
| SeparationServer.PresentIffFileExists | server-real.js:184 | A stem counts as present exactly when its file exists. |
| SeparationServer.CollectStems | server-real.js:180-196 | The existence loop builds `stems` with the present stems and their URLs, and `missingFiles` with the absent stems. Both keep the order vocals, drums, bass, other. |
| SeparationServer.FoundMembers | server-real.js:183-188 | After `n` steps, the found list holds exactly the present stems among the first `n`. |
| SeparationServer.MissingMembers | server-real.js:192-194 | After `n` steps, the missing list holds exactly the absent stems among the first `n`. |
| SeparationServer.FoundMissingCount | server-real.js:180-196 | Each of the first `n` stems lands in exactly one of the two lists. |
| SeparationServer.FoundInOrder | server-real.js:180-196 | The found list keeps the stem order and has no repeats. |
| SeparationServer.MissingInOrder | server-real.js:180-196 | The missing list keeps the stem order and has no repeats. |
| SeparationServer.StemPartition | server-real.js:180-196 | The found and missing lists partition the stems, each in stem order. |
| SeparationServer.FullStemOrder | server-real.js:172-177 | Four stems in stem order are exactly vocals, drums, bass, other. |
| SeparationServer.AllStemsFoundIffAllPresent | server-real.js:198 | Four stems are found exactly when all are present, which is exactly when none is missing. The four found stems are then in order. |
| SeparationServer.OnRunClose | server-real.js:153-230 | The run's `close` handler, with its existence loop, produces the reply that `RunReply` specifies. |
| SeparationServer.HandleSeparate | server-real.js:81-257 | The handler, which accumulates stderr chunk by chunk, produces the outcome that `Separate` specifies. |
| SeparationServer.NoFileIsRejected | server-real.js:82-87 | Without a file the reply is 400 with `No audio file uploaded`. No process is started and no file is removed. |
| SeparationServer.InputAlwaysRemoved | server-real.js:105-162 | With a file, exactly the stored input is removed on every path. Without a file, nothing is removed. |
| SeparationServer.SeparationStartsOnlyAfterProbe | server-real.js:114-136 | Separation starts exactly when a file arrived and the capability probe exited with 0. Otherwise the reply is 500. |
| SeparationServer.RunFailureReportsExitCode | server-real.js:217-229 | A run that does not exit with 0 replies 500 with its exit code, or none after a signal. The details are the captured stderr, or the default text when stderr is empty. |
| SeparationServer.SuccessIffAllStemsExist | server-real.js:198-207 | After a clean exit the reply is success exactly when all four stem files exist. The success reply lists the four stems in order, each with its URL. It also carries the session id, the success message, the client's file name and the fixed `processingTime` note. |
| SeparationServer.MissingStemsError | server-real.js:208-215 | On the missing-stems failure, at least one stem is missing. The error is `Missing stems: ` followed by their names joined with `, `. |
| SeparationServer.MissingStemsPartition | server-real.js:180-215 | On that failure, the missing list and `generatedStems` hold exactly the absent and present stems, each in stem order, four in total. |
| SeparationServer.RunClosedReply | server-real.js:153-164 | Once the probe passes and the run closes, the reply is the `close` handler's, over the files left after the input is removed. |
| SeparationServer.CleanupDoesNotChangeReply | server-real.js:156-162 | Whether or not the stored input still existed, the reply is the same. |
| MockServer.MockFileFilter | server.js:34-42 | Accepts exactly the names the production filter accepts. Any rejection says `Invalid file type`. |
| MockServer.MockStoredNameKeepsExtension | server.js:25-28 | The stored upload keeps the original extension. Its base name is `<fieldname>-<suffix>`. |
| MockServer.MockStems | server.js:82-88 | The mock stems are vocals, drums, bass and other, in that order. Each URL is `/mock-stems/<stem>_<base>.wav`, with `base` the original name minus its extension. |
| MockServer.MockStemUrlsDistinct | server.js:83-88 | Different stems never share a URL. |
| MockServer.MockStemUrlRoundTrip | server.js:82-88 | The base name can be read back out of a stem's URL. |
| MockServer.MockStemUrlInjective | server.js:82-88 | Different base names give different URLs. |
| MockServer.MockStemsDistinct | server.js:83-88 | The four URLs of a reply are pairwise different. |
| MockServer.MockNoFileIsRejected | server.js:62-67 | Without a file the reply is 400 with `No audio file uploaded`, and nothing is removed. |
| MockServer.MockAlwaysSucceeds | server.js:70-95 | With a file the reply is always a 200 success. Its session id reads back as the request time. Exactly the upload is removed, and the reply does not depend on whether that removal could happen. |
| ChordRoutes.AudioRegexTestIffPattern | src/routes/chordRoutes.js:18-19 | `/mp3\|wav\|m4a\|ogg\|flac/.test` holds exactly when one of the five alternatives occurs anywhere in the text. |
| ChordRoutes.ChordFileFilter | src/routes/chordRoutes.js:17-24 | Accepts exactly when the lower-cased extension contains one of the alternatives. Any rejection says `Only audio files are allowed`. |
| ChordRoutes.EmptyExtensionRejected | src/routes/chordRoutes.js:18-23 | A name without an extension is rejected. |
| ChordRoutes.UnanchoredPatternAcceptsLongerExtension | src/routes/chordRoutes.js:18-21 | An extension that merely contains an alternative, such as `.mp3x`, is accepted. |
| ChordRoutes.SeparationTypesAreAudio | src/routes/chordRoutes.js:18-21 | Every name the separation servers accept is accepted here too. |
| ChordRoutes.StoredNameRoundTrip | src/routes/chordRoutes.js:10-12 | The stored name splits at its first `-` into the timestamp and the unmodified original name. |
| ChordRoutes.StringSpread | src/routes/chordRoutes.js:58 | Spreading a string gives exactly its index keys, each mapped to its character. |
| ChordRoutes.ArraySpread | src/routes/chordRoutes.js:58 | Spreading an array gives exactly its index keys, each mapped to its item. |
| ChordRoutes.HandleAnalyze | src/routes/chordRoutes.js:27-66 | The handler, which accumulates stdout chunk by chunk, produces the reply that `Analyze` specifies. |
| ChordRoutes.NoFileIs400 | src/routes/chordRoutes.js:28-30 | Without a file the reply is 400 with `No audio file uploaded`. |
| ChordRoutes.FailedRunIgnoresOutput | src/routes/chordRoutes.js:46-48 | A failed run replies 500 `Analysis failed`, whatever its output was. |
| ChordRoutes.UnparsableOutputFails | src/routes/chordRoutes.js:62-64 | A clean exit whose output does not parse replies 500 `Failed to parse analysis results`. |
| ChordRoutes.ErrorFieldIsForwarded | src/routes/chordRoutes.js:53-55 | A parsed result with a truthy `error` replies 500 with that value unchanged. |
| ChordRoutes.SuccessIff | src/routes/chordRoutes.js:45-65 | The reply is 200 exactly when a file arrived, the run exited with 0, and the output parsed to something that is neither `null` nor carries a truthy `error`. Every other reply is a 400 or a 500 whose only key is `error`. |
| ChordRoutes.SuccessMergesResult | src/routes/chordRoutes.js:57-61 | On success the body holds every parsed key. `audioUrl` is `/` plus the stored path and `filename` is the client's name, overriding same-named parsed keys. Every other key keeps its value. |
| ChordDetection.TemplateEntry | src/python/chord_analyzer.py:35-48 | Template `r` holds a 1 exactly at `r`, `r+4` and `r+7` (mod 12), and 0 elsewhere. |
| ChordDetection.TemplatesAreTriads | src/python/chord_analyzer.py:35-48 | Every one of the twelve templates is the major triad on its own index. |
| ChordDetection.TriadHasThreeNotes | src/python/chord_analyzer.py:35-48 | The root, third and fifth are three different pitch classes. |
| ChordDetection.KeyNamesDistinct | src/python/chord_analyzer.py:15 | The twelve key names are pairwise different. |
| ChordDetection.MeanChroma | src/python/chord_analyzer.py:51 | Each of the twelve means, multiplied by the number of frames, gives back that row's sum from `np.sum(chroma, axis=1)`. |
| ChordDetection.MeanAndSumShareArgMax | src/python/chord_analyzer.py:16 | The key taken as the first argmax of the summed chroma is the one the mean chroma would give, since dividing by the frame count keeps the order. |
| ChordDetection.FirstArgMax | src/python/chord_analyzer.py:16 | The index holds the largest value, and every earlier value is strictly smaller. |
| ChordDetection.DotIndicator | src/python/chord_analyzer.py:56 | A dot product with an indicator row is the sum over the indicated positions. |
| ChordDetection.MaskedSumUnion | src/python/chord_analyzer.py:56 | The sum over two disjoint position sets is the sum of the two sums. |
| ChordDetection.TriadSimilarity | src/python/chord_analyzer.py:51-57 | A chord's similarity is the mean chroma at its root plus its third plus its fifth. |
| ChordDetection.Similarities | src/python/chord_analyzer.py:54-57 | The loop yields one score per template, in template order, each equal to that triad sum. |
| ChordDetection.Insert | src/python/chord_analyzer.py:60 | Insertion adds exactly the one index, as a multiset. |
| ChordDetection.InsertRanked | src/python/chord_analyzer.py:60 | Inserting a new index keeps the list ranked. |
| ChordDetection.SortByScore | src/python/chord_analyzer.py:60 | Sorting is a permutation of its input. |
| ChordDetection.SortRanked | src/python/chord_analyzer.py:60 | Sorting a list without repeats ranks it: higher score first, and equal scores in template order. |
| ChordDetection.Ranking | src/python/chord_analyzer.py:60 | The ranking lists the twelve templates, each once, as valid template indices. |
| ChordDetection.RankingIsStableDescending | src/python/chord_analyzer.py:60 | The ranking holds each of the twelve templates exactly once, in non-increasing score order, with ties kept in template order. |
| ChordDetection.TopChordsAreBest | src/python/chord_analyzer.py:60-61 | The top four are four different templates in non-increasing score order, with ties in template order. Each scores at least as high as, and is ranked before, every template left out. |
| ChordDetection.DetectChords | src/python/chord_analyzer.py:32-61 | Returns exactly four chord names: those of the top four templates for the mean chroma. |
| ChordDetection.ChordNames | src/python/chord_analyzer.py:61 | Every name is one of the twelve key names, and template indices without repeats give names without repeats. |
| ChordDetection.DetectedNamesDistinct | src/python/chord_analyzer.py:54-61 | The four names returned are four different names of the twelve. |
| ChordDetection.AnalyzeSong | src/python/chord_analyzer.py:6-30 | A load failure gives a record holding only `error`. Otherwise the record holds the tempo, the key at the first argmax, `key + " Major"`, and the four detected chords. |
| ChordDetection.KeyIsFirstLargest | src/python/chord_analyzer.py:15-17 | The key is the first pitch class whose summed chroma is largest. |
| ChordDisplay.NameIndex | src/components/ChordDisplay.jsx:7-34 | A name is found exactly when it is one of the twelve chord names, and then at its own index. |
| ChordDisplay.NameIndexOfKey | src/components/ChordDisplay.jsx:7-34 | Each chord name is found at its own index. |
| ChordDisplay.GuitarShapeFor | src/components/ChordDisplay.jsx:136 | A known chord gets its own guitar shape; an unknown one gets the C shape. |
| ChordDisplay.PianoKeysFor | src/components/ChordDisplay.jsx:37 | A known chord gets its own piano keys; an unknown one gets `[0, 4, 7]`. |
| ChordDisplay.FallbacksAreC | src/components/ChordDisplay.jsx:37 | Both unknown-name fallbacks equal the entries for C. |
| ChordDisplay.PianoChordIsTriad | src/components/ChordDisplay.jsx:30-34 | The piano entry at index `r` is `[r, (r+4)%12, (r+7)%12]`. |
| ChordDisplay.PianoChordMatchesTemplate | src/components/ChordDisplay.jsx:30-34 | As sets, each piano triad equals the 1-positions of the analyser's template of the same name. |
| ChordDisplay.GuitarShapesFitInstrument | src/components/ChordDisplay.jsx:8-23 | Every guitar shape has six frets and six fingers, matching the six strings and the six-note tuning. Every fret is at least -1. |
| ChordDisplay.GuitarFingersAndBarres | src/components/ChordDisplay.jsx:8-19 | Fingers run from 0 to 5, and every barre lies on a fret that the shape uses. |
| ChordDisplay.KeyboardPartition | src/components/ChordDisplay.jsx:38-56 | The white keys and the black keys are disjoint and together cover the twelve pitch classes. |
| ChordDisplay.RenderKeyboard | src/components/ChordDisplay.jsx:43-69 | A white key is lit exactly when its pitch class is in the chord. Each black slot is a spacer or a key lit by the same rule. |
| ChordDisplay.SlotsRenderAsWritten | src/components/ChordDisplay.jsx:55-68 | Slot 2 renders a spacer. Slot 6 reads past the array and renders a black key that is never lit. The other slots are lit exactly when their pitch class is in the chord. |
| ChordDisplay.PitchShownOnce | src/components/ChordDisplay.jsx:38-56 | Each pitch class is shown by exactly one key of the keyboard. |
| ChordDisplay.Diagrams | src/components/ChordDisplay.jsx:125-142 | There is one card per detected chord, in order, titled with that chord and drawn for the selected view. |
| ChordDisplay.PianoCardMatchesTemplate | src/components/ChordDisplay.jsx:47 | A detected chord's piano card lights a white key exactly when the analyser's template has that note. |
| MultiTrackPlayer.Flip | src/components/MultiTrackPlayer.jsx:269 | The key's flag is inverted (a missing key counts as false), and every other entry is kept. |
| MultiTrackPlayer.FlipTwice | src/components/MultiTrackPlayer.jsx:282 | Toggling the same flag twice restores the map. |
| MultiTrackPlayer.SoloMix | src/components/MultiTrackPlayer.jsx:283-293 | While any stem is soloed, a loaded track is muted exactly when it is not soloed; otherwise it takes its own mute flag. Volume and play state are kept. |
| MultiTrackPlayer.SoloTwiceRestoresMix | src/components/MultiTrackPlayer.jsx:280-293 | Soloing a stem twice leaves the tracks as one pass of the solo rule over the original solo map would. |
| MultiTrackPlayer.MuteTrack | src/components/MultiTrackPlayer.jsx:271-274 | Only the named track changes, taking its stem's mute flag. |
| MultiTrackPlayer.MuteOverridesSolo | src/components/MultiTrackPlayer.jsx:267-278 | Unmuting a track that is not soloed makes it audible even while another stem is soloed, contrary to the solo rule. |
| MultiTrackPlayer.Mixer.constructor | src/components/MultiTrackPlayer.jsx:5-11 | The initial volumes are 0.8, 0.6, 0.7 and 0.5. No stem is muted or soloed, nothing is loaded and nothing plays. |
| MultiTrackPlayer.PauseTracks | src/components/MultiTrackPlayer.jsx:186-190 | Every element ends paused, with its volume and mute flag kept. |
| MultiTrackPlayer.StartTracks | src/components/MultiTrackPlayer.jsx:168-175 | An element runs afterwards exactly when it ran before or its `play()` resolved. Volume and mute flag are kept. |
| MultiTrackPlayer.PauseUndoesPlay | src/components/MultiTrackPlayer.jsx:155-194 | Pausing after a play leaves the elements exactly as pausing straight away would. |
| MultiTrackPlayer.StartTracksExtremes | src/components/MultiTrackPlayer.jsx:168-175 | When every element started none is paused. When none started nothing changes. |
| MultiTrackPlayer.Mixer.FinishLoading | src/components/MultiTrackPlayer.jsx:80-124 | Each ready element is kept by its stem, replacing an earlier one, at the volume read when loading began, not the slider's current value. The player becomes loaded once any element is. |
| MultiTrackPlayer.Mixer.SetVolume | src/components/MultiTrackPlayer.jsx:258-265 | Only the named stem's volume changes, in the state and on its element. The volume bounds are kept. |
| MultiTrackPlayer.Mixer.ToggleMute | src/components/MultiTrackPlayer.jsx:267-278 | The stem's flag is inverted. Its element takes the new flag whatever is soloed. |
| MultiTrackPlayer.Mixer.ToggleSolo | src/components/MultiTrackPlayer.jsx:280-297 | The stem's solo flag is inverted, and every loaded track then follows the solo rule. |
| MultiTrackPlayer.Mixer.PlayAll | src/components/MultiTrackPlayer.jsx:155-183 | Nothing changes unless the player is loaded and has a track. Otherwise the elements become `StartTracks` of the old ones, and the player plays with its trackers on even if none started. |
| MultiTrackPlayer.Mixer.PauseAll | src/components/MultiTrackPlayer.jsx:185-194 | The elements become `PauseTracks` of the old ones, `isPlaying` becomes false and the trackers stop. |
| MultiTrackPlayer.Mixer.TogglePlay | src/components/MultiTrackPlayer.jsx:249-256 | When playing, every element pauses and the player and trackers stop. Otherwise a loaded player with a track starts the elements and plays, and a player without one keeps every element as it was. Volumes, flags, `isLoaded` and the element keys are kept in every case. |
| MultiTrackPlayer.Pad2 | src/components/MultiTrackPlayer.jsx:321 | Produces two digits that read back as the number. |
| MultiTrackPlayer.FormatTime | src/components/MultiTrackPlayer.jsx:317-322 | Produces digits, a colon and two digits, with the seconds below 60. |
| MultiTrackPlayer.FormatTimeRoundTrip | src/components/MultiTrackPlayer.jsx:317-322 | The clock reads back as the number of seconds. A missing or zero time shows `0:00`. |
| MultiTrackPlayer.ResolveUrl | src/components/MultiTrackPlayer.jsx:81 | A source starting with `http` is kept as is; any other is put under `http://localhost:5001`. The result always starts with `http` and ends with the source. |
| MultiTrackPlayer.ResolveUrlIdempotent | src/components/MultiTrackPlayer.jsx:81 | Resolving a resolved URL changes nothing. |
| MultiTrackPlayer.DownloadBase | src/components/MultiTrackPlayer.jsx:330 | Never empty. A missing name gives `stem`, and a non-empty name holding no `.mp3` is kept as it is (`song.wav` stays `song.wav`). |
| MultiTrackPlayer.DownloadStem | src/components/MultiTrackPlayer.jsx:325-336 | A link exists exactly when the stem has a non-empty URL. The link is under `http://localhost:5001`, and the file is named `<DownloadBase>_<stem>.mp3`. |
| MultiTrackPlayer.DownloadBaseRemovesFirstMp3 | src/components/MultiTrackPlayer.jsx:330 | Only the first `.mp3` is removed: `x + ".mp3" + y` becomes `x + y` when `x` holds no `.mp3`. |
| MultiTrackPlayer.DownloadBaseFallback | src/components/MultiTrackPlayer.jsx:330 | Removing the first `.mp3` leaves nothing exactly for the empty name and `.mp3` itself, which fall back to `stem`. Every other name keeps what the removal leaves. |
| StemExtractor.StatusDerivation | src/components/StemExtractor.jsx:21-53 | The page is ready exactly when the capability check reported Demucs installed. It is offline exactly when the health check failed or a request threw, and Demucs is missing otherwise. |
| StemExtractor.Failure | src/components/StemExtractor.jsx:114-129 | There is no error exactly when the server reported success. |
| StemExtractor.ErrorShown | src/components/StemExtractor.jsx:130-132 | The error shown is absent exactly on success. Otherwise it starts with `Processing failed: `. |
| StemExtractor.ProgressStepsShape | src/components/StemExtractor.jsx:91-126 | Progress starts at 0, takes only the values 0, 5, 15 and 100, never decreases, and ends at 100 exactly on success. |
| StemExtractor.StripFinalExtension | src/components/StemExtractor.jsx:146 | Something is stripped exactly when `/\.[^/.]+$/` matches, and then exactly the match is removed. The result is a prefix of the name. |
| StemExtractor.StripAgreesWithExtName | src/components/StemExtractor.jsx:146 | For a name whose extension has at least one character after the dot, stripping gives the base name without extension. |
| StemExtractor.StripDotFile | src/components/StemExtractor.jsx:146 | Every dot-file name whose only `.` leads it, such as `.env`, is stripped to nothing, although `path.extname` sees no extension in it. |
| StemExtractor.DownloadStem | src/components/StemExtractor.jsx:139-158 | The link is the file path under `http://localhost:5001`, saved as the stripped name plus `_<stem>.mp3`. |
| StemExtractor.Extractor.constructor | src/components/StemExtractor.jsx:7-14 | The page starts checking, with nothing selected, no progress, no result and no error. |
| StemExtractor.Extractor.CheckStatus | src/components/StemExtractor.jsx:21-53 | The status follows the check. A missing Demucs sets `Demucs not installed: <message>`, a thrown request sets the offline message, and a failed health check leaves the error as it was. |
| StemExtractor.Extractor.Retry | src/components/StemExtractor.jsx:161-165 | The status goes back to checking and the error is cleared. |
| StemExtractor.Extractor.HandleFileChange | src/components/StemExtractor.jsx:55-60 | The file is selected, the error and results are cleared, and progress is back at 0. |
| StemExtractor.Extractor.HandleDrag | src/components/StemExtractor.jsx:62-70 | `dragenter` and `dragover` light the zone and `dragleave` clears it. Other events change nothing. |
| StemExtractor.Extractor.HandleDrop | src/components/StemExtractor.jsx:72-79 | A drop always clears the highlight, and selects the first dropped file if there is one. |
| StemExtractor.Extractor.ProcessAudio | src/components/StemExtractor.jsx:82-136 | Without a file nothing changes. With a server that is not ready, only the error is set. Otherwise progress runs through its steps, a success stores the result, a failure sets the error, and processing is over at the end. |
| StemExtractor.Extractor.Receive | src/components/StemExtractor.jsx:106-135 | After the request: the remaining progress steps, then the result on success or the prefixed error on failure. |

## Left out

- Process spawning, the stdout/stderr event wiring, Express routing, static file serving, and multer's multipart parsing and size limits are left out. Each process is the single event that ends it.
- The order of a process's `error` and `close` events is left out. Both can respond in `server-real.js`; each is modelled as the only event.
- The unguarded `unlinkSync` calls that could throw when the input is already gone (server-real.js:107, 116, 235) are left out. Removal is set subtraction, which cannot fail.
- `Date.now()` and `Math.random()` are whole-number parameters.
- `path.join` is modelled as joining with `/`, without normalising `.` or `..` segments. `path.relative` is modelled only for a path below its root.
- NodePath follows POSIX path rules throughout. On Windows, `path.relative` yields backslashes and `path.extname`/`path.basename` also split at `\`. Those rules are not modelled, so the backslash replacement at server-real.js:187 never changes a modelled URL (`Strings.BackslashFreeUnchanged`).
- Lower-casing covers ASCII A–Z only. No non-ASCII character lower-cases to a letter of the allow-lists.
- ChordRoutes.Merge and SeparationServer.Reply do not record the order of JSON keys. The body is a map, and the stem lists are sequences in stem order.
- The analyser's librosa loading, beat tracking, CQT chroma and floating-point arithmetic are left out, and so is tempo rounding. The chroma is taken as twelve real rows of equal, non-zero length. The tempo is passed through.
- The analyser script's command-line entry and its printing are left out. The route's parser is a parameter.
- Authentication middleware on the chord route is left out.
- MultiTrackPlayer.FormatTime: covers whole, non-negative seconds only. Fractional and negative times are not modelled.
- MultiTrackPlayer.Mixer.FinishLoading: requires every ready stem to have a volume entry. A stem outside the four initial keys would make the volume assignment throw, and that path is not modelled.
- MultiTrackPlayer.Mixer.FinishLoading: the volume read when loading began is a parameter, and is required to lie in 0..1 as every earlier volume state does. The load's interleaving with other handlers is not modelled.
- The player's `Audio` loading timeouts, `setInterval`/`requestAnimationFrame` time tracking, resync tolerance, seeking, end-of-track reset and waveform drawing are floating-point or timer-driven and are left out.
- `downloadAllStems` and the chord display's view-mode buttons are left out.
- StemExtractor.Extractor.ProcessAudio: the awaited requests happen in one step, so the `processing` flag is never seen true between operations. The button it disables is not modelled.
- StemExtractor.Extractor.CheckStatus: takes the outcome of both requests as one value. The health body is only logged and is not modelled.
- The random progress endpoint and the stub download endpoint of the two servers are left out.
- Presentation-only components are left out: the app shell, navigation, hero, features, footer, cards, about pages, resource page, chord tutor, protected route and login. So is the chord analyser page, which is a network client.
- A lookup of a chord name that names an inherited object property (such as `constructor`) is not modelled. Only the twelve names and unknown names are.
