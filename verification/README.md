# ContextSnap verification

Models of ContextSnap's in-tree algorithms and protocols, and proofs about them. One module per
component; `dafny verify dfyconfig.toml` checks the whole project.

- **JSON text** (`JsonText`, `JsonRoundTrip`, `JsonParser`): values, the printer and the parser as functions
  on byte positions, the parser object and printing loops proved to compute them, and the exact set of values
  that survive printing and parsing.
- **Wire stack** (`Framing`, `Relay`, `Messages`, `Rpc`, `RpcSafety`, `Plans`): length-prefixed frames and the
  incremental reader, the native-messaging relay over scripted partial reads and writes, and one client
  connection as a state machine whose steps are calls, timeouts, partial writes under the session mutex, failed
  writes and broadcasts. On top of both, a restore plan crosses the wire.
- **Matching and restore** (`Similarity`, `Matching`, `Geometry`, `Desktop`, `Restore`, `RestoreMatching`,
  `RestoreSteps`, `RestoreLaunch`, `RestoreSafety`, `RestoreRun`, `Inbox`, `Tabs`): edit distance, greedy
  assignment, monitor remapping over exact reals, planning and executing a restore on the in-memory window
  system with and without launching, the mailbox between daemon and browser hosts, and the two-pass tab
  assignment.
- **Codecs and hashes** (`Lz4`, `Sha256`, `Utf16`, `Snss`, `Ulid`).
- **URL sanitizer** (`Glob`, `Url`, `Sanitizer`, `Resanitizing`): the iterative glob, URL parsing and printing, the
  rule fold for any rules and options, and what becomes of a result that is sanitized again.

`Base` holds bytes, options, results and a few facts about sequences. Strings are sequences of bytes. Library
calls are parameters: number printing and reading (`DoubleText`), title similarity, application-id
normalisation and geometric proximity, and Shannon entropy. Clocks are timeouts that may happen at any step.

Where code and documentation differ, the code is followed:

- `docs/ipc-protocol.md:37` shows an error `code` as a number; `src/ipc/protocol.cpp:141` sends its name.
- The comment at `src/core/json.cpp:35` says that 17 digits bring a double back exactly; the parser reads with
  `std::stod` (`src/core/json.cpp:315`), which throws where the text of a subnormal double is out of range.
- The comment at `src/core/geometry.cpp:196` speaks of the largest surviving display, but `primary_monitor`
  already answers with the first one, so the last search is never reached.
- `src/privacy/sanitizer.cpp:144` lets a `*` in the text consume a `*` of the pattern before it is tried as a
  wildcard; `Glob.RightExactlyWithoutStar` gives the texts this matters for.

## Model

| member | source | states |
|---|---|---|
| JsonRoundTrip.ParseOfSerialize | src/core/json.cpp:53-323 | for every value whose own doubles print as number literals, and every indent: the text parses to the value with each double as its text reads (whole ones as integers, NaN as null) when it is at most 128 deep and no text is refused; otherwise it is refused for its depth or for a number, whichever applies |
| JsonRoundTrip.RoundTrip | src/core/json.cpp:604-622 | for those values: parse(serialize(v, indent)) is v exactly when v is at most 128 deep and every double in it prints with a point or an exponent to a text that stod reads back as that double |
| JsonRoundTrip.RoundTripWithoutDoubles | src/core/json.cpp:604-622 | a value without doubles comes back exactly when it is at most 128 deep and is refused for its depth otherwise, with no assumption on number printing or reading |
| JsonRoundTrip.SubnormalIsRefused | src/core/json.cpp:310-322 | where stod throws on 5e-324, the text that this double prints as is refused as out of range: the second way a round trip fails |
| JsonRoundTrip.BackIsIdentity | src/core/json.cpp:335-398 | what a text reads back as is the printed value exactly when every double in it has a point or an exponent in print and reads back |
| JsonRoundTrip.SerializeInjective | src/core/json.cpp:604-609 | two surviving values with the same text are the same value |
| JsonRoundTrip.WholeDoubleBecomesInteger | src/core/json.cpp:286-323 | the double 1.0 printed as 1 comes back as the integer 1 |
| JsonRoundTrip.StringReads | src/core/json.cpp:205-263 | an escaped string followed by its quote is read back byte for byte, whatever the bytes |
| JsonText.DecimalRoundTrip | src/core/json.cpp:286-323 | decimal text denotes the number it was printed from |
| JsonText.IntTextReads | src/core/json.cpp:286-323 | every int64 is read back from its text, including the least one |
| JsonText.MarginWidth | src/core/json.cpp:327-333 | indentation is indent times depth blanks |
| JsonParser.Parser.SkipWhitespace | src/core/json.cpp:77-86 | advances to the first byte that is no blank |
| JsonParser.Parser.Consume | src/core/json.cpp:88-94 | advances over the expected byte or stays |
| JsonParser.Parser.ParseHex4 | src/core/json.cpp:265-284 | reads four hex digits of either case, or fails at the offset the specification gives |
| JsonParser.Parser.ParseUnicodeEscape | src/core/json.cpp:229-250 | combines a surrogate pair, leaves a lone surrogate standing for itself, and resets the position when the second escape does not fit |
| JsonParser.Parser.ParseEscape | src/core/json.cpp:214-255 | every escape letter, and the error and offset of an unknown one |
| JsonParser.Parser.ParseString | src/core/json.cpp:205-263 | the string up to its quote, or the error the specification gives |
| JsonParser.Parser.ParseNumberLiteral | src/core/json.cpp:286-323 | the delimited literal as int64, double or error |
| JsonParser.Parser.ParseWord | src/core/json.cpp:96-98 | a literal word or its error |
| JsonParser.Parser.ParseJson | src/core/json.cpp:100-141 | the value at the position, at every depth up to the limit |
| JsonParser.Parser.ParseArray | src/core/json.cpp:180-203 | the array loop computes the specified array or error |
| JsonParser.Parser.ParseObject | src/core/json.cpp:143-178 | the object loop keeps duplicate keys and order |
| JsonParser.Parser.ParseDocument | src/core/json.cpp:57-70 | one value, blanks, and nothing more |
| JsonParser.ParseText | src/core/json.cpp:611-622 | parse as a whole equals the specification, with the byte order mark dropped |
| JsonParser.EscapeText | src/core/json.cpp:578-602 | the escaping loop equals the bytewise escape |
| JsonParser.WriteIndent | src/core/json.cpp:327-333 | a newline and the margin, or nothing for a negative indent |
| JsonParser.SerializeInto | src/core/json.cpp:335-398 | appends exactly the specified text of the value to what is there |
| JsonParser.Dump | src/core/json.cpp:565-567 | dump is serialize |
| Framing.PrefixRoundTrip | src/ipc/protocol.cpp:211-224 | a length prefix denotes the payload length |
| Framing.ChunkingIsInvisible | src/ipc/protocol.cpp:246-259 | what a drained reader has handed out and kept depends on the concatenation of the chunks only |
| Framing.FailureIsPermanent | src/ipc/protocol.cpp:248-259 | an oversized prefix stops the reader for good, whatever is fed later |
| Framing.DrainOfWire | src/ipc/protocol.cpp:211-259 | the reader hands out exactly the framed payloads and keeps an unfinished tail |
| Framing.WireOfDrain | src/ipc/protocol.cpp:211-259 | re-framing what came out, followed by what is kept, is what went in |
| Framing.PartialFrameWaits | src/ipc/protocol.cpp:226-244 | no proper prefix of a frame decodes or fails |
| Framing.WholeFrame | src/ipc/protocol.cpp:226-244 | a decoded frame is within the limit and its encoding stood at the front |
| Framing.FrameReader.Feed | src/ipc/protocol.cpp:246-246 | the buffer becomes the old buffer followed by the bytes fed |
| Framing.FrameReader.Next | src/ipc/protocol.cpp:248-259 | takes the front frame off the buffer, and leaves the buffer alone on an error or a missing byte |
| Relay.WriteBytes | src/browser/native_messaging.cpp:167-177 | writes all bytes, or a prefix of them and reports failure, under any sequence of partial writes |
| Relay.WritePayload | src/browser/native_messaging.cpp:179-187 | as much of the payload's frame, all of it on success |
| Relay.ForwardFrames | src/browser/native_messaging.cpp:203-219 | the inner loop passes on the frames the reader holds and stops dry, on an error or on a refused write |
| Relay.Pump | src/browser/native_messaging.cpp:194-222 | for any reads, writes, timeouts and stop flag: the bytes written are a prefix of the bytes read, and all of them up to the last frame boundary unless a write was refused; the shared flag is cleared on every way out |
| Messages.RequestDocument | src/ipc/protocol.cpp:79-113 | a request document reads back as the request |
| Messages.ResponseDocument | src/ipc/protocol.cpp:115-181 | a response document reads back whole and is never taken for an event |
| Messages.EventDocument | src/ipc/protocol.cpp:183-209 | an event document is recognised as one |
| RpcSafety.StepKeepsWire | src/ipc/server.cpp:16-34 | every enabled step of client, worker or broadcaster keeps both byte streams, the readers on them and the log in order, whatever the number codec does |
| RpcSafety.StepKeepsInv | src/ipc/server.cpp:139-238 | where doubles print as number literals, every step also keeps each returned reply with its own request |
| RpcSafety.RunKeepsWire | src/ipc/server.cpp:139-238 | every state of every run satisfies the invariant of the byte streams, whatever the number codec does |
| RpcSafety.RunKeepsInv | src/ipc/server.cpp:139-238 | every state of every run satisfies the whole invariant where doubles print as number literals |
| RpcSafety.WireIsWholeFrames | src/ipc/server.cpp:16-34 | with no assumption on the number codec: until a write has failed inside a frame, each direction carries whole frames and a proper prefix of the frame being written, on the daemon's side that of the thread holding the mutex |
| RpcSafety.RepliesMatchRequests | src/ipc/client.cpp:275-356 | where doubles print as number literals, whatever stod makes of them: a reply that a call returned is the daemon's answer to that very request, and no other request had its id |
| RpcSafety.AnswersFollowRequests | src/ipc/server.cpp:139-220 | the worker answers what was asked in the order asked, each once; it reads a request and answers under its id exactly when the document is not too deep and no double in it is refused, and under id 0 otherwise |
| Plans.BuildPlan | src/storage/serialization.cpp:279-300 | the building loops produce the plan document |
| Plans.BuildStrings | src/storage/serialization.cpp:44-51 | a list of strings as an array of strings |
| Plans.ReadPlan | src/ipc/client.cpp:117-138 | the reading loops compute plan_from_json |
| Plans.PlanDocument | src/storage/serialization.cpp:279-300 | plan_from_json undoes to_json for every plan |
| Plans.StepDocument | src/ipc/client.cpp:117-138 | a step reads back, its absent skip reason as the empty one |
| Plans.RoundTrip | src/ipc/client.cpp:275-356 | the client loop writes one whole request frame and returns the first reply with its id among the frames it took, losing no byte it read |
| Plans.PlanCrossesTheWire | src/ipc/client.cpp:117-138 | every plan whose reply fits a frame, printed, framed, cut into any chunks, reassembled and decoded, is the plan the daemon sent, with no assumption on the number codec |
| Similarity.ComputeSimilarity | src/core/matching.cpp:176-209 | the three rolling rows compute the similarity defined by the recursive distance |
| Similarity.FillRow | src/core/matching.cpp:193-205 | one inner loop fills a whole row of the distance table from the two rows before it |
| Similarity.DistanceAttained | src/core/matching.cpp:176-209 | some alignment by inserts, deletes, replacements and adjacent swaps costs exactly the distance |
| Similarity.DistanceIsLeast | src/core/matching.cpp:176-209 | no such alignment costs less |
| Similarity.DistanceSymmetric | src/core/matching.cpp:176-209 | the distance does not depend on the order of the arguments |
| Similarity.DistanceZero | src/core/matching.cpp:176-209 | the distance is zero exactly for equal strings |
| Similarity.SimilarityLaws | src/core/matching.cpp:176-209 | the similarity lies in [0,1], is symmetric, and is 1 exactly for equal strings |
| Matching.Score | src/core/matching.cpp:230-270 | the score lies in [0,1], is at least 0.6 for the same application, 1 for its same-titled window, 0 for clearly different applications |
| Matching.CollectCandidates | src/core/matching.cpp:282-291 | collects exactly the pairs at or above the threshold |
| Matching.TakeGreedily | src/core/matching.cpp:302-312 | takes a one-to-one choice of the sorted candidates that dominates every one of them |
| Matching.Untaken | src/core/matching.cpp:313-322 | the free indices in ascending order, all of them |
| Matching.MatchWindows | src/core/matching.cpp:272-324 | one-to-one on eligible pairs, the unmatched lists hold exactly the other indices in order, and every eligible pair shares a side with a match scoring at least as high |
| Matching.HalfOptimal | src/core/matching.cpp:272-324 | the total score is at least half that of any one-to-one assignment of eligible pairs, the scores being non-negative as score() makes them |
| Matching.Partition | src/core/matching.cpp:313-324 | matches and unmatched lists together count each index once on both sides |
| Lz4.DecodeOfEncode | src/browser/session_firefox.cpp:20-63 | every valid block decodes to its expansion |
| Lz4.EncodeOfDecode | src/browser/session_firefox.cpp:20-63 | whatever is accepted is the encoding of a valid block, and the result is its expansion |
| Lz4.AcceptsExactlyBlocks | src/browser/session_firefox.cpp:20-63 | a byte string is accepted exactly when some valid block encodes to it, and then every such block expands to the result |
| Lz4.CopyRepeats | src/browser/session_firefox.cpp:57-60 | in an overlapping copy each new byte equals the one offset before it |
| Lz4.ExpansionBound | src/browser/session_firefox.cpp:20-63 | no input grows more than 255-fold |
| Lz4.AddExtra | src/browser/session_firefox.cpp:28-35 | the do-while adds length bytes up to the first below 255, or runs out |
| Lz4.LengthAt | src/browser/session_firefox.cpp:27-35 | a nibble of fifteen goes on with length bytes, any other stands for itself |
| Lz4.CopyMatch | src/browser/session_firefox.cpp:57-60 | reading back from what was just written repeats the last bytes periodically |
| Lz4.Decompress | src/browser/session_firefox.cpp:20-63 | the loop accepts and produces exactly what the specification does |
| Lz4.DecompressMozLz4 | src/browser/session_firefox.cpp:119-139 | accepted exactly with the magic, a valid block and, unless it is zero, the declared size |
| Sha256.HashChunks | src/privacy/crypto.cpp:30-107 | any list of update calls followed by finish gives the one-shot digest of FIPS 180-4 of the concatenation |
| Sha256.Hash | src/privacy/crypto.cpp:275-279 | the one-call form gives the same digest |
| Sha256.Hasher.Update | src/privacy/crypto.cpp:75-84 | after update the object has absorbed the old message followed by the data, however blocks fall |
| Sha256.Hasher.Finish | src/privacy/crypto.cpp:86-106 | padding, length and last blocks yield the digest of everything absorbed |
| Sha256.Hasher.Block | src/privacy/crypto.cpp:39-73 | folds the buffered block into the hash value |
| Sha256.Hasher.PutPadding | src/privacy/crypto.cpp:87-93 | the marker and the zeros are those of section 5.1.1, with one more block when the length does not fit |
| Sha256.Hasher.PutLength | src/privacy/crypto.cpp:94-96 | the eight bytes are the bit count, highest first |
| Sha256.Hasher.Output | src/privacy/crypto.cpp:98-105 | the eight words, high byte first |
| Sha256.Schedule | src/privacy/crypto.cpp:52-61 | the array holds the message schedule of section 6.2.2 |
| Sha256.RunRounds | src/privacy/crypto.cpp:62-69 | the loop performs the 64 rounds of section 6.2.2 |
| Sha256.PaddingIsMinimal | src/privacy/crypto.cpp:86-97 | marker and zeros are the least number of bits that leaves 448 modulo 512 |
| Sha256.PadIsInjective | src/privacy/crypto.cpp:86-97 | below 2^61 bytes no two messages share a padding |
| Utf16.Reader.ReadU32 | src/browser/session_chromium.cpp:95-103 | the little-endian word at the offset, or failure without moving |
| Utf16.Reader.ReadString16 | src/browser/session_chromium.cpp:123-159 | succeeds exactly when there are fewer than 2^31 counted units and they are all there, gives their UTF-8 and stops at the next multiple of four |
| Utf16.Reader.DecodeUnits | src/browser/session_chromium.cpp:129-156 | the loop gives the UTF-8 of the counted units and moves past them |
| Utf16.PickleReads | src/browser/session_chromium.cpp:123-159 | a pickled unit string is read back unit by unit |
| Utf16.UnitsOfPoints | src/browser/session_chromium.cpp:123-159 | pairing units into code points loses nothing, well formed or not |
| Utf16.Transcodes | src/browser/session_chromium.cpp:123-159 | on well-formed UTF-16 the bytes are the UTF-8 of the same characters (section 3 of RFC 3629) |
| Utf16.Utf8Reads | src/core/json.cpp:12-28 | length and payload bits of an encoded code point follow from its bytes by the templates of RFC 3629 |
| Utf16.DecodeIsInjective | src/browser/session_chromium.cpp:123-159 | different unit strings, well formed or not, give different bytes |
| Utf16.SpellingParses | src/core/json.cpp:205-284 | a JSON string spelling each unit as an escape, in digits of either case, parses to what the reader makes of the units |
| Utf16.JsonAgreesWithReader | src/core/json.cpp:205-284 | for every unit string the document of its escapes parses to the reader's bytes (pairs combined as in section 7 of RFC 8259) |
| Snss.ParseSnss | src/browser/session_chromium.cpp:185-210 | fails exactly on a bad header or when no whole record follows it, and otherwise gives the records in order |
| Snss.CommandsOfRecords | src/browser/session_chromium.cpp:185-210 | written records followed by no whole record read back |
| Snss.RecordsOfCommands | src/browser/session_chromium.cpp:185-210 | any file body is the records found and a tail that holds no whole record |
| Snss.CommandsOfTruncated | src/browser/session_chromium.cpp:185-210 | a file cut at any byte yields exactly the records that end before the cut |
| Snss.TruncationYieldsPrefix | src/browser/session_chromium.cpp:185-210 | cutting any file, well formed or not, leaves a prefix of its commands |
| Glob.GlobMatch | src/privacy/sanitizer.cpp:133-162 | the loop computes the matcher's verdict, the meaning of the pattern when text or pattern has no star, within (text length + 1) times (pattern length + 1) turns |
| Glob.AcceptsIsMatches | src/privacy/sanitizer.cpp:133-162 | matcher and recursive meaning agree unless both sides hold a star |
| Glob.RightExactlyWithoutStar | src/privacy/sanitizer.cpp:133-162 | the matcher is right for all patterns exactly on the texts without a star |
| Glob.StarInTextFools | src/privacy/sanitizer.cpp:144-152 | for a text with a star, a pattern that means a match and is refused |
| Glob.SkipStars | src/privacy/sanitizer.cpp:158-161 | the closing loop tells whether only stars are left |
| Url.ParseUrl | src/privacy/sanitizer.cpp:69-131 | the parsing method computes the specified parse or error |
| Url.ParsePairs | src/privacy/sanitizer.cpp:112-126 | the query loop computes the pairs |
| Url.ToString | src/privacy/sanitizer.cpp:35-58 | the printing method computes the specified text |
| Url.ParseIsShaped | src/privacy/sanitizer.cpp:69-131 | what parsing guarantees: lower-case scheme and host, separators in their places only |
| Url.ParseOfPrint | src/privacy/sanitizer.cpp:35-131 | a shaped URL printed and parsed again is itself but for a last wholly empty pair, and for a colon of the host that an empty port no longer guards |
| Url.PrintShrinks | src/privacy/sanitizer.cpp:35-131 | a non-canonical hierarchical parse prints to less text than was parsed |
| Url.RoundTripsExactlyWhenCanonical | src/privacy/sanitizer.cpp:35-131 | for every URL that parses, printing then parsing gives the parse back exactly when it is canonical: scheme, plain path, no lost colon, last pair not wholly empty |
| Sanitizer.Sanitizer.SanitizeUrl | src/privacy/sanitizer.cpp:253-370 | the method computes the specified result, flags and rule ids |
| Sanitizer.Sanitizer.RunRules | src/privacy/sanitizer.cpp:297-353 | the rule loop computes the fold |
| Sanitizer.Sanitizer.FilterParameters | src/privacy/sanitizer.cpp:328-347 | the pair loop of one rule removes or masks exactly the named parameters |
| Sanitizer.Sanitizer.DropSecrets | src/privacy/sanitizer.cpp:355-366 | the last loop drops exactly the pairs that look like secrets |
| Sanitizer.Sanitizer.StripUrl | src/privacy/sanitizer.cpp:281-295 | the three option-driven strips |
| Sanitizer.RuleSettles | src/privacy/sanitizer.cpp:297-353 | right after it ran, a rule has nothing more to do |
| Sanitizer.SettledStays | src/privacy/sanitizer.cpp:297-366 | once settled, a rule stays settled whatever later rules and the secret check do |
| Sanitizer.FinalIsClean | src/privacy/sanitizer.cpp:281-366 | after the fold nothing is left for options, rules or the secret check to do |
| Sanitizer.PathExclusionUnsettles | src/privacy/sanitizer.cpp:312-327 | a rule set that excludes by path lets a URL through and excludes what it made of it |
| Resanitizing.SanitizingTwice | src/privacy/sanitizer.cpp:253-370 | for every URL with a scheme, any rules and options, told from the parsed input: sanitizing an unexcluded result again excludes it exactly when host or path of what it reads as are barred, and leaves its text unchanged exactly when it is excluded, or nothing is left to do for what it reads as and that prints as the result; for `://` URLs that keep their colons, and rules that exclude and drop by host alone or do not cut the URL, nothing is left to do and nothing is excluded, and the text changes exactly when the query is neither stripped nor cut and the last of its pairs that survives is wholly empty |
| Resanitizing.DefaultsTwice | src/privacy/sanitizer.cpp:187-370 | with the built-in rules and options, for every URL with a scheme: unchanged exactly when the rule for private sites fits what the result reads as, or the URL is covered (as in DefaultsLeaveNoSecrets), the reset-link rule does not cut what the result reads as and that prints as the result; for `://` URLs that keep their colons: exactly when the reset-link rule fits a path longer than a slash, or no wholly empty pair of the input is followed only by pairs that a rule for the host names or that look like secrets |
| Sanitizer.CutLinksLeaveNothing | src/privacy/sanitizer.cpp:314-327 | for every URL with a scheme, opaque or not, and any rules: where a rule cuts, the reparsed result has no query and no path but a slash |
| Resanitizing.SanitizedIsTold | src/privacy/sanitizer.cpp:253-370 | for every URL that parses and is no local file, any rules and options: whether it is excluded, and which path and whether a fragment is left, follows from host and path alone; user info, fragment and query are stripped as the options say; the query is empty where it is stripped or a rule cuts and otherwise holds exactly the pairs no applying rule removes and the secret check passes, masked where a rule masks them, in order |
| Resanitizing.FinalIsSameWhenClean | src/privacy/sanitizer.cpp:281-366 | for any rules: sanitizing gives back the record it was given exactly when every single option, rule and the secret check has nothing to do for it; no rule undoes another |
| Resanitizing.OnceReads | src/privacy/sanitizer.cpp:35-131 | for every URL with a scheme: what the printed result reads as, told from the input: the printed record with its host read again and an empty last pair trimmed or, for an uncut text without `://`, that text with `://` behind its scheme |
| Resanitizing.PrintAgain | src/privacy/sanitizer.cpp:35-131 | printing what a printed record reads as gives the same text exactly when its last pair is not wholly empty and no colon is lost before an empty port |
| Sanitizer.SurvivorsArePrinted | src/privacy/sanitizer.cpp:297-370 | where no rule cuts, the URL is excluded exactly when its host is blocked or an excluding rule fits the URL as it came, and keeps its path |
| Sanitizer.Sanitizer.AddRule | src/privacy/sanitizer.cpp:227-227 | the rule list becomes the old list followed by the rule |
| Sanitizer.TrailingAmpersand | src/privacy/sanitizer.cpp:253-370 | with the built-in rules http://h/?& shrinks twice |
| Sanitizer.FilesAreRedacted | src/privacy/sanitizer.cpp:268-273 | a local file becomes one fixed text, which is left alone |
| Sanitizer.DefaultsLeaveNoSecrets | src/privacy/sanitizer.cpp:187-370 | with the built-in rules and options, for every URL with a scheme: the result reparses, and it has no user info, no fragment, no parameter a matching rule names and no high-entropy value exactly when the reset-link rule cuts it, or (with `://`) no surviving parameter is named only for the host that a lost colon brings out, or (opaque) the text after the colon has none of these; always for `://` URLs that keep their colon |
| Sanitizer.OpaqueKeepsSecrets | src/privacy/sanitizer.cpp:80-85 | app:cb?code=S comes out as app://cb?code=S, which carries a parameter the oauth rule names |
| Sanitizer.DefaultRules | src/privacy/sanitizer.cpp:187-225 | the built-in rules exclude and drop by host only |
| Geometry.FindOwningMonitor | src/core/geometry.cpp:69-93 | one pass finds the first monitor of largest overlap, or of least centre distance when none overlaps |
| Geometry.FindBestMatch | src/core/geometry.cpp:163-204 | five searches in a row find the first monitor of the best tier |
| Geometry.PrimaryMonitor | src/core/geometry.cpp:95-102 | the first primary monitor, else the first |
| Geometry.VirtualBounds | src/core/geometry.cpp:61-67 | the least rectangle around all non-empty monitors |
| Geometry.IntersectionPoints | src/core/geometry.cpp:27-36 | the intersection holds exactly the common points |
| Geometry.RemapFrame | src/core/geometry.cpp:206-266 | names the matched monitor, and with a non-empty usable area gives a frame inside it or the unchanged frame of an identical display |
| Geometry.ClampFits | src/core/geometry.cpp:136-148 | clamping lands inside, as near as any frame of that size, shrinks only what does not fit, and is stable |
| Geometry.CarryBack | src/core/geometry.cpp:104-134 | a coordinate carried to an extent at least as large and back is exact despite rounding |
| Geometry.ThereAndBack | src/core/geometry.cpp:104-134 | a frame inside a monitor, at least 1% of it each way, goes to a monitor at least as large and back unchanged |
| Desktop.NullPlatform.SetFrame | src/hal/common/null_platform.cpp:39-50 | sets both frames of the first window with the handle and nothing else, or fails |
| Desktop.NullPlatform.SetState | src/hal/common/null_platform.cpp:52-62 | sets the state of that window and nothing else, or fails |
| Desktop.NullPlatform.Raise | src/hal/common/null_platform.cpp:64-78 | lifts that window above every z_order and zero, or fails |
| Desktop.NullPlatform.Focus | src/hal/common/null_platform.cpp:80-94 | focuses that window alone and records its id, or fails |
| Desktop.NullPlatform.MoveToWorkspace | src/hal/common/null_platform.cpp:254-265 | sets the workspace of that window and nothing else, or fails |
| Desktop.NullPlatform.Warp | src/hal/common/null_platform.cpp:169-176 | moves the cursor or fails |
| Desktop.NullPlatform.Launch | src/hal/common/null_platform.cpp:195-205 | hands out the next synthetic pid or fails |
| Desktop.NullPlatform.Await | src/hal/common/null_platform.cpp:122-136 | the first window with the pid and the title hint |
| Restore.FindBestLiveMatch | src/core/restore_engine.cpp:29-53 | the first unused live window of the same application with the best score, if it reaches 0.35 |
| Restore.BestLiveMatch | src/core/restore_engine.cpp:29-53 | a result is such a window, and no result means there is none |
| Restore.FindClamp | src/core/restore_engine.cpp:55-81 | clamps into the work area the frame overlaps most |
| Restore.ClampedToMonitor | src/core/restore_engine.cpp:55-81 | a frame of non-negative size lands inside a work area |
| Restore.PlanRestore | src/core/restore_engine.cpp:155-263 | the planning loops produce the specified steps |
| Restore.ErrorsMatchFailures | src/core/restore_engine.cpp:265-435 | on any backend, any plan: as many errors as failed windows |
| RestoreRun.ExecuteOnNull | src/core/restore_engine.cpp:265-435 | the execution loop on the null platform object computes the specified run |
| RestoreRun.DoStep | src/core/restore_engine.cpp:295-428 | one step of execution |
| RestoreRun.CollectHandles | src/core/restore_engine.cpp:282-291 | the handles map of the matched windows |
| RestoreRun.RestoreOnNull | src/core/restore_engine.cpp:437-462 | plan, then execute, leaves the null platform in the specified state |
| RestoreMatching.MatchedIsIntended | src/core/restore_engine.cpp:183-192 | a selected window that execution matches was matched by the planner too |
| RestoreMatching.MatchingsAgree | src/core/restore_engine.cpp:282-292 | planner and executor drive the same live windows exactly when no window that is not selected takes, in execution, one that was planned for a later selected window |
| RestoreMatching.AgreeAcrossApplications | src/core/restore_engine.cpp:29-53 | which holds when no window that is not selected stands before a selected one of the same application |
| RestoreMatching.AllSelectedAgree | src/core/restore_engine.cpp:282-292 | without selectors planner and executor match alike |
| RestoreMatching.MatchingsDiffer | src/core/restore_engine.cpp:282-292 | where an earlier window that is not selected suits the only live window as well as a later selected one, the planner gives it to the later one and the executor to the earlier one |
| RestoreSteps.StartMaps | src/core/restore_engine.cpp:282-291 | the map sends exactly the matched ids to their windows, no two to one window |
| RestoreLaunch.LaunchAndWait | src/core/restore_engine.cpp:308-339 | a launch and the wait after it hand out the next pid, record it under the pid key, and give the window the handle of the first live one with that pid and the hinted title, or fail with one error |
| RestoreLaunch.AppearingDiffers | src/core/restore_engine.cpp:308-339 | every launch has a pid of its own, so no live window appears for two saved ones |
| RestoreSafety.RestoredBesideSettled | src/core/restore_engine.cpp:265-435 | with launching on or off: the restore ends in the windows, warnings and count of one that launches nothing and drives the windows found by waiting from the start, and differs by one pid per launch and one failure per launch that shows no window |
| RestoreSafety.NothingAppears | src/core/restore_engine.cpp:192-203 | with launching off, or no live window under a pid yet to be handed out, the windows driven are exactly those execution matches |
| RestoreSteps.RunRefused | src/hal/common/null_platform.cpp:18-292 | where the window system refuses changes, no plan changes it, restores a window or launches anything |
| RestoreSafety.MatchedWindowsLand | src/core/restore_engine.cpp:265-435 | for any selectors, launching on or off: every selected saved window that execution matches, or finds by waiting after a launch, puts its live window on the clamped saved frame inside a work area and on the saved workspace, and into the saved state unless that is Normal |
| RestoreSafety.NormalStateIsNotRestored | src/core/restore_engine.cpp:221-225 | the saved state is the final one exactly when it is not Normal or the live window was Normal already: a window saved Normal stays minimized |
| RestoreSafety.UnmatchedWindowsStay | src/core/restore_engine.cpp:265-435 | every live window that is that of no selected window keeps frame, state, workspace and z_order |
| RestoreSafety.ZOrderIsRestored | src/core/restore_engine.cpp:235-248 | with z-order on, the live windows of selected ones rank by the saved z_order numbers |
| RestoreSafety.MatchedAboveUnmatched | src/core/restore_engine.cpp:235-248 | and stand above every other window |
| RestoreSafety.ZOrderIsLeftAlone | src/core/restore_engine.cpp:235-248 | with z-order off no z_order changes |
| RestoreSafety.FocusIsRestored | src/core/restore_engine.cpp:255-259 | with focus on, the live window of the saved focused one ends focused, and no other |
| RestoreSafety.ReportCountsMatches | src/core/restore_engine.cpp:265-435 | windows_restored is the number of selected windows with a live one, apps_launched that of selected windows the planner found none for (with launching on), windows_failed and the errors those of them that no window appears for, and there is a no-live-window warning for each of these and for each selected window that the planner matched and execution did not |
| RestoreSafety.TakenWindowIsReported | src/core/restore_engine.cpp:282-355 | where planner and executor differ as in MatchingsDiffer: the plan moves the selected window, execution leaves the live one where it is, and the report shows one warning, no failure and nothing restored |
| Inbox.IdsAreDistinct | src/browser/bridge.cpp:67-77 | over every interleaving of calls, no two requests share an id |
| Inbox.QueueIsUndelivered | src/browser/bridge.cpp:67-88 | delivered requests followed by queued ones are the enqueued ones in order |
| Inbox.DeliveredInOrder | src/browser/bridge.cpp:79-88 | each request reaches at most one host, in order |
| Inbox.ResultIsLastAcknowledged | src/browser/bridge.cpp:90-109 | restore_result answers the last acknowledged, not yet consumed number for its id, or zero |
| Inbox.Mailbox.EnqueueRestore | src/browser/bridge.cpp:67-77 | appends the request under an id no earlier request had |
| Inbox.Mailbox.NextRestore | src/browser/bridge.cpp:79-88 | takes the front request, and none exactly when all have been handed out |
| Inbox.Mailbox.AcknowledgeRestore | src/browser/bridge.cpp:90-97 | records the number for the id |
| Inbox.Mailbox.RestoreResult | src/browser/bridge.cpp:99-109 | answers and consumes the outstanding number |
| Tabs.AttachTabs | src/browser/bridge.cpp:127-183 | the two passes over the window array compute the specified windows and count |
| Tabs.AttachesAsManyAsPossible | src/browser/bridge.cpp:127-183 | of every kind but None exactly min(windows, captured) are attached, of None none |
| Tabs.AttachesSoundly | src/browser/bridge.cpp:127-183 | each captured window goes to at most one window, of its kind, which then shows its tabs; the count is the windows now holding tabs |
| Tabs.BestFree | src/browser/bridge.cpp:135-161 | the first free captured window of the kind with the best score above 0.55, if any |
| Tabs.FirstFree | src/browser/bridge.cpp:165-181 | the first free captured window of the kind, if any |
| Ulid.GenerateUlid | src/core/ulid.cpp:59-83 | the three loops write the specified digits |
| Ulid.WriteDigits | src/core/ulid.cpp:66-81 | one loop writes the base-32 digits of a number, highest first, and touches nothing else |
| Ulid.ReadTimestamp | src/core/ulid.cpp:99-112 | the loop reads the first ten digits, zero for a bad one |
| Ulid.SortsByTime | src/core/ulid.cpp:59-83 | below 2^48 ms ids order bytewise exactly as (time, high word, low word) do, and agree only when all three agree |
| Ulid.GeneratedIsValid | src/core/ulid.cpp:59-112 | every generated id is valid and gives its milliseconds back |
| Ulid.DigitDecodes | src/core/ulid.cpp:16-40 | every digit of the alphabet decodes to its value |
| Ulid.CaseDoesNotMatter | src/core/ulid.cpp:16-40 | a letter decodes alike in either case |

## Left out

- Resanitizing.SanitizingTwice: texts with nothing before the colon are left out, as are local files, which have a result of their own.
- Sanitizer.DefaultsLeaveNoSecrets: entropy is a parameter, so logarithms and rounding are not modelled; texts with nothing before the colon are left out.
- Utf16.Reader.ReadString16: leaves out unit counts from 2^31 whose double, wrapped at 32 bits, still fits the rest of the data.
- JsonRoundTrip.RoundTrip: snprintf and stod are parameters, assumed to print the doubles of the value as number literals; what stod makes of them is part of the condition. Negative zero is not told from zero.
- RpcSafety.RepliesMatchRequests: covers one connection; reconnecting, the session list and its size limit, and ids beyond 2^64 calls are not modelled.
- Inbox.IdsAreDistinct: the counter is unbounded, so the wrap after 2^64 requests is not modelled.
- RestoreSafety.MatchedWindowsLand: as the other whole-restore results, takes a window system that may be changed, distinct ids and handles, ids apart from the keys of launched pids, and no window found by waiting that is matched with another saved one as well (two saved windows would then drive one).
- RestoreRun.RestoreOnNull: leaves out the dry-run branch and the copied plan warnings.
- RestoreSafety.ZOrderIsRestored: orders windows by the saved numbers and does not say which end is the top, on which the type comment and the null platform disagree.
- Geometry.ThereAndBack: works over exact reals; IEEE rounding and 32-bit overflow of coordinates are not modelled.
- Matching.Score: takes the similarities it blends as inputs.
- Restore.PlanRestore: leaves out the texts of steps and warnings and the duration estimate; dry runs and the audit row are not modelled either.
- Sorting by `std::sort` is modelled as insertion sort; the results hold for any order among equals.
- Title and application-id normalisation, tokenising, browser detection and launch command lines.
- Integer fields of messages read from doubles outside the int64 range, which C++ leaves undefined.
- Method and error enumerations are represented by their wire names; parameter decoding of the individual methods.
- The sanitizer's pass over a whole snapshot, its title redaction and tab re-indexing.
- `publish_tabs` and `take_tabs`, whose comment and code disagree about whose windows are replaced.
- Session rebuilding from SNSS commands and from Firefox JSON, `read_string` and profile discovery.
- Operating-system backends, sockets, pipes and processes, SQLite storage, OpenSSL, the keyring, the Qt interface and the command line.
