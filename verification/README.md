# A verified model of the web server

The server reads HTTP/1.1 requests on one epoll loop, answers them itself or streams the output of a CGI
program, and is set up by a configuration file. This project models its logic in Dafny and proves what each
part is for. Bytes are characters, limits and sizes are natural numbers, and whatever the kernel, the file
system, the clock or a program may answer is an argument on which the theorems do not depend.

Code that changes things in place is modelled in place: `Buffers.Buffer`, `HttpParsing.HttpRequest` and
`HttpParsing.Connection`, `Spooling.TmpFile`, `CgiJobs.CgiJob` and `EventLoops.EventLoop` are classes, and loops
are loops. Each method is proved against a function of the old state, and the theorems are about those
functions, so that they speak of whole runs.

## How the modules fit together

- **Byte queue.** `Buffers` is the vector with a moving head. It refines a queue, with a tight bound on copying.
- **Request parser.** `RequestLine`, `Host`, `Headers`, `Uri`, `Routing` and `Chunked` are its parts; `Parser` puts
  them together as one resumable function and proves that the network's way of cutting the stream does not
  matter. `HttpParser.dfy` is the same on the mutable connection. `UriLaws`, `HostLaws`, `HeaderLaws` and `ParserLaws`
  say what the parts compute without their definitions: digits, escapes and dot segments, host values, fields and
  blocks, and what a request of written parts comes to, with the limit of its location.
- **Request bodies.** `Spool` interleaves parsing with moving the body to a file, for every pattern of arrivals and
  of failing writes; `SpoolCases` has two requests that it does not serve; `Spooling` is the read loop that does it.
- **CGI output.** `ChunkWriter` is the encoder that `Chunked` inverts; `CgiHeaders` finds and renders the header
  block, and `CgiHeaderLaws` reads it back with the server's own header reader; `CgiStream` proves the round trip and the back-pressure over every schedule; `CgiPipe` adds the limit of the
  client's write buffer, says when an exception escapes, and what a client makes of a response that was cut; `CgiJobs`
  is the handler with its catch.
- **Event loop.** `EventTable` holds references, interest set and memory, `Children` the processes. `LoopState`
  has every handler as a step, `LoopInvariant` the invariant each keeps, `LoopRun` batches and runs, `LoopFalls` when
  a step ends the server, with a run that does in `LoopCases`, and `EventLoop.dfy` the object that does the steps in
  place. `LoopSteps` takes runs apart into single steps, `LoopStreams` proves that what they do to one job is a run of
  `CgiStream`, and `LoopCuts` what a client gets when the limit ends it. `LoopOutcomes` says of each event what it comes
  to for its connection and for all others, without naming its handler. `LoopRequests` joins the loop with what its
  connections receive, and shows that programs find their request bodies.
- **Text.** `Multipart`, `Utc`, and the configuration: `ConfigLexer` (tokens), `ConfigNumbers` (numbers and hosts),
  `ConfigSizes` (body sizes),
  `ConfigGrammar` (the language of nested blocks and its cursor), `ConfigParser` (directives, the cursor loops, and
  what an accepted configuration promises to routing and to body limits), `ConfigText` (from the text of a file to
  its servers, and back), `ConfigMeaning` (what becomes of every directive, by where it stands), `ConfigLimits` (which
  sizes end up as limits, and when those are usable). `LexerLaws` has the laws of comments and quotes.

## What the code does that a reader may not expect

- A CGI request with chunked framing and an empty body is never handed on: the test for a spooled body asks for a
  non-empty file. `Spool.CompleteIsHandedOnUnlessEmptyCgi` shows that this is the only such family and
  `Spool.EmptyChunkedCgiNeverStops` that nothing that arrives later helps; `SpoolCases.EmptyChunkedCgiIsReached` is
  such a request, byte for byte.
- The limit of a client's write buffer is its body limit (`src/Connection.cpp:11`). The handlers catch the exception of
  an append once, and then append an error page or a terminator. When that does not fit either, or when the first
  append is made by `_closeTimedOutClients` or `_closeTimedOutCgiJobs`, the exception reaches `main` and the server exits
  (`src/main.cpp:67-72`). `CgiPipe.EscapesIff` and module `LoopFalls` say exactly when; `LoopCases.FourEventsEndTheServer` is
  a run from the empty loop that ends so, in two ways.
  A limit of `CgiPipe.ENOUGH` bytes never matters to a job that streams and has not more than a read above the mark.
- A chunk that was cut by the limit is closed with the terminator all the same. The client reads what was sent before if
  not even the size line of that chunk fitted, and otherwise takes the terminator for data and waits for more
  (`ChunkWriter.CutBodyIsReadIff`, `CgiPipe.LimitedClientReads`).
- A body size of exactly 2^63, as 8589934592G, passes the overflow test of `parse_cl_mx_bd_sz`, becomes -2^63 and is
  accepted (`ConfigSizes.SizeOverflowsIff`, `ConfigLimits.HugeSizeIsAccepted`). `ConfigLimits.AcceptedLimitsAreUsableIff` says
  exactly when a configuration has usable limits. Under such a limit, which is 2^63 as a `size_t`, the length of a
  request wraps around: 2^64 is read as 0 (`Headers.LengthsAreExactIff`, `ConfigLimits.LengthsAreExactIffUsable`).
- After a write to the body file has failed the read loop goes on receiving. If nothing more arrives, no 503 is sent
  (`Spool.SpoiledRun`). If the write was the one of the last piece of a fixed-length body, the read buffer was erased
  before it, and the next bytes are appended to a buffer without capacity (`Spool.AppendsToErasedIff`,
  `SpoolCases.UnstoredBodyIsFatal`). If the buffer's head was at the start, the growth loop does not end
  (`Buffers.ErasedNeverGrows`). If bytes behind the body had kept the head away from the start, its size has wrapped around:
  fewer bytes than the head, or too many behind it, meet the limit and are answered with 413, and any other number makes it
  move memory that is not its own (`Buffers.AppendingIs`).
- Configured numbers are checked as `long` and narrowed to `int` before their range is checked. Port 4294967377 is
  taken for port 81 (`ConfigNumbers.HugePortIsAccepted`); `ConfigNumbers.BoundedIsExactIff` says exactly when the
  number used is the number written.
- The end of a CGI header block can depend on how the output was read, because any CRLFCRLF is preferred to an
  earlier LFLF. `CgiHeaders.BoundaryIsFinalIff` says exactly when it does not; theorems about the stream speak of
  the boundary that was found.
- The two bytes behind chunk data are not looked at, and there is no trailer section
  (`src/HttpParser.cpp:752-762`). The reference decoder does the same.
- Once it was erased a buffer has no capacity, and only `reset` may follow (`src/Buffer.cpp:106-131`). That state is not
  `Valid`, and every method that appends or consumes asks for `Valid`; that the
  read buffer is not appended to in that state is proved, but for the case above.
- A location `/` serves the request `/` only (`conf/serverConfig.cpp:21-22`).
- Under the root of a location its path is taken off the request's, but not when it is written with a slash at its end
  (`ParserLaws.BelowAWrittenSlash`), and `/a/a` below a location `/a` is looked up as `/a` (`ParserLaws.BelowTheLocation`).
- What stands behind a body of announced length in the read buffer is dropped (`ParserLaws.FixedBodyArrives`). A length is
  checked against the limit of the server, also where that of the location is larger (`ParserLaws.LengthIsRefused`), and a
  coding other than chunked counts as no body (`ParserLaws.RequestWithoutBody`).
- A CGI program's header lines are passed on as they are, also `Transfer-Encoding`, `Content-Length`, `Connection`, and
  `Content-Type` with a blank before its colon. `CgiHeaderLaws.SentReadableIff` says exactly which make the response
  unreadable to this server's own reader, and `CgiHeaderLaws.LengthIsTheProgramsIff` when it announces a length besides its
  coding.
- A location takes over the whole list of its server's index names only when that list stands in front of it, and the
  first of them otherwise; with error pages of its own it gets those of the server that stand in front of it, and with
  none, and none in front of it, all of them (`ConfigMeaning.HostMeans`).

## Model

| member | source | states |
|---|---|---|
| `Buffers.RunRefinesQueue` | src/Buffer.cpp:17-120 | every run of append, consume and reset behaves like a byte queue; the storage is at most twice the live bytes, the head is 0 or before the live size, and the bytes ever moved by compaction are at most twice the bytes ever consumed |
| `Buffers.CostBoundIsTight` | src/Buffer.cpp:112-120 | the factor two of the cost bound is reached |
| `Buffers.StepRefines` | src/Buffer.cpp:17-120 | one operation on a sound buffer is one operation on the queue of its unread bytes |
| `Buffers.PutLive` | src/Buffer.cpp:17-34 | append adds behind what is queued, or nothing when it would pass the limit, and never compacts a settled buffer |
| `Buffers.TakeLive` | src/Buffer.cpp:57-68 | consume removes from the front; more than there is empties the buffer |
| `Buffers.Buffer.constructor` | src/Buffer.cpp:8-15 | a new buffer is the empty queue with its limit |
| `Buffers.Buffer.Append` | src/Buffer.cpp:17-34 | in place: throws exactly when the limit would be passed, and then changes nothing; otherwise the bytes stand behind the old ones |
| `Buffers.Buffer.AppendResult` | src/Buffer.cpp:36-55 | the same against the fixed result limit |
| `Buffers.Buffer.Consume` | src/Buffer.cpp:57-68 | in place: the unread bytes without their first n |
| `Buffers.Buffer.Reset` | src/Buffer.cpp:97-104 | empties the buffer and leads out of the erased state |
| `Buffers.Buffer.Earase` | src/Buffer.cpp:106-110 | the erased state: no bytes, no capacity, head kept |
| `Buffers.ErasedNeverGrows` | src/Buffer.cpp:122-131 | doubling from no capacity never makes room, however long; from any other capacity it does |
| `Buffers.AppendingIs` | src/Buffer.cpp:17-34 | in the arithmetic of size_t: a buffer in order appends what fits and throws otherwise; one that was erased never appends, and the lemma says when it throws, loops for ever, or moves memory that is not its own |
| `Buffers.Buffer.SetMaxSize` | src/Buffer.cpp:133-136 | changes the limit and nothing else |
| `RequestLine.AcceptsExactlyRequestLines` | src/HttpParser.cpp:331-566 | a line is accepted with this method, target and length if and only if the bytes begin with blank lines, method, spaces, target, spaces, HTTP/1.1, spaces and line end, the target has at most 8192 bytes and the method is supported |
| `RequestLine.RunFindsLine` | src/HttpParser.cpp:345-498 | a scan that finishes with version 1.1 has seen such a line and stopped right behind its LF |
| `RequestLine.RunAcceptsLine` | src/HttpParser.cpp:345-498 | every such line, whatever follows it, is scanned to its end |
| `RequestLine.VerdictIsStable` | src/HttpParser.cpp:331-566 | a verdict other than incomplete does not change when bytes are added |
| `RequestLine.LineIsExamined` | src/HttpParser.cpp:331-566 | on a well-formed line length comes before method: 414, then 501, then acceptance |
| `RequestLine.OtherVersionIsRefusedFirst` | src/HttpParser.cpp:331-566 | a version whose first digit is not 1, or 1.x with another first digit x, is answered 505 at that digit whatever target and method are |
| `RequestLine.LongVersionIsRefusedFirst` | src/HttpParser.cpp:418-508 | a longer number that the scan lets through, as in 1.12, is answered 505 at the end of its line, ahead of 414 and 501 |
| `RequestLine.ScanRefusesIff` | src/HttpParser.cpp:345-498 | the character loop refuses if and only if no further bytes whatever could complete a line, so at the first byte that rules them out, and 400 comes from there alone: method and length have no part in it |
| `HttpParsing.ScanLine` | src/HttpParser.cpp:345-498 | the character loop computes the scan |
| `HttpParsing.ExamineLine` | src/HttpParser.cpp:331-566 | the loop and the checks behind it give the verdict |
| `HttpParsing.ParseRequestLine` | src/HttpParser.cpp:331-566 | on the connection: method, path, query, version, state, error code and buffer after the request line, nothing else changed |
| `HttpParsing.ValidatePath` | src/HttpParser.cpp:243-282 | the file system path a request path is looked up at |
| `Host.ValidateHost` | src/HttpParser.cpp:128-207 | the character loop computes the validated host and a port of at most 65535, or refuses |
| `Host.StoredHostIsFixedPoint` | src/HttpParser.cpp:128-207 | validating a stored host again returns it unchanged and without a port |
| `Host.PortInRange` | src/HttpParser.cpp:150-207 | no accepted port exceeds 65535 |
| `HostLaws.ValidatedIff` | src/HttpParser.cpp:128-207 | exactly these Host values are accepted: an address in brackets, or a name of the allowed characters that is more than a dot, neither with two dots in a row, and then nothing or a colon and digits that say at most 65535; the host is that name in small letters without its last dot, the port that number, or 0 |
| `HeaderLaws.LowerOfCapital` | src/HttpParser.cpp:93-100 | each capital letter becomes the small letter in its place of the alphabet |
| `HeaderLaws.LowerOfOther` | src/HttpParser.cpp:93-100 | and no other character changes |
| `HeaderLaws.TrimmedIs` | src/HttpParser.cpp:102-115 | trimming takes off exactly the blanks and tabs around a text |
| `HeaderLaws.FieldReads` | src/HttpParser.cpp:604-617 | a field as it is written, in whatever case and with whatever blanks around name and value, is read as its name in small letters and its value |
| `HeaderLaws.BlockIsReadIff` | src/HttpParser.cpp:586-640 | into an empty map a block of lines is read to its end if and only if each line has a name and at most 8192 bytes, no singleton occurs twice and there are at most 100 names; then the map holds for each name the values of its lines in order, and nothing else, and what follows is left |
| `Headers.BlockIsFold` | src/HttpParser.cpp:586-640 | a finished header block is a list of lines up to the empty line; the map is the fold of those lines: lower-cased trimmed names, repeated values joined by comma and space in arrival order, singletons once, at most 100 names |
| `Headers.BlockOfLines` | src/HttpParser.cpp:586-640 | conversely any list of lines with an empty line behind it gives the map those lines make, or the refusal of the first that is refused, and leaves what follows |
| `Headers.AcceptedIff` | src/HttpParser.cpp:595-640 | a list of lines is accepted if and only if every line has a name in front of a colon, no singleton occurs twice, and there are at most 100 names |
| `Headers.RefusalIsFirstOffence` | src/HttpParser.cpp:595-640 | otherwise the code is that of the first offending line: 400 without a name or for a repeated singleton, else 431 |
| `Headers.LongLineIsRefused` | src/HttpParser.cpp:596-600 | a line beyond the length limit is refused with 431 whatever it says, once the lines before it were stored |
| `Headers.CommaJoinedSplits` | src/HttpParser.cpp:618-632 | joining values one by one is joining the list |
| `Headers.CollectExtends` | src/HttpParser.cpp:586-640 | stopping for more bytes and going on is the same as having had them |
| `Headers.ContentLengthIsExact` | src/HttpParser.cpp:663-684 | under a limit below a tenth of 2^64 a decimal length is read exactly, or refused with 413 exactly when it exceeds the limit |
| `Headers.LengthsAreExactIff` | src/HttpParser.cpp:663-684 | and only under such a limit are all lengths understood as they are written |
| `Headers.WideLengthWraps` | src/HttpParser.cpp:670-680 | under a larger one 2^64 is read as 0, however it is written |
| `Headers.LengthNeedsDigits` | src/HttpParser.cpp:663-684 | a length is only accepted when every character is a digit |
| `Headers.ParseLength` | src/HttpParser.cpp:663-684 | the digit loop computes that length |
| `HttpParsing.CollectHeaders` | src/HttpParser.cpp:586-640 | the line loop on the connection is the fold over the buffered lines |
| `HttpParsing.ParseHeaders` | src/HttpParser.cpp:586-707 | header phase on the connection: map, Host, configuration, framing, state and code |
| `HttpParsing.MeasureBody` | src/HttpParser.cpp:656-707 | framing of the body: 400 for two framings or a bad length, 413 beyond the limit, chunked before length, 411 for a POST with neither, complete for anything else with neither |
| `HttpParsing.OverrideHost` | src/HttpParser.cpp:209-221 | the configuration with the requested name is chosen and the three buffers get its limit; without one nothing changes |
| `Parser.ConfigForIsThatOrThis` | src/HttpParser.cpp:209-221 | the chosen configuration has the requested name if any has, else it is the one before |
| `Parser.CollectBounded` | src/HttpParser.cpp:586-640 | no header map ever holds more than 100 names, and every refusal carries an error code |
| `HttpParsing.ApplyLocationBodyLimit` | src/HttpParser.cpp:284-300 | the body limit is the one of the longest matching location, else the server's, else one megabyte, and the body buffer carries it |
| `Routing.LongestIsMatched` | conf/serverConfig.cpp:3-32 | a location that serves the path when no other serving one has a longer trimmed path is the match |
| `Routing.ServesItselfAndBelow` | conf/serverConfig.cpp:9-30 | a location written without a slash at its end serves its own path and every path below it |
| `Routing.WrittenSlashDoesNotMatter` | conf/serverConfig.cpp:9-30 | writing that slash changes nothing about what is served |
| `ParserLaws.LimitBehindTheLine` | src/HttpParser.cpp:284-300 | behind the request line a connection has the limit of the longest location that serves its path, if that is positive, else the server's, or 1048576 when that is 0; locations are spoken of by what they serve only |
| `ParserLaws.FixedBodyIsRefusedIff` | src/HttpParser.cpp:720-746 | one call on a body of announced length answers 413 if and only if both the length and the bytes that have come pass that limit |
| `ParserLaws.ChunkedBodyIsRefused` | src/HttpParser.cpp:748-852 | a chunked body longer than that limit is answered with 413, whatever follows |
| `ParserLaws.ChunkedBodyIsRead` | src/HttpParser.cpp:748-852 | one within it is read as it was written, and what follows it is left |
| `ParserLaws.LineIsFed` | src/HttpParser.cpp:331-566 | a well-formed line on a fresh connection: 414, then 501, then 403 or 404 by what the file system says of its path, else method, path and query of its target, no headers, the governing limit, and the bytes behind the line |
| `ParserLaws.HostIsAskedFor` | src/HttpParser.cpp:642-655 | a finished header block without a Host, or with one that is not valid, is answered with 400 |
| `ParserLaws.TwoFramingsAreRefused` | src/HttpParser.cpp:656-662 | one with both a length and a coding is answered with 400 |
| `ParserLaws.LengthIsRefused` | src/HttpParser.cpp:663-684 | a length that is not all digits is refused, an empty one with 400; digits beyond the server's limit are answered with 413, whatever the location's limit |
| `ParserLaws.RequestWithoutBody` | src/HttpParser.cpp:686-707 | without a length above 0 or a chunked coding, also with a coding of another name, a POST is answered with 411 and anything else is complete, with the headers, no body, and the rest left |
| `ParserLaws.FixedBodyArrives` | src/HttpParser.cpp:663-746 | with a length in digits the body is the bytes behind the headers up to that length, and what follows them is dropped; 413 once more than the governing limit has come of it |
| `ParserLaws.ChunksArrive` | src/HttpParser.cpp:686-852 | with a chunked coding, in any case of letters, the body is what was written as chunks behind the headers, or 413 beyond the governing limit |
| `ParserLaws.TargetSplits` | src/HttpParser.cpp:529-542 | a target is split at its first question mark; the path is the decoded and cleaned part in front of it, the query what stands behind |
| `ParserLaws.TargetWithoutQuery` | src/HttpParser.cpp:536-542 | a target without one is all path |
| `ParserLaws.TargetOfQueryAlone` | src/HttpParser.cpp:537-542 | with nothing in front of it the path is the root |
| `ParserLaws.AbsoluteFormIsStripped` | src/HttpParser.cpp:520-527 | in absolute form scheme and authority do not matter, and an authority alone stands for the root |
| `ParserLaws.RootWithoutSlashes` | src/HttpParser.cpp:266-267 | slashes at the end of a root are taken off |
| `ParserLaws.UnderTheServer` | src/HttpParser.cpp:243-282 | without a location, or with one that has no root, the path stands under the server's root |
| `ParserLaws.BelowTheLocation` | src/HttpParser.cpp:250-281 | under the root of a location stands what is below it in the path, except that a path that repeats the location's own keeps its last segment only |
| `ParserLaws.TheLocationItself` | src/HttpParser.cpp:269-279 | the path of the location itself is looked up as its last segment |
| `ParserLaws.BelowAWrittenSlash` | src/HttpParser.cpp:254-264 | a location written with a slash at its end is not taken off the path |
| `ParserLaws.AtAWrittenSlash` | src/HttpParser.cpp:254-281 | nor from its own path without that slash |
| `Uri.PctDecode` | src/HttpParser.cpp:64-91 | the loop computes the decoding |
| `Uri.DecodeSplitsAtSlash` | src/HttpParser.cpp:64-91 | decoding a, slash, b is decoding a, slash, decoding b |
| `Uri.DecodingKeepsSegments` | src/HttpParser.cpp:64-91 | cutting the decoded path into segments gives the segments of the raw path, each decoded on its own: no escape can add, remove or merge a segment |
| `Uri.CleanPath` | src/HttpParser.cpp:223-241 | the loop computes the cleaned path |
| `Uri.CleanedIsClean` | src/HttpParser.cpp:223-241 | a cleaned path has no double and no trailing slash and stays absolute |
| `Uri.CleanPathIsIdempotent` | src/HttpParser.cpp:223-241 | cleaning twice is cleaning once, and clean paths are left alone |
| `Uri.NormalizePath` | src/ResponseHandler.cpp:140-179 | the loop over segments computes the stack reference of section 5.2.4 of RFC 3986, rejecting instead of clamping |
| `Uri.EmptyIffClimbsAboveRoot` | src/ResponseHandler.cpp:140-179 | the result is empty exactly when some prefix of the segments has more parent steps than names |
| `Uri.NormalizePathIsIdempotent` | src/ResponseHandler.cpp:140-179 | a normalised path is left alone |
| `Uri.NormalizeKeepsCleanPaths` | src/ResponseHandler.cpp:140-179 | clean absolute paths without dot segments are left alone |
| `UriLaws.HexValueIsPlace` | src/HttpParser.cpp:76-78 | a hexadecimal digit is worth its place in 0123456789abcdef or in 0123456789ABCDEF |
| `UriLaws.OnlyTheseAreDigits` | src/HttpParser.cpp:70-73 | and only those characters are digits |
| `UriLaws.EscapesAreDecoded` | src/HttpParser.cpp:64-91 | for every byte but a slash, its escape with digits in either case, in front of any rest, decodes to that byte and then the decoded rest |
| `UriLaws.SlashEscapesStay` | src/HttpParser.cpp:80-82 | an escape of a slash stays as it is written |
| `UriLaws.OthersStay` | src/HttpParser.cpp:86-87 | so does a character that starts no escape |
| `UriLaws.CleanedOfDouble` | src/HttpParser.cpp:223-241 | a second slash in a row makes no difference to the cleaned path, wherever it stands |
| `UriLaws.CleanedOfTrailing` | src/HttpParser.cpp:236-238 | nor does one at the end |
| `UriLaws.DotIsNothing` | src/ResponseHandler.cpp:140-179 | in normalising, a segment of one dot counts for nothing, wherever it stands |
| `UriLaws.EmptyIsNothing` | src/ResponseHandler.cpp:145-158 | nor does an empty segment |
| `UriLaws.ParentTakesTheNameBefore` | src/ResponseHandler.cpp:146-152 | a name and the two dots behind it cancel, wherever they stand |
| `UriLaws.ParentAtTheEnd` | src/ResponseHandler.cpp:159-168 | also at the end of the path |
| `UriLaws.RefusalStays` | src/ResponseHandler.cpp:147-151 | a path that is refused stays so whatever follows it |
| `Routing.MatchLocation` | conf/serverConfig.cpp:3-32 | the scan returns the match, without ever indexing past the request |
| `Routing.MatchIsUniqueLongest` | conf/serverConfig.cpp:3-32 | no match means no location serves the path; a match is the only serving location of greatest trimmed length |
| `Routing.LongerTrimmedIsLonger` | conf/serverConfig.cpp:3-32 | two serving locations never tie, so the raw lengths the code compares order them as the trimmed ones do |
| `Routing.OrderDoesNotMatter` | conf/serverConfig.cpp:3-32 | reordering the location blocks changes no answer |
| `Routing.TrailingSlashDoesNotMatter` | conf/serverConfig.cpp:9-12 | a path and the path with a slash behind it match alike |
| `Routing.RootServesOnlyRoot` | conf/serverConfig.cpp:21-22 | a location / serves the request / and nothing else |
| `Chunked.DecodeRefinesWhole` | src/HttpParser.cpp:748-852 | the resumable decoder on a whole input is the recursive reference decoder of section 4.1 of RFC 7230 without trailers, both in result and in error |
| `Chunked.DecodeExtends` | src/HttpParser.cpp:748-852 | decoding what is there and then the rest is decoding everything |
| `Chunked.SizeGuardsAreExact` | src/HttpParser.cpp:782-828 | a hexadecimal size, with or without an extension, is refused with 413 exactly when it exceeds 2^30 |
| `Chunked.ParseSizeLine` | src/HttpParser.cpp:782-828 | the digit loop computes the size of a size line |
| `Chunked.DecodeCounts` | src/HttpParser.cpp:831-850 | the counter grows by exactly the bytes appended and never passes the limit |
| `Chunked.DecodeIgnoresBody` | src/HttpParser.cpp:748-852 | the decoder never reads what it has decoded |
| `UriLaws.SizesReadBack` | src/HttpParser.cpp:782-828 | every number written in hexadecimal with digits of either case is read back as a chunk size, or answered with 413 exactly beyond 2^30 |
| `UriLaws.SizeIsReadIff` | src/HttpParser.cpp:782-828 | exactly the lines of hexadecimal digits up to 2^30, then nothing or a semicolon and no control characters, are sizes, and the size is what the digits say |
| `UriLaws.TooLargeOnlyIf` | src/HttpParser.cpp:797-810 | a size line is answered with 413 only if its leading digits say more than 2^30; every other refusal is 400 |
| `HttpParsing.ParseChunked` | src/HttpParser.cpp:748-852 | the loop on the objects is the decoder, and the append inside it cannot throw |
| `HttpParsing.ParseBody` | src/HttpParser.cpp:709-746 | a fixed-length step takes exactly what is missing, 413 before taking too much, and ends exactly at the announced length |
| `Parser.FragmentationDoesNotMatter` | src/HttpParser.cpp:302-329 | however the network cuts a stream, feeding the pieces ends in the same state, code, method, path, query, headers and decoded body as feeding it whole |
| `Parser.AnyTwoCutsAgree` | src/HttpParser.cpp:302-329 | two ways of cutting the same stream cannot be told apart |
| `Parser.FeedExtends` | src/HttpParser.cpp:302-329 | one call with everything is one call with the first bytes and one with the rest; a finished or failed parse ignores later bytes |
| `Parser.FeedKeepsInv` | src/HttpParser.cpp:302-329 | between calls: the header map is bounded, the length is within the server limit, the host is validated, a POST in or past the body has framing, counters equal the decoded bytes and stay within the limit |
| `Parser.SettleEstablishes` | src/HttpParser.cpp:641-707 | what the checks behind the header block establish from any header map |
| `HttpParsing.FeedConnection` | src/HttpParser.cpp:302-329 | one call of feed on the objects is one step of the parser function |
| `HttpParsing.Connection.constructor` | src/Connection.cpp:6-16 | a new connection is a fresh request with empty buffers |
| `HttpParsing.Connection.Recv` | src/Connection.cpp:30-41 | received bytes stand behind the unread ones, or the limit throws and nothing changes |
| `HttpParsing.Connection.Reset` | src/Connection.cpp:60-72 | recycling a connection gives a fresh request and empty buffers and keeps the configuration |
| `HttpParsing.HttpRequest.Reset` | src/HttpRequest.cpp:21-50 | every field is back at its first value |
| `Spool.BodyIsConserved` | src/EventLoop/EventLoop_helper_handlers.cpp:163-338 | from the first byte of a request on, file then memory is the body decoded so far, counted once, within the body limit and the declared length; a CGI request that is handed on has its whole body in the file; a complete request is handed on if and only if it is not a CGI request with an empty chunked body; an error is the parser's own, answered, or 503 for a failed write |
| `Spool.SpoolingDoesNotMatter` | src/EventLoop/EventLoop_helper_handlers.cpp:263-338 | but for a failed write, spooling in between never changes what one parse of the whole stream gives |
| `Spool.RunConserves` | src/EventLoop/EventLoop_helper_handlers.cpp:263-338 | the same from any point of a request |
| `Spool.TurnConserves` | src/EventLoop/EventLoop_helper_handlers.cpp:272-330 | one turn of the read loop keeps file then memory equal to the decoded body |
| `Spool.FlushConserves` | src/EventLoop/EventLoop_helper_handlers.cpp:163-219 | flushing moves bytes from memory to the file; its 413 branch is never taken |
| `Spool.FeedIgnoresBody` | src/HttpParser.cpp:302-329 | taking body bytes away between calls does not change parsing |
| `Spool.FixupsAreIdle` | src/EventLoop/EventLoop_helper_handlers.cpp:128-161 | the two state repairs around feed do nothing on a request that is still being read |
| `Spool.CompleteIsHandedOnUnlessEmptyCgi` | src/EventLoop/EventLoop_helper_handlers.cpp:68-95 | a complete request is handed on if and only if it is not a CGI request whose chunked body is empty |
| `Spool.EmptyChunkedCgiNeverStops` | src/EventLoop/EventLoop_helper_handlers.cpp:68-95 | such a request is never handed on, whatever arrives later |
| `SpoolCases.EmptyChunkedCgiIsReached` | src/EventLoop/EventLoop_helper_handlers.cpp:263-338 | a GET for a CGI path with the chunked body 0 CRLF CRLF, from a new connection, is such a request |
| `Spool.SpoiledRun` | src/EventLoop/EventLoop_helper_handlers.cpp:299-325 | after a failed write the loop goes on receiving: the 503 is answered if and only if more bytes follow and the read buffer was not erased |
| `Spool.AppendsToErasedIff` | src/EventLoop/EventLoop_helper_handlers.cpp:276-325 | the loop appends to an erased buffer if and only if a write failed on the piece that completes a fixed-length CGI body and more bytes follow |
| `SpoolCases.UnstoredBodyIsFatal` | src/EventLoop/EventLoop_helper_handlers.cpp:276-325 | a POST of one byte to a CGI path whose write fails, and one byte more, from a new connection, do that |
| `Spooling.HandleRead` | src/EventLoop/EventLoop_helper_handlers.cpp:263-338 | the read loop on the objects, with the end of the stream and failed writes, is a run over a prefix of the socket's pieces; over all of them unless it was left |
| `Spooling.TakePiece` | src/EventLoop/EventLoop_helper_handlers.cpp:276-330 | one successful read: feed, answer an error, flush, repair, hand on |
| `Spooling.TakeEnd` | src/EventLoop/EventLoop_helper_handlers.cpp:276-290 | the end of the stream: an unframed body is flushed and completed, otherwise the connection is closed |
| `Spooling.TakeNothing` | src/EventLoop/EventLoop_helper_handlers.cpp:276-330 | an empty socket: repair, flush, hand on |
| `Spooling.TryDispatchComplete` | src/EventLoop/EventLoop_helper_handlers.cpp:222-229 | the test whether a request is handed on |
| `Spooling.FlushRequestBody` | src/EventLoop/EventLoop_helper_handlers.cpp:163-219 | the flush on file, body and request |
| `Spooling.IsBodyFullySpooled` | src/EventLoop/EventLoop_helper_handlers.cpp:68-95 | answers whether nothing of the body is missing from the file |
| `Spooling.PathRequiresCgiBodySpool` | src/EventLoop/EventLoop_helper_handlers.cpp:48-66 | answers whether the matched location runs a program for the path's extension |
| `Spooling.ResumeBodyIfNeeded` | src/EventLoop/EventLoop_helper_handlers.cpp:128-147 | an unspooled complete CGI request is put back to reading its body |
| `Spooling.CompletePostWithoutLength` | src/EventLoop/EventLoop_helper_handlers.cpp:149-161 | completes a POST without framing |
| `Spooling.TmpFile.Write` | src/EventLoop/EventLoop_helper_handlers.cpp:180-205 | a write takes at least one byte or fails |
| `Spooling.TmpFile.WriteAll` | src/EventLoop/EventLoop_helper_handlers.cpp:180-205 | the write loop puts all bytes behind the old ones, or fails having kept some of them there |
| `Spooling.TmpFile.Take` | src/EventLoop/EventLoop_helper_handlers.cpp:163-219 | the counter of the file is raised only by what arrived completely |
| `ChunkWriter.WriterRoundTrip` | src/EventLoop/EventLoop_helper_cgi.cpp:82-94 | decoding what was written for any blocks gives the blocks: whole with the terminator, unfinished without it |
| `ChunkWriter.EncodeDecodes` | src/EventLoop/EventLoop_helper_cgi.cpp:82-94 | the same in front of any further bytes |
| `ChunkWriter.CutDecodesToPrefix` | src/EventLoop/EventLoop_helper_cgi.cpp:82-94 | a body cut anywhere decodes to a prefix, never to an error, and is complete only when everything is there |
| `ChunkWriter.HexRoundTrip` | src/EventLoop/EventLoop_helper_cgi.cpp:84-88 | reading a written chunk size gives the number back |
| `ChunkWriter.FramingIsSmall` | src/EventLoop/EventLoop_helper_cgi.cpp:82-94 | a chunk of one read adds at most eight bytes |
| `ChunkWriter.WriteChunk` | src/EventLoop/EventLoop_helper_cgi.cpp:82-94 | in place: the three appends, with exactly what fitted when the limit throws |
| `ChunkWriter.ChunkFitsOrIsCut` | src/EventLoop/EventLoop_helper_cgi.cpp:82-94 | a chunk is written whole if and only if it fits; otherwise a proper prefix of it stays |
| `ChunkWriter.CutBodyIsReadIff` | src/EventLoop/EventLoop_helper_cgi.cpp:82-94 | a body whose last chunk was cut by the limit and which was closed with the terminator is read as what was written before if and only if not even the size line fitted; otherwise the client waits for more, with the terminator taken for data |
| `ChunkWriter.CutChunkIsMisread` | src/EventLoop/EventLoop_helper_cgi.cpp:82-94 | that failing case: a chunk cut behind its size line is decoded without an error, with the terminator as data |
| `CgiHeaders.FindHeaderEnd` | src/EventLoop/EventLoop_helper_cgi.cpp:10-22 | the loop returns the boundary |
| `CgiHeaders.BoundaryIsFinalIff` | src/EventLoop/EventLoop_helper_cgi.cpp:10-22 | a boundary once found stays where it is under more bytes if and only if it was a CRLFCRLF or none ever comes |
| `CgiHeaders.BoundaryMoves` | src/EventLoop/EventLoop_helper_cgi.cpp:15-20 | an output whose boundary depends on how it was read |
| `CgiHeaders.HeaderBlockIsDelimited` | src/EventLoop/EventLoop_helper_cgi.cpp:24-80 | the rendered header block, with anything behind it, ends at the first empty line |
| `CgiHeaders.CollectFields` | src/EventLoop/EventLoop_helper_cgi.cpp:29-57 | the line loop over the program's header lines is the fold of them |
| `CgiHeaders.FlushCgiHeaders` | src/EventLoop/EventLoop_helper_cgi.cpp:24-80 | in place: the whole header block behind the write buffer if and only if it fits, else nothing |
| `CgiHeaderLaws.LinesReadBack` | src/EventLoop/EventLoop_helper_cgi.cpp:32-37 | the lines of a program's header are those it printed, each closed by CRLF or LF |
| `CgiHeaderLaws.FieldParts` | src/EventLoop/EventLoop_helper_cgi.cpp:40-47 | a line is its key in front of the first colon and its value behind the blanks that follow it; a value of blanks only is kept |
| `CgiHeaderLaws.FieldsTell` | src/EventLoop/EventLoop_helper_cgi.cpp:27-57 | all lines together: the number read from the last Status line, else 200; the last Content-Type, else text/html; and every other line with a colon, in order |
| `CgiHeaderLaws.RenderedIs` | src/EventLoop/EventLoop_helper_cgi.cpp:70-79 | the block is the status line with that number, Server, that type, Transfer-Encoding: chunked, Connection by the flag, those lines, and the blank line |
| `CgiHeaderLaws.ClientReadsHeader` | src/EventLoop/EventLoop_helper_cgi.cpp:24-80 | a client that takes the first line for the status line and reads the rest with the header reader of this server gets to the end of the block exactly when the program's own lines are presentable; then transfer-encoding is chunked, content-type the program's last or text/html, connection and server begin with the server's word, every other header is what the program gave, nothing else is there, and the body is what follows |
| `CgiHeaderLaws.SentReadableIff` | src/EventLoop/EventLoop_helper_cgi.cpp:24-80 | presentable: each own line has a name and at most 8192 bytes, none is named transfer-encoding or content-type, no singleton occurs twice, there are at most 100 names with the four of the server, and the type is not too long |
| `CgiHeaderLaws.LengthIsTheProgramsIff` | src/EventLoop/EventLoop_helper_cgi.cpp:24-80 | a content-length is announced exactly when the program printed one |
| `CgiHeaderLaws.OwnNameIff` | src/EventLoop/EventLoop_helper_cgi.cpp:49-51 | any name that is not one of the server's is announced exactly when the program printed it |
| `CgiHeaderLaws.ConnectionIsTheServers` | src/EventLoop/EventLoop_helper_cgi.cpp:69-75 | connection is keep-alive or close by the flag when the program printed none |
| `CgiHeaderLaws.OwnCodingIsUnreadable` | src/EventLoop/EventLoop_helper_cgi.cpp:49-51 | a program that prints a Transfer-Encoding of its own makes its response unreadable to such a client |
| `CgiStream.ClientGetsBody` | src/EventLoop/EventLoop_helper_cgi.cpp:172-270 | for every schedule of reads and sends, sent bytes then write buffer are the header block and a body that decodes to exactly the bytes read behind the header end, complete if and only if the job finished; the header in front of it announces that coding, as ClientReadsHeader says; the counter is their number; a job that did not fail delivered the whole output |
| `CgiStream.PartialClientGetsPrefix` | src/EventLoop/EventLoop_helper_cgi.cpp:172-270 | a client that has only part of it has decoded a prefix of the program's output without an error |
| `CgiStream.BackPressure` | src/EventLoop/EventLoop_helper_cgi.cpp:184-251 | at most 8001 reads; at most 8192 pending header bytes between events, so that the result buffer never throws; a streaming read starts below the high water mark and ends below mark, read size and eight bytes |
| `CgiStream.RunKeepsInv` | src/EventLoop/EventLoop_helper_cgi.cpp:172-270 | the stream invariant holds in every run |
| `CgiStream.StepKeepsInv` | src/EventLoop/EventLoop_helper_cgi.cpp:172-270 | and is kept by every read, send, end, error and timeout |
| `CgiStream.OverIsFinal` | cgi/CgiCleanning.cpp:4-53 | once a job is over nothing is written any more; the client only receives what is there |
| `CgiStream.FailureTellsWhy` | cgi/CgiCleanning.cpp:4-53 | in every run a job that fails does so with 502, or with 504 if it was late |
| `CgiStream.LatenessIs504` | cgi/CgiCleanning.cpp:87-97 | a job that is late before it is over ends with 504, closed by the terminator if its header had been sent |
| `CgiPipe.StepIsOnPipe` | src/EventLoop/EventLoop_helper_cgi.cpp:172-270 | the pipe events of a stream are calls of the handler |
| `CgiPipe.WithinLimit` | src/EventLoop/EventLoop_helper_cgi.cpp:172-270 | the write buffer never passes its limit, and an event does what it would do without one if and only if what it would write fits |
| `CgiPipe.EscapesIff` | src/EventLoop/EventLoop_helper_cgi.cpp:172-270 | an exception leaves the handler, and with it the event loop, if and only if the room left before the event is in the stated gaps: neither the chunk nor the terminator behind its fitting part, neither of two pages, or not the terminator alone |
| `CgiPipe.TimeoutEscapesIff` | cgi/CgiCleanning.cpp:87-97 | the timeout of a job does so if and only if its page or terminator does not fit |
| `CgiPipe.LimitFailsTheJob` | src/EventLoop/EventLoop_helper_cgi.cpp:242-270 | a chunk that does not fit leaves its fitting part with the terminator behind it, and the job is over with 413 |
| `CgiPipe.LimitedClientReads` | src/EventLoop/EventLoop_helper_cgi.cpp:242-270 | what the client of such a job makes of its whole response, wherever the stream was: header block, and then the body sent before the cut, or that and the terminator as data, with the same condition |
| `CgiPipe.TwoWaysDown` | src/EventLoop/EventLoop_helper_cgi.cpp:205-270 | with four bytes more than its header block takes, a new job sends its header; then the end of its output takes the server down, and so does one byte more of it |
| `CgiPipe.EnoughIsEnough` | src/EventLoop/EventLoop_helper_cgi.cpp:184-270 | a streaming job that has less than the high-water mark, one read and its framing in the buffer stays so and never meets a limit that also has room for a terminator |
| `CgiJobs.HandleCgiEvent` | src/EventLoop/EventLoop_helper_cgi.cpp:172-270 | the handler on job and write buffer, its catch included, leaves what the event with the limit leaves, or lets the exception out exactly when that does |
| `CgiJobs.ReadPipe` | src/EventLoop/EventLoop_helper_cgi.cpp:205-264 | the try block |
| `CgiJobs.FinishCgiJob` | cgi/CgiCleanning.cpp:4-33 | in place: headers if still owed, and the terminator once |
| `CgiJobs.FailCgiJob` | cgi/CgiCleanning.cpp:35-53 | in place: an error page before the headers, the terminator after them, or an exception and nothing |
| `CgiJobs.TakeHeaderData` | src/EventLoop/EventLoop_helper_cgi.cpp:216-241 | bytes before the header end: kept, too long, or the end found; the job's own buffer never throws |
| `CgiJobs.SeekHeader` | src/EventLoop/EventLoop_helper_cgi.cpp:219-241 | whether the header is complete now |
| `CgiJobs.AwaitHeader` | src/EventLoop/EventLoop_helper_cgi.cpp:219-225 | a header without an end fails the job beyond 8192 bytes |
| `CgiJobs.SendHeaders` | src/EventLoop/EventLoop_helper_cgi.cpp:226-241 | header block and first chunk; from here on the job streams, wherever the limit throws |
| `CgiJobs.SendFirstChunk` | src/EventLoop/EventLoop_helper_cgi.cpp:232-241 | the bytes behind the header |
| `CgiJobs.TakeBodyData` | src/EventLoop/EventLoop_helper_cgi.cpp:242-253 | one chunk for the client, or what fitted of it |
| `EventTable.ActedOnIffLive` | src/EventLoop/EventLoop.cpp:193-218 | an event is acted on exactly when the registration that produced it is still in place, and then with its kind, even when the descriptor was closed and registered anew |
| `EventTable.UnregisterKeepsNamed` | src/EventLoop/EventLoop.cpp:106-116 | closing a descriptor leaves every reported reference readable and ends only the events of that descriptor |
| `EventTable.RegisterKeepsNamed` | src/EventLoop/EventLoop_helper.cpp:14-34 | registering a descriptor anew neither frees nor revives any reported reference |
| `EventTable.RegisterKeepsSound` | src/EventLoop/EventLoop_helper.cpp:14-34 | references, interest set and heap stay in order |
| `EventTable.UnregisterKeepsSound` | src/EventLoop/EventLoop.cpp:106-116 | likewise, and the descriptor is gone |
| `EventTable.RearmKeepsSound` | src/EventLoop/EventLoop.cpp:118-142 | likewise for a changed mask |
| `EventTable.FreeStaleKeepsSound` | src/EventLoop/EventLoop.cpp:243-245 | freeing invalid references leaves no dangling registration and frees none twice |
| `EventTable.Wait` | src/EventLoop/EventLoop.cpp:229-241 | a batch names each descriptor at most once and only what its mask asks for |
| `EventTable.WaitNames` | src/EventLoop/EventLoop.cpp:229-241 | every reported reference is readable and in place |
| `Children.EveryChildIsAccountedFor` | src/EventLoop/EventLoop.cpp:165-190 | a forked process is reaped or has exactly one owner: a live job, the pending list, or the list of the given up |
| `Children.ForkKeepsInv` | src/EventLoop/EventLoop_helper_cgi.cpp:148-169 | a new process belongs to its job |
| `Children.ReleaseKeepsInv` | cgi/CgiCleanning.cpp:55-74 | closing a job reaps its child or kills it and queues it |
| `Children.ReapOneKeepsInv` | src/EventLoop/EventLoop.cpp:165-190 | one entry of the pending list: reaped, kept, or given up after more than 60 seconds |
| `Children.ReapPendingKeepsInv` | src/EventLoop/EventLoop.cpp:165-190 | the whole pass; children of live jobs are not touched |
| `Children.ReapedKeepsInv` | src/EventLoop/EventLoop.cpp:165-190 | a wait collects the very process that was meant, once |
| `Children.ReapPendingSettles` | src/EventLoop/EventLoop.cpp:165-190 | one pass gives up exactly the entries older than 60 seconds, reaps the others whose process has exited, and keeps the rest in order |
| `LoopInvariant.DispatchKeepsInv` | src/EventLoop/EventLoop.cpp:193-218 | every event that names a readable reference keeps the global invariant |
| `LoopInvariant.AcceptKeepsInv` | src/EventLoop/EventLoop_helper_handlers.cpp:11-32 | accepting any number of clients, up to the limit or a failed allocation |
| `LoopInvariant.HandleClientKeepsInv` | src/EventLoop/EventLoop_helper_handlers.cpp:408-455 | any combination of error, hang-up, input and output bits |
| `LoopInvariant.HandleReadKeepsInv` | src/EventLoop/EventLoop_helper_handlers.cpp:263-338 | a reading connection ends up reading, writing, with a program, or closed, also when its response does not fit |
| `LoopInvariant.RespondKeepsInv` | src/EventLoop/EventLoop_helper_handlers.cpp:300-338 | a response whose parts are appended until one does not fit |
| `LoopInvariant.CatchKeepsInv` | src/EventLoop/EventLoop_helper_handlers.cpp:332-338 | the page of the handler's catch behind what fitted |
| `LoopInvariant.HandleWriteKeepsInv` | src/EventLoop/EventLoop_helper_handlers.cpp:340-405 | a writing connection goes on, resumes its pipe, is recycled, or is closed |
| `LoopInvariant.StartCgiKeepsInv` | src/EventLoop/EventLoop_helper_cgi.cpp:111-170 | a program is started with its pipe registered, or refused with nothing left behind |
| `LoopInvariant.HandleCgiKeepsInv` | src/EventLoop/EventLoop_helper_cgi.cpp:172-270 | a pipe event, the limit of the write buffer included, keeps job, client and masks in agreement |
| `LoopInvariant.ApplyPipeKeepsInv` | src/EventLoop/EventLoop_helper_cgi.cpp:205-270 | whatever the job became, or let out |
| `LoopInvariant.ExpireJobKeepsInv` | cgi/CgiCleanning.cpp:87-97 | a job over its time is failed and closed |
| `LoopInvariant.CloseClientKeepsInv` | src/EventLoop/EventLoop.cpp:144-149 | closing a connection in whatever state takes its job, child, pipe and file with it |
| `LoopInvariant.OpenSpoolKeepsInv` | src/EventLoop/EventLoop_helper_handlers.cpp:163-180 | opening a body file disturbs nothing |
| `LoopInvariant.JobIs` | src/EventLoop/EventLoop_helper_cgi.cpp:111-130 | a job is found by its client |
| `LoopRun.RunKeepsInv` | src/EventLoop/EventLoop.cpp:220-252 | in every run, with any write-buffer limits, unless an exception has left the loop: registrations are the disjoint union of listeners, connections and pipes with the right kinds; no descriptor is lost or shared; every job has a live client and no client two; state, job, write buffer within its limit and mask of each connection agree; no deleted reference was read |
| `LoopRun.DispatchIsSafe` | src/EventLoop/EventLoop.cpp:193-252 | for every batch and every event in it, until an exception leaves the loop: nothing it may name has been freed, and it reaches the registration that produced it with fitting state or changes nothing at all |
| `LoopRun.BatchKeepsInv` | src/EventLoop/EventLoop.cpp:240-241 | after any part of a batch the invariant holds and the rest of the batch is still in order |
| `LoopRun.WaitIsOrderly` | src/EventLoop/EventLoop.cpp:229-241 | a batch starts in order |
| `LoopRun.TurnKeepsInv` | src/EventLoop/EventLoop.cpp:220-252 | one turn: batch, freeing, client and job timeouts, reaping |
| `LoopRun.TimeOutKeepsInv` | src/EventLoop/EventLoop.cpp:151-162 | a late client gets its response as far as it goes and is closed |
| `LoopRun.AddListenerKeepsInv` | src/EventLoop/EventLoop_helper.cpp:37-45 | a listener can be added at any time |
| `LoopRun.InitialIsInv` | src/EventLoop/EventLoop.cpp:220-222 | the empty loop is in order |
| `LoopRun.ChildrenAreConserved` | src/EventLoop/EventLoop.cpp:165-190 | in every run, also after an exception has left the loop, each forked process is reaped or has exactly one owner, and the running ones are one for each live job |
| `LoopFalls.EventFallsIff` | src/EventLoop/EventLoop.cpp:193-218 | an event lets an exception out of the loop, where nothing catches it, if and only if a page, terminator or cut chunk does not fit as stated, in terms of the room before it |
| `LoopFalls.TimeOutFallsIff` | src/EventLoop/EventLoop.cpp:151-162 | a late client does so if and only if its 408 response does not fit or the pipe read behind its send does |
| `LoopFalls.ExpireFallsIff` | cgi/CgiCleanning.cpp:87-97 | a late job does so if and only if its page or terminator does not fit |
| `LoopFalls.LoopKeepsBackPressure` | src/EventLoop/EventLoop_helper_cgi.cpp:184-253 | a body read of a job in the loop starts below the high-water mark and leaves at most one read with its framing above it |
| `LoopCases.FourEventsEndTheServer` | src/EventLoop/EventLoop.cpp:220-252 | from the empty loop with one listener: a client is accepted, asks for a program, the program prints the end of its header and then ends or prints one byte; the fourth turn lets the exception out |
| `LoopSteps.RunIsSteps` | src/EventLoop/EventLoop.cpp:220-252 | a run of the loop is the list of its steps one after the other: turn by turn the events that are reported, each possible when its turn comes, then freeing, late clients, late jobs, reaping |
| `LoopStreams.DoAdvances` | src/EventLoop/EventLoop.cpp:220-252 | every step that leaves a job in the loop does to it and its client what some events of its stream do, on the bytes read and sent in that step; steps that do not concern it do nothing to it |
| `LoopStreams.NewJobIsFresh` | src/EventLoop/EventLoop_helper_cgi.cpp:111-170 | a job enters the loop with nothing read, pending or buffered |
| `LoopStreams.JobStreams` | src/EventLoop/EventLoop.cpp:220-252 | as long as a job stays, what the steps do to it is a run of the stream it is, on what they read from its pipe and send to its client |
| `LoopStreams.EveryJobStreams` | src/EventLoop/EventLoop.cpp:220-252 | every job after any steps was opened by one of them, and from there on is a run of a stream from its start, on exactly what was read from its pipe and whatever may still come |
| `LoopStreams.ClientInLoopGetsBody` | src/EventLoop/EventLoop_helper_cgi.cpp:172-270 | so after any run every job was opened by one of its steps, and what the steps since sent to its client, with what is to be sent, is a header block that announces a chunked body and a coding that decodes to all that they read behind the header |
| `LoopStreams.DoEnds` | src/EventLoop/EventLoop_helper_cgi.cpp:172-270 | every step that takes a job out of the loop and leaves its client ends the stream, unless the limit is met; the client then writes, and is kept alive as before unless the program failed behind its header |
| `LoopStreams.WholeLife` | src/EventLoop/EventLoop_helper_cgi.cpp:172-270 | from its beginning to the step that ends it a job is a stream that ends, with what its client has, on exactly what the steps read and sent |
| `LoopStreams.LoopDeliversBody` | src/EventLoop/EventLoop_helper_cgi.cpp:172-270 | the whole life of a job in the loop: if the limit is not met, all that the steps sent to its client and is still to be sent is a header block that announces a chunked body and a coding that decodes to all they read behind the header, with its terminator when the job ended with one; the client is kept alive as before unless the program failed behind its header |
| `LoopCuts.LoopCutsBody` | src/EventLoop/EventLoop_helper_cgi.cpp:242-270 | and if the limit was met in the body: header block, and the body up to the last step, or that and the terminator as data, by whether the size line of the last chunk fitted; the client is not kept alive |
| `LoopCuts.ExpiryIsNotSurvived` | cgi/CgiCleanning.cpp:87-97 | a timeout beyond the limit takes the server down |
| `LoopOutcomes.SentWhole` | src/EventLoop/EventLoop_helper_handlers.cpp:388-398 | when the socket takes the rest of a response that no program is writing, the connection is open afterwards if and only if it is kept alive and its peer has not closed its half; then it reads, with an empty buffer, its limit kept and no body file, and otherwise its descriptor is free and nobody is registered for it |
| `LoopOutcomes.SentPart` | src/EventLoop/EventLoop_helper_handlers.cpp:400-404 | when it takes less, the connection goes on writing exactly what was not taken |
| `LoopOutcomes.ErrorCloses` | src/EventLoop/EventLoop_helper_handlers.cpp:417-421 | an error closes the connection, its job, pipe and body file, and no other |
| `LoopOutcomes.HangUpClosesIff` | src/EventLoop/EventLoop_helper_handlers.cpp:423-443 | a hang-up does so if nothing is left to send or a program is writing; otherwise it is remembered and nothing else changes |
| `LoopOutcomes.ReadsOn` | src/EventLoop/EventLoop_helper_handlers.cpp:280-330 | an unfinished request leaves the connection reading with the limit of the configuration it has chosen |
| `LoopOutcomes.PeerIsClosed` | src/EventLoop/EventLoop_helper_handlers.cpp:276-292 | a peer that closes is closed |
| `LoopOutcomes.FloodIsCut` | src/EventLoop/EventLoop_helper_handlers.cpp:332-338 | a request that met its limit is answered with 413 and the connection is not kept alive |
| `LoopOutcomes.RefusalIsAnswered` | src/EventLoop/EventLoop_helper_handlers.cpp:304-312 | a refused request has its page to be sent, or the page that says it did not fit |
| `LoopOutcomes.RequestIsServed` | src/EventLoop/EventLoop_helper_handlers.cpp:256-261 | a request that is served has all parts of its response to be sent; if they pass the limit, the parts that fit and the page behind them, and the connection is not kept alive |
| `LoopOutcomes.ProgramRuns` | src/EventLoop/EventLoop_helper_cgi.cpp:111-170 | a request for a program opens exactly one fresh job for the connection, with the new process as its child, and closes the body file |
| `LoopOutcomes.ProgramFails` | src/EventLoop/EventLoop_helper_cgi.cpp:111-170 | without a pipe it is answered with 500, without a process with 502, and nothing is left of the job |
| `LoopOutcomes.ListenerAccepts` | src/EventLoop/EventLoop_helper_handlers.cpp:11-32 | connections are taken in the order in which they wait up to the limit on their number, reading, with empty buffers, and nothing else changes |
| `LoopOutcomes.LateIsClosedIff` | src/EventLoop/EventLoop.cpp:151-162 | a late connection is closed unless it waits for the header of a program; then nothing happens |
| `LoopRequests.OpensByProgram` | src/EventLoop/EventLoop_helper_handlers.cpp:222-338 | a job is opened only by a readable event of its client that is answered with a program |
| `LoopRequests.GoAllKeepsInv` | src/EventLoop/EventLoop_helper_handlers.cpp:263-338 | in every run in which readable events are answered as the read loop does on all that arrived, a connection that reads has a request that is still open |
| `LoopRequests.ProgramsHaveTheirBodies` | src/EventLoop/EventLoop_helper_handlers.cpp:222-338 | in every such run a step that starts a program finds the request of its client complete, nothing of its body in memory, and in the file the body that one call of the parser decodes from all the bytes taken since the request began |
| `LoopRequests.SomeAnswerMatches` | src/EventLoop/EventLoop_helper_handlers.cpp:263-338 | the read loop leaves an answer for every event but one: an append to an erased buffer |
| `LoopRequests.LoopIsTheLoop` | src/EventLoop/EventLoop.cpp:220-252 | those runs are runs of the event loop |
| `EventLoops.EventLoop.constructor` | src/EventLoop/EventLoop.cpp:220-222 | a new loop is the empty state |
| `EventLoops.EventLoop.RegisterEventFd` | src/EventLoop/EventLoop_helper.cpp:14-34 | a fresh reference in heap, table and interest set |
| `EventLoops.EventLoop.UnregisterEventFd` | src/EventLoop/EventLoop.cpp:106-116 | the reference is marked and queued for freeing, not freed |
| `EventLoops.EventLoop.ModifyEventFd` | src/EventLoop/EventLoop.cpp:118-134 | only a live registration gets the new mask |
| `EventLoops.EventLoop.ReapPending` | src/EventLoop/EventLoop.cpp:165-190 | the pass over the pending list |
| `EventLoops.EventLoop.FindJob` | cgi/CgiCleanning.cpp:76-85 | the job of a client, if it has one |
| `EventLoops.EventLoop.CloseCgiJob` | cgi/CgiCleanning.cpp:55-74 | pipe, registration, job and child are released |
| `EventLoops.EventLoop.CloseClientFd` | src/EventLoop/EventLoop.cpp:144-149 | a client and everything it owns are released |
| `EventLoops.EventLoop.HandleAccept` | src/EventLoop/EventLoop_helper_handlers.cpp:11-32 | the accept loop |
| `EventLoops.EventLoop.ApiStartCgi` | src/EventLoop/EventLoop_helper_cgi.cpp:111-170 | pipe, fork and job, with every failure branch undone |
| `EventLoops.EventLoop.HandleReadable` | src/EventLoop/EventLoop_helper_handlers.cpp:263-338 | the reaction to what the parser made of the bytes |
| `EventLoops.EventLoop.SendParts` | src/EventLoop/EventLoop_helper_handlers.cpp:300-338 | the parts of a response, with the catch behind them |
| `EventLoops.EventLoop.CatchLimit` | src/EventLoop/EventLoop_helper_handlers.cpp:332-338 | the page of the catch, which may throw again |
| `EventLoops.EventLoop.FailLateJob` | cgi/CgiCleanning.cpp:87-97 | one late job |
| `EventLoops.EventLoop.TellLate` | src/EventLoop/EventLoop.cpp:151-162 | the 408 response, as far as it goes |
| `EventLoops.EventLoop.HandleCgiEvent` | src/EventLoop/EventLoop_helper_cgi.cpp:172-270 | the pipe handler with job, client and masks |
| `EventLoops.EventLoop.HandleWritable` | src/EventLoop/EventLoop_helper_handlers.cpp:340-405 | what becomes of a connection after a send |
| `EventLoops.EventLoop.HandleClientEvent` | src/EventLoop/EventLoop_helper_handlers.cpp:408-455 | the order of error, hang-up, input and output |
| `EventLoops.EventLoop.DispatchEvent` | src/EventLoop/EventLoop.cpp:193-218 | by kind of the named reference |
| `EventLoops.EventLoop.DispatchBatch` | src/EventLoop/EventLoop.cpp:240-241 | the loop over a batch |
| `EventLoops.EventLoop.FreeStaleRefs` | src/EventLoop/EventLoop.cpp:243-245 | queued references are freed after the batch |
| `EventLoops.EventLoop.CloseTimedOutClients` | src/EventLoop/EventLoop.cpp:151-162 | every late client, in any order |
| `EventLoops.EventLoop.CloseTimedOutCgiJobs` | cgi/CgiCleanning.cpp:87-97 | every late job, in any order |
| `EventLoops.EventLoop.AddServerSocket` | src/EventLoop/EventLoop_helper.cpp:37-45 | a listener and its registration |
| `EventLoops.EventLoop.RunOnce` | src/EventLoop/EventLoop.cpp:220-252 | one turn keeps the invariant and is one turn of the state machine |
| `EventLoops.EventLoop.RunAll` | src/EventLoop/EventLoop.cpp:220-252 | so does any number of turns |
| `Multipart.UploadRoundTrip` | src/ResponseHandler.cpp:68-125 | a file wrapped with its name under a CR-free boundary it does not contain, behind any preamble of lines without the delimiter, is found again, bytes, name and the media type of its headers (section 5.1.1 of RFC 2046) |
| `Multipart.PreambleDoesNotMatter` | src/ResponseHandler.cpp:74-88 | what stands in front of the first delimiter changes nothing |
| `Multipart.PartRoundTrip` | src/ResponseHandler.cpp:68-125 | the same for any delimiter and headers |
| `Multipart.HeadersEndIff` | src/ResponseHandler.cpp:88-91 | the headers of a part end where they were meant to if and only if they hold no empty line and do not end with a line end |
| `Multipart.FoundDataIsDelimited` | src/ResponseHandler.cpp:68-125 | whatever the body, the data found stand between a delimiter with an empty line behind it and the next delimiter |
| `Multipart.FilenameIsFound` | src/ResponseHandler.cpp:93-99 | the name between the quotes is found |
| `Multipart.FindSubstr` | src/ResponseHandler.cpp:24-39 | the leftmost occurrence from a position on, or the end |
| `Multipart.ParseMultipartFirstFile` | src/ResponseHandler.cpp:68-125 | the loops compute that extraction |
| `Multipart.TypeIsFound` | src/ResponseHandler.cpp:101-109 | the media type is the trimmed rest of the first line that gives one |
| `Utc.SplitUtc` | src/Logger.cpp:11-56 | all fields are in range and counting their seconds gives the time back; both loops terminate |
| `Utc.SecondsDetermineDate` | src/Logger.cpp:11-56 | no two dates have the same count, so splitting is the inverse of counting |
| `Utc.EarlierIsBefore` | src/Logger.cpp:11-56 | dates are ordered as their counts |
| `Utc.TimestampsSortByTime` | src/Logger.cpp:58-83 | up to year 9999 formatted timestamps sort lexicographically exactly as the times do |
| `Utc.SplitYear` | src/Logger.cpp:26-39 | the year loop leaves a day within the year it found |
| `Utc.SplitMonth` | src/Logger.cpp:41-55 | the month loop leaves a day within the month it found |
| `Utc.YearAdds` | src/Logger.cpp:4-9 | the closed count of days to a year grows by the length of each year, leap rule included |
| `Utc.YearIsItsMonths` | src/Logger.cpp:41-55 | the months of a year add up to it |
| `Utc.TimestampIs` | src/Logger.cpp:58-83 | a timestamp of a four-digit year, place by place |
| `ConfigLexer.RetokenizingIsIdempotent` | conf/parsing.cpp:28-111 | tokenising the space-joined tokens of a file again gives the same tokens |
| `ConfigLexer.CleanTokensReadBack` | conf/parsing.cpp:28-111 | any list of clean tokens written in a line is read back as it is |
| `ConfigLexer.TokensAreClean` | conf/parsing.cpp:28-111 | every token of every file is clean: not empty, without white space or comment, punctuation alone |
| `ConfigLexer.SplitRefactoredIsRuns` | conf/parsing.cpp:54-111 | collapsing blanks and then splitting gives the runs of non-blank characters |
| `ConfigLexer.RemoveComments` | conf/parsing.cpp:28-53 | the loop strips comments, or reports a quote |
| `ConfigLexer.RefactorBuffer` | conf/parsing.cpp:54-78 | the loop collapses blanks |
| `ConfigLexer.InsertSpace` | conf/parsing.cpp:80-99 | the loop puts punctuation between blanks |
| `ConfigLexer.StoreInVec` | conf/parsing.cpp:101-111 | the loop splits at blanks |
| `ConfigLexer.Tokenize` | conf/parsing.cpp:28-111 | the pipeline as a whole |
| `ConfigNumbers.BoundedIsExactIff` | conf/server_parser.cpp:133-157 | a checked number narrowed to int is the number written if and only if that is below 2^31 |
| `ConfigNumbers.HugePortIsAccepted` | conf/server_parser.cpp:133-157 | port 4294967377 is taken for port 81 |
| `ConfigNumbers.InRangeIsAccepted` | conf/server_parser.cpp:133-157 | every number in range is accepted as it is |
| `ConfigNumbers.LongIsExact` | conf/httpConfig.cpp:9-34 | the accumulator accepts exactly the decimal numbers up to the greatest long, with their value |
| `ConfigNumbers.SafeStrtol` | conf/httpConfig.cpp:9-34 | the digit loop computes that |
| `ConfigNumbers.HostIsFourOctets` | conf/server_parser.cpp:13-51 | a host is valid exactly when it is four valid octets joined by dots |
| `ConfigNumbers.IsValidOctet` | conf/server_parser.cpp:13-29 | the digit loop decides one octet |
| `ConfigNumbers.IsValidHost` | conf/server_parser.cpp:31-51 | the character loop decides a host |
| `LexerLaws.CommentIsHidden` | conf/parsing.cpp:28-53 | a # where a token can start hides the rest of its line, quotes included, wherever the line stands |
| `LexerLaws.QuotesAreRefused` | conf/parsing.cpp:28-111 | a file without # is refused if and only if it has a quote; otherwise its tokens are the pieces between white space and around braces and semicolons |
| `ConfigSizes.FtStrtod` | conf/parserConf.cpp:119-178 | the loops over sign, digits and fraction compute the number, each operation rounded, and what stands behind it |
| `ConfigSizes.ParseSize` | conf/parserConf.cpp:181-210 | units, the tests and the conversion |
| `ConfigSizes.SizeOverflowsIff` | conf/parserConf.cpp:203-209 | however doubles round, a size is -1 or in the range of its type, and it is -2^63 if and only if the number times its unit is 2^63 |
| `ConfigSizes.WrittenSizeIs` | conf/parserConf.cpp:181-210 | digits of up to 53 bits and a unit are read as they are written, -1 when 0 or beyond 2^63, -2^63 at 2^63 |
| `ConfigSizes.HugeSizeIsNegative` | conf/parserConf.cpp:203-209 | 8589934592G is read as -2^63 |
| `ConfigSizes.UnitIsPlace` | conf/parserConf.cpp:181-210 | K, M and G in either case stand for 1024, its square and its cube |
| `ConfigSizes.OnlyTheseAreUnits` | conf/parserConf.cpp:181-210 | there is no other unit |
| `ConfigSizes.SignIsRead` | conf/parserConf.cpp:119-178 | a plus in front of a number changes nothing, a minus negates it |
| `ConfigSizes.WrittenFractionIs` | conf/parserConf.cpp:119-178 | without rounding, digits, a point and digits are read as the number they are |
| `ConfigGrammar.AcceptsExactlyHttpBlocks` | conf/parserConf.cpp:38-72 | the nested cursor loops accept at an http token and stop at a position if and only if the tokens up to there are a written http block that means the result; hence every loop advances and terminates on every token stream |
| `ConfigGrammar.PartsReadBack` | conf/parserConf.cpp:48-66 | any list of directives and servers, written out, is read as what it means or refused |
| `ConfigGrammar.ServerReadsBack` | conf/server_parser.cpp:280-304 | likewise for a server's directives and locations, once-only directives included |
| `ConfigGrammar.ServerWasWritten` | conf/server_parser.cpp:280-304 | whatever was read as a server is the writing of some list of items that means it |
| `ConfigGrammar.LocationReadsBack` | conf/location_parser.cpp:60-81 | likewise for a location's directives |
| `ConfigGrammar.LocationWasWritten` | conf/location_parser.cpp:60-81 | whatever was read as a location is the writing of some list of statements that means it |
| `ConfigGrammar.WrittenIsConsumed` | conf/httpConfig.cpp:95-123 | a written statement is consumed as its values, up to its semicolon |
| `ConfigParser.ConsumeValues` | conf/httpConfig.cpp:95-123 | the loop returns the values up to the semicolon, or fails |
| `ConfigParser.ParseLocation` | conf/location_parser.cpp:8-82 | the cursor loop of a location block |
| `ConfigParser.ParseLocationBody` | conf/location_parser.cpp:60-81 | its loop over directives |
| `ConfigParser.ParseServer` | conf/server_parser.cpp:263-348 | the cursor loop of a server block with the checks behind it |
| `ConfigParser.FinishServer` | conf/server_parser.cpp:306-347 | required directives, inheritance into locations, index names and distinct paths |
| `ConfigParser.VerifyPaths` | conf/server_parser.cpp:54-71 | true exactly when no two locations have the same trimmed path |
| `ConfigParser.ParseHttp` | conf/parserConf.cpp:38-72 | the cursor loop of the http block |
| `ConfigParser.ParseEvents` | conf/eventsConfig.cpp:124-183 | the cursor loop of an events block |
| `ConfigParser.ValidateFinal` | conf/parsing.cpp:165-300 | accepts exactly at most 20 servers that differ in port or name and pass the file checks, and fills in inherited limits |
| `ConfigParser.ParsingLexems` | conf/parsing.cpp:302-340 | the whole file: returns the one list of servers the tokens configure, and fails exactly when there is none |
| `ConfigParser.ConfiguredIsFinal` | conf/parsing.cpp:208-340 | every accepted configuration has distinct trimmed location paths per server, and body limits within [1, 2^31-1] or -2^63 |
| `ConfigParser.HttpKeepsAccepted` | conf/parserConf.cpp:38-72 | every server read was complete, its numbers in range, and its limits in range or -2^63 |
| `ConfigParser.InheritingIsFinal` | conf/parsing.cpp:208-234 | filling in limits leaves none at 0 and keeps the paths |
| `ConfigParser.AcceptedConfigurationRoutesUniquely` | conf/parsing.cpp:208-234 | so every path has one longest location in an accepted configuration, and limits within [1, 2^31-1] if all that were configured are usable |
| `ConfigText.WrittenFileIsRead` | src/API_conf.cpp:36-69 | any list of blocks with names of the language and plain words for values, written as a text, is accepted as exactly the servers that the list means |
| `ConfigText.AcceptedFileHasNormalForm` | src/API_conf.cpp:36-69 | every accepted text, with its comments, events blocks and spacing, has such a list that means its servers and whose own text is accepted as the same servers |
| `ConfigText.HttpSpellable` | conf/LexerConfig.cpp:58-102 | the tokens of a list of blocks are all read back by the token table exactly when its names and values are such |
| `ConfigText.ApiConf` | src/API_conf.cpp:36-69 | the file as a whole: returns the servers its text is accepted as, and fails exactly when there are none |
| `ConfigText.CheckValidContent` | conf/parsing.cpp:14-26 | true exactly for tab, line feed, carriage return and printable characters |
| `ConfigText.IdentifyAll` | src/API_conf.cpp:57-65 | the loop over the tokens gives their kinds and the end |
| `ConfigMeaning.HostMeans` | conf/server_parser.cpp:263-348 | after every accepted server block: the server has what the last statement of each directive says, or what it starts with; every location has its own root or the server's, wherever the two stand; its own index names, or all of the server's if those stand in front of it, or the first of them; its own error pages over those in force where it stands, or the server's when there are none at all; its own size, or the one in force where it stands, or for 0 the server's; and its own methods, else GET, programs, upload path, listing and redirection |
| `ConfigMeaning.HostsMean` | conf/parserConf.cpp:38-107 | every server of an accepted http block is what its block means with the limit and the error pages that are in force where it stands |
| `ConfigMeaning.LocationFollows` | conf/location_parser.cpp:60-213 | every accepted location is its first state changed by the last statement of each directive, and by each error page for its codes |
| `ConfigMeaning.LocationTakesIff` | conf/location_parser.cpp:84-213 | which statements a location takes, and that this does not depend on what was written before |
| `ConfigMeaning.ServerTakesIff` | conf/server_parser.cpp:96-261 | the same of a server |
| `ConfigMeaning.ListenIff` | conf/server_parser.cpp:103-171 | what listening to a value means: port, address, or both, with 0.0.0.0 for * or no address and 9090 for no port |
| `ConfigMeaning.ListensToBoth` | conf/server_parser.cpp:110-143 | an address and a port with a colon between them are read as they are written |
| `ConfigMeaning.LimitsInTheEnd` | conf/parsing.cpp:206-340 | a limit of 0 is none: in the end the server's holds, else the http block's if it is 20000 or more, else one megabyte |
| `ConfigLimits.LimitsAreUsableIff` | conf/parsing.cpp:206-232 | all limits of the servers a list of blocks means are within [1, 2^31-1] if and only if none of the sizes that govern a server or a location is read as -2^63; which sizes govern follows from where they are written |
| `ConfigLimits.AcceptedLimitsAreUsableIff` | conf/parserConf.cpp:181-210 | for the parser of sizes above: none of them times its unit is 2^63 |
| `ConfigLimits.HugeSizeIsAccepted` | conf/server_parser.cpp:201-213 | a server with the size 8589934592G is accepted, with the limit -2^63 |
| `ConfigLimits.LengthsAreExactIffUsable` | src/HttpParser.cpp:663-684 | the lengths of requests to an accepted server are understood as they are written if and only if its limit is usable |

## Left out

- System calls: `epoll_*`, `accept`, `recv`, `send`, `read`, `write`, `open`, `pipe`, `fork`, `execve`, `waitpid`, `kill`
  and `stat` are answers given from outside. Calls on registered descriptors are taken to succeed, and a write to a
  body file to make progress or fail.
- In `LoopRun` a readable event gets what the parser and the response code made of the bytes as an arbitrary answer, so its
  theorems hold for every parser. `LoopRequests` has the answers of the read loop in `Spool`; what a response says stays
  arbitrary there too.
- LoopCuts.LoopCutsBody: for a job that has sent its header. One that has not gets an error page, or the cut first chunk of
  which `CgiPipe.CutResponseIsRead` says the same.
- `CgiHandler::startCgi` and the environment of a program, which returns a pid or fails; stdin jobs, which nothing in
  the code creates.
- `stop`, the destructors and the exit of the loop: runs are those before shutdown.
- Bodies of static files, listings and error pages, MIME types and reason phrases: parameters. Only their effect on
  state and write buffer is kept.
- `HttpRequest::keepAlive`, a comparison of one header, is an answer in the event loop and a parameter of a CGI
  response.
- CgiStream.ClientGetsBody: for streams whose write buffer does not meet its limit; what the limit does to a job is the
  subject of `CgiPipe`, and `LoopStreams` says which jobs of the event loop are such streams.
- What the destructors do once an exception has left the event loop: the model stops in that state, of which it says
  that every process still has one owner. The descriptor that a static file response leaves open when it throws is
  not part of the state.
- `finalizeBodyTmpFile` when reopening the body file fails, after which an error is answered.
- Spooling.HandleRead: an append to an erased buffer does not return, so the model of the loop stops in front of it, and
  `LoopRequests` has no answer for such an event.
- Spooling.TryDispatchComplete: the test at the head of the function. What follows it is in the event loop: a page, a
  response in parts, or the start of a program.
- ConfigText.AcceptedFileHasNormalForm: `events` blocks set nothing that the server uses, and the normal form drops them.
- LoopRun.RunKeepsInv: which clients and jobs are late is an answer, and they are treated in any order; only the
  60 seconds of a pending child are computed from times.
- Liveness: an event with both hang-up and output returns before writing, so only safety is proved of the loop.
- Pipelining: bytes behind a complete request are discarded, so a connection has one request at a time.
- `extractBoundary`, `sanitizeFilename` and the writing of uploads.
- Utc.SplitUtc: the year is an unbounded integer, so the overflow of a 32-bit year is not modelled.
- ConfigSizes.SizeOverflowsIff: rounding is any function on reals, so it holds for that of `double`; a `double` that has
  become infinite is a large real, and a conversion out of range gives the least number, as on x86-64.
- ConfigParser.ParsingLexems: for any parser of sizes; `ConfigLimits` puts in the one of `ConfigSizes`.
- The file system checks of `validate_final_config` are one predicate on servers, and the texts of error messages and
  warnings are dropped: an error is no result.
- ConfigParser.ParseServer: `Location`, `Server` and the http block are values that the cursor loop replaces, not
  objects with setters; the source copies them into their parents. Their `std::map` of CGI programs is the lists of paths and
  extensions, of which routing sees the set of extensions.
- CgiHeaders.CollectFields: the treatment of one header line is a function that the loop applies.
- `make_listener.cpp`, `main.cpp`, logging streams, HTML pages and CGI scripts.
