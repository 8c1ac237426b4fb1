# Sentrits, modelled and verified

Sentrits keeps terminal sessions alive on a host and lets many clients watch while one controls. This
project models the parts of it that carry state or translate between two ends, and proves what they
promise. `dafny verify dfyconfig.toml` checks everything.

| file | what it models |
|---|---|
| `Eviction.dfy` | front eviction, shared by the two bounded histories |
| `OutputBuffer.dfy`, `StreamDelivery.dfy` | numbered output chunks, and their delivery to a web socket over every run of produce, poll and write steps |
| `LineSplitting.dfy`, `LogBuffer.dfy`, `LogEntries.dfy`, `LogQueries.dfy`, `TextSearch.dfy` | the log buffer: splitting two interleaved streams into lines, eviction, queries |
| `Lifecycle.dfy`, `Control.dfy`, `ControlSockets.dfy` | session status, arbitration of control, and the sockets that take and release it in arbitrary interleavings |
| `Runtime.dfy` | the runtime that ties process, output buffer and record together |
| `ShellQuoting.dfy` | both shell quotings against a model of POSIX word splitting |
| `Base64.dfy`, `Decimal.dfy`, `ReplayToken.dfy` | the Base64 encoders and decoders, and replay tokens |
| `UrlCodec.dfy`, `EvidenceTarget.dfy` | percent-encoding, and evidence requests from the command line to the server's dispatch |
| `Utf8.dfy`, `Viewport.dfy` | emitting and clipping UTF-8, viewports and their bootstrap |
| `LogRotation.dfy` | the rotating log file |
| `EnvFile.dfy`, `EnvGrammar.dfy`, `EnvResolver.dfy` | environment files, what they mean, and the layers of a session's environment |
| `Pairing.dfy` | pairing requests, approvals and claims |

Where the source updates state in place, the model is a class or a loop proved against a specification
function; the laws are then proved about that function, mostly over whole runs. I/O, clocks, random
generators, and the results of the process layer and of the pairing store are parameters. Loops of the
source that would be too large as one method are split into helper methods; ghost parameters of helpers
carry specification state only.

## What the code does not promise

Where a desirable property fails, the code is modelled as it is and the exact condition is proved.

- `LogBuffer::Context` computes `anchor + after + 1` in 64 bits without a guard. The window is right if
  and only if that sum does not wrap (`LogQueries.Context`; `LogQueries.WideContextWraps` gives an input).
- A local controller can stay named as controller after its socket was closed: a control frame or a
  readable notification that had already completed still runs and takes control again, and a failed
  resize clears the flag that would release it. Each step keeps the invariant if and only if it is not
  one of these (`ControlSockets.StepExact`). For each cause a whole run is given that ends this way
  (`ControlSockets.StrandingIsReachable`, `LateWaitIsReachable`, `FailedResizeIsReachable`).
- An observer that the host has disconnected becomes the controller if a control request of it had
  already been received (`ControlSockets.LateGrantIsReachable` gives a run). The named controller stays
  one that is not torn down if and only if the step is neither such a grant nor a stranding one
  (`ControlSockets.SafeStepExact`). The grant is temporary: the observer's next read is bound to fail and
  then gives control back (`ControlSockets.DoomedObserverGivesBack`). Apart from such observers, only
  local controllers are ever named while torn down or gone, in any run
  (`ControlSockets.OnlyLocalControllersStrand`).
- Besides release, host request, stop and shutdown, clearing inactive sessions also ends remote control,
  by removing the finished session (`Control.DisplacementIsExact`; `Control.ClearingEndsControl` gives a
  run).
- The time stamp of an unfinished log line depends on chunking (`LogBuffer.StampDependsOnChunking`);
  nothing else in the log does (`LogBuffer.ChunkingDoesNotMatter`,
  `LogBuffer.TimesDoNotDependOnChunking`). It is the time of the chunk that brought the line's first byte if and
  only if that byte does not follow a line feed in the same chunk; otherwise it is 0
  (`LogBuffer.StampLaw`).
- A viewport bootstrap prints the lines above the viewport and then erases the screen. Of those lines the
  last min(top, rows - 1) have not scrolled off by then and are lost to the client, so its history is
  complete if and only if there are none or the viewport has one row (`Viewport.HistoryIsComplete`;
  `Viewport.ErasedLineIsLost` gives an input).
- The server does not decode the session id of an evidence path and refuses an empty search text, which
  the command line sends. The round trip succeeds if and only if the id is unreserved and the text, if
  any, is not empty (`EvidenceTarget.EvidenceRoundTrip`; `EvidenceTarget.RequestsThatFail` gives inputs).
- The lenient Base64 decoder accepts misplaced padding, and that is the only difference to the strict
  one (`Base64.StrictnessIsPadding`; `Base64.MispaddedIsLenient` gives an input).
- The strict Base64 decoder ignores the filler bits of a short last group, so different inputs decode to
  the same bytes; encoding gives an accepted input back if and only if those bits are zero
  (`Base64.EncoderInvertsDecoder`).
- A rotating log with a limit of 0 writes one byte per file (`LogRotation.OneBytePerFile`); the bounds
  hold with 1 in place of 0.
- An environment value with a line feed does not survive being written as a quoted line; every other
  value does (`EnvFile.EnvFileRoundTrip`).

## Model

| member | source | states |
|---|---|---|
| Eviction.LongestFitIsLongest | src/service/log_buffer.cpp:241-250 | no longer suffix satisfies the limits than the one kept by popping from the front |
| Eviction.EvictIncrementally | src/session/session_output_buffer.cpp:113-118 | evicting after every append keeps the same elements as evicting once over everything ever appended |
| OutputBuffer.SessionOutputBuffer.Append | src/session/session_output_buffer.cpp:11-28 | for every history of appends the chunks are exactly the longest fitting suffix of the stored chunks, with the size and next sequence number to match |
| OutputBuffer.SessionOutputBuffer.EvictIfNeeded | src/session/session_output_buffer.cpp:113-118 | leaves the longest suffix within capacity and its size |
| OutputBuffer.SessionOutputBuffer.LatestSequence | src/session/session_output_buffer.cpp:36-42 | the number of the newest append, present exactly when something was appended |
| OutputBuffer.SessionOutputBuffer.Tail | src/session/session_output_buffer.cpp:44-81 | the last min(n, size) bytes, ending at the newest chunk, labelled with the chunk that holds the first returned byte |
| OutputBuffer.SessionOutputBuffer.SliceFromSequence | src/session/session_output_buffer.cpp:83-111 | the chunks from the first one numbered at or after the request |
| OutputBuffer.RetainedShape | src/session/session_output_buffer.cpp:11-28 | retained chunks are numbered consecutively up to the newest append, hold its stored data, and fit the capacity |
| OutputBuffer.RetainedIsSuffix | src/session/session_output_buffer.cpp:11-28 | the retained bytes are a suffix of all bytes ever appended, within capacity, even when single appends are cut |
| OutputBuffer.EvictedDidNotFit | src/session/session_output_buffer.cpp:113-118 | nothing was evicted that would still fit |
| OutputBuffer.NewestRetained | src/session/session_output_buffer.cpp:11-28 | the newest append is never evicted |
| OutputBuffer.SliceFromHistory | src/session/session_output_buffer.cpp:83-111 | a slice holds every chunk from the requested number on, or from the oldest retained one if that was evicted, and is empty exactly when no such chunk exists yet |
| StreamDelivery.StreamSequenceWindow.ReserveThrough | src/net/websocket_shared.cpp:52-54 | reserving only moves forward and leaves what is delivered alone |
| StreamDelivery.StreamSequenceWindow.MarkDelivered | src/net/websocket_shared.cpp:56-59 | sets the delivered number and keeps the reserved one at least as high; that it only moves forward is a law of runs |
| StreamDelivery.WebSocketSession.QueueInitialEvents | src/net/http_server.cpp:655-667 | the first events of a client are its status and the tail of the output, once |
| StreamDelivery.WebSocketSession.SendPendingOutput | src/net/http_server.cpp:607-621 | a poll queues status frames and the output from the first unreserved chunk on, if any |
| StreamDelivery.WebSocketSession.OnWritten | src/net/http_server.cpp:786-790 | a completed write delivers the oldest frame and starts the next; that this keeps the queue moving is `QueueDrains` |
| StreamDelivery.StepsAreTheSocketOperations | src/net/http_server.cpp:607-667 | the steps of the run model are the operations proved about the socket class |
| StreamDelivery.StepInv | src/net/http_server.cpp:735-791 | every produce, connect, poll and write step keeps the stream invariant |
| StreamDelivery.RunInv | src/net/http_server.cpp:735-791 | the stream invariant holds in every state of every run |
| StreamDelivery.DeliveredNeverDecreases | src/net/websocket_shared.cpp:48-59 | over every run the delivered counter never decreases, is at most the reserved one, which is at most one past the newest chunk, and equals it when the queue is empty |
| StreamDelivery.FramesCarryTheirChunks | src/net/http_server.cpp:607-621 | every output frame carries exactly the stored data of the chunks it names and skips a wanted chunk only if the buffer had evicted it |
| StreamDelivery.OutputRangesIncrease | src/net/http_server.cpp:655-667 | the ranges of later output frames lie strictly after those of all earlier frames |
| StreamDelivery.GapsAreEvictions | src/net/http_server.cpp:607-621 | in every run the output frames are contiguous if and only if the buffer had not evicted the wanted chunk when any of them was queued |
| StreamDelivery.ExactlyOnce | src/net/http_server.cpp:607-667 | in every run in which no poll found its wanted chunk evicted, the live output queued is the concatenation of the chunks after the initial tail, none missing, repeated or reordered |
| StreamDelivery.DeliveredExactlyOnce | src/net/http_server.cpp:755-791 | in every such run the live output written to the client is that concatenation up to the delivered number |
| StreamDelivery.SentIsTheEndOfTheStream | src/net/http_server.cpp:607-667 | in every such run the initial tail followed by the live output is the end of all stored output up to the reserved number |
| StreamDelivery.PollCatchesUp | src/net/http_server.cpp:607-621 | after a poll everything produced is queued, so in every later state with an empty queue the client has received at least all of it |
| StreamDelivery.WritingWhileQueued | src/net/http_server.cpp:735-791 | in every state of every run a write is under way if and only if the queue is not empty, so unless a write has failed the next completion can always happen |
| StreamDelivery.QueueDrains | src/net/http_server.cpp:786-790 | from every state of every run without a failed write, as many completed writes as there are frames queued, each possible after the one before, empty the queue and deliver everything reserved |
| StreamDelivery.ConnectSendsTheTail | src/net/http_server.cpp:655-667 | connecting queues the tail as the last frame, unless the client is a raw one and the tail is empty |
| StreamDelivery.StatusesAreQueued | src/net/http_server.cpp:607-667 | every step queues all the status events it has to report, and after them at most one frame of output |
| LineSplitting.PiecesSplitTheStream | src/service/log_buffer.cpp:168-216 | the pieces and the rest rebuild the stream and hold no line feed themselves |
| LineSplitting.FeedTracks | src/service/log_buffer.cpp:191-213 | one byte keeps the splitter in step with the whole stream and completes exactly the line the stream completes |
| LogBuffer.Buffer.Append | src/service/log_buffer.cpp:168-216 | the loop with look-ahead has the effect of the byte-wise splitter, for every chunk |
| LogBuffer.ConsumeByte | src/service/log_buffer.cpp:191-213 | one turn of the loop, with its look-ahead for a line feed, stays in step with the byte-wise splitter |
| LogBuffer.Buffer.CompleteLine | src/service/log_buffer.cpp:218-239 | records the line and evicts, keeping entries and bytes conserved |
| LogBuffer.EvictIfNeeded | src/service/log_buffer.cpp:241-250 | keeps the longest suffix within both limits and moves the rest to the dropped totals; what is kept has at most the allowed entries and at most the allowed text bytes |
| LogBuffer.ConservedStep | src/service/log_buffer.cpp:218-250 | dropped plus retained entries and bytes equal all lines and text bytes ever completed, before and after each line |
| LogBuffer.RetainedIsLongest | src/service/log_buffer.cpp:241-250 | after any run the entries are a suffix of all completed lines with at most the allowed number of entries and of text bytes, 0 meaning no limit, and from every line before the cut on one of the two limits is exceeded |
| LogBuffer.Buffer.EntriesRevised | src/service/log_buffer.cpp:218-250 | retained revisions are contiguous and end just below the next one |
| LogBuffer.RunRefinesStreams | src/service/log_buffer.cpp:168-216 | for every interleaving and chunking each stream's lines are the line-feed separated pieces of its bytes, without one trailing carriage return and then only what follows the last one; the unfinished line likewise |
| LogBuffer.LineLaw | src/service/log_buffer.cpp:168-239 | after every run there is exactly one line for each line feed received, numbered in order of arrival, with the stream, the time and the byte offset of that line feed and a start that many text bytes before it |
| LogBuffer.UnfinishedIsClean | src/service/log_buffer.cpp:168-216 | an unfinished line never holds a carriage return or line feed |
| LogBuffer.ChunkingDoesNotMatter | src/service/log_buffer.cpp:168-216 | any two divisions of the same bytes give the same lines, offsets, unfinished text and pending flag, and under any limits the same retained entries |
| LogBuffer.TimesDoNotDependOnChunking | src/service/log_buffer.cpp:168-216 | any two divisions of the same bytes arriving at the same times complete the same lines with the same times |
| LogBuffer.StampLaw | src/service/log_buffer.cpp:177-209 | after every run an unfinished line's stamp is the time of the chunk with its first byte if and only if that byte does not follow a line feed in the same chunk, and otherwise 0 |
| LogBuffer.LineBegins | src/service/log_buffer.cpp:168-216 | every unfinished line begins at some byte of some chunk of its stream |
| LogBuffer.StampDependsOnChunking | src/service/log_buffer.cpp:177-189 | a concrete pair of runs of the same bytes whose unfinished line has different time stamps |
| LogBuffer.Buffer.TailEntries | src/service/log_buffer.cpp:38-66 | the tail query over the buffer's entries and unfinished lines |
| LogBuffer.Buffer.PartialIsOfItsStream | src/service/log_buffer.cpp:38-66 | after every run the unfinished item of a stream is labelled with that stream, holds what that stream received after its last line, and is there exactly if that is not empty |
| LogBuffer.Buffer.RangeEntries | src/service/log_buffer.cpp:68-93 | the range query over the buffer's entries |
| LogBuffer.Buffer.ContextEntries | src/service/log_buffer.cpp:128-147 | the context query over the buffer's entries, right if and only if its end index does not wrap |
| LogBuffer.Buffer.SearchEntries | src/service/log_buffer.cpp:95-126 | the search query over the buffer's entries |
| LogBuffer.Buffer.RevisionStats | src/service/log_buffer.cpp:156-166 | the reported revisions are those of the oldest and newest retained entry |
| LogQueries.Range | src/service/log_buffer.cpp:68-93 | index arithmetic equals filtering by revision and taking the limit |
| LogQueries.BetweenIsSlice | src/service/log_buffer.cpp:68-93 | on contiguous revisions filtering by revision is slicing |
| LogQueries.Context | src/service/log_buffer.cpp:128-147 | the entries within reach of the anchor if and only if the end index does not wrap at 64 bits |
| LogQueries.WideContextWraps | src/service/log_buffer.cpp:128-147 | an input on which the end index wraps |
| LogQueries.Search | src/service/log_buffer.cpp:95-126 | the first matching entries up to the limit with all their highlights, truncated exactly when more entries match |
| LogQueries.SearchFindsTheFirst | src/service/log_buffer.cpp:95-126 | the entries found are, in order, the first of exactly those in which the query occurs, and the result is truncated exactly when there are more |
| LogQueries.HighlightsByEntry | src/service/log_buffer.cpp:113-122 | the highlights are those of each entry found, one entry after the other |
| LogQueries.HighlightsAreDisjoint | src/service/log_buffer.cpp:113-122 | highlights are occurrences of the query, disjoint and in order |
| LogQueries.HighlightsCover | src/service/log_buffer.cpp:113-122 | every occurrence overlaps a highlight that starts at or before it, so none is missed |
| LogQueries.Tail | src/service/log_buffer.cpp:38-66 | the newest entries followed by the unfinished lines, which take precedence |
| LogQueries.TailLength | src/service/log_buffer.cpp:38-66 | a tail has exactly min(limit, entries + unfinished lines) items: the last of them all, unless the limit is too small for the unfinished lines alone |
| Lifecycle.SessionLifecycle.TryTransition | src/session/session_lifecycle.cpp:5-34 | moves exactly along the allowed transitions and leaves terminal states alone |
| Control.SessionManager.RequestControl | src/service/session_manager.cpp:1961-1993 | arbitration changes only the one session, as the law for entries says |
| Control.SessionManager.ReleaseControl | src/service/session_manager.cpp:1995-2018 | release changes only the one session, as the law for entries says |
| Control.SessionManager.HasControl | src/service/session_manager.cpp:2020-2036 | true exactly for the named controller of a known session |
| Control.SessionManager.StopSession | src/service/session_manager.cpp:1890-1936 | stopping resets the controller exactly when it succeeds |
| Control.SessionManager.ClearInactive | src/service/session_manager.cpp:1938-1959 | forgets exactly the sessions that are not interactive and counts them |
| Control.ReachableProper | src/service/session_manager.cpp:1961-2018 | in every reachable state a remote controller has a client id and a missing controller has none |
| Control.GrantedMeansControl | src/service/session_manager.cpp:1961-1993 | a granted request leaves the requester in control, a refused one changes nothing |
| Control.RefusedExactly | src/service/session_manager.cpp:1961-1993 | a request is refused if and only if the session is not interactive, or it is a remote one and another client holds control remotely; granted, it names the requester as what it asked for and keeps the status |
| Control.ReleaseIsByHolder | src/service/session_manager.cpp:1995-2018 | only the holder's release has an effect, and it leaves the host in charge |
| Control.ReleaseAnswer | src/service/session_manager.cpp:1995-2018 | a release is refused if and only if another client is the controller |
| Control.StopFreesControl | src/service/session_manager.cpp:1890-1936 | a stop that succeeds leaves nobody named and the host in charge; it fails only for a live session whose process could not be stopped, and then changes nothing |
| Control.DisplacementIsExact | src/service/session_manager.cpp:1890-2018 | a remote holder loses control at a step if and only if the step is one of the displacing events |
| Control.DisplacedOnlyByLaw | src/service/session_manager.cpp:1890-2090 | over every run, between holding control remotely and not holding it a displacing event happened; never another remote client's request |
| Control.ClearingEndsControl | src/service/session_manager.cpp:1938-1959 | a run in which clearing inactive sessions ends remote control |
| ControlSockets.LocalControllerSession.EnsureControlForInput | src/net/http_server.cpp:2440-2456 | takes control for the host before input, with the control flag dropped on a failed resize |
| ControlSockets.LocalControllerSession.ForceClose | src/net/http_server.cpp:1999-2016 | closes once and releases control if the flag says it is held |
| ControlSockets.LocalControllerSession.OnReadable | src/net/http_server.cpp:2277-2302 | drops a stale flag and takes control back from an unnamed host |
| ControlSockets.RemoteControllerSession.OnAccepted | src/net/http_server.cpp:1027-1035 | requests control for a remote client and remembers the answer |
| ControlSockets.RemoteControllerSession.OnReleaseCommand | src/net/http_server.cpp:1165-1172 | releases control and the flag together |
| ControlSockets.RemoteControllerSession.Dispose | src/net/http_server.cpp:964-964 | going away releases control if the flag says it is held |
| ControlSockets.ObserverSession.OnRequestCommand | src/net/http_server.cpp:876-883 | a request is handled whether or not the socket was closed, and the read started after it fails on a closed one |
| ControlSockets.ObserverSession.Dispose | src/net/http_server.cpp:502-502 | going away releases control if the observer holds it |
| ControlSockets.ObserverSession.OnReadError | src/net/http_server.cpp:910-918 | a failed read releases control if the observer holds it |
| ControlSockets.StepExact | src/net/http_server.cpp:2420-2456 | every step of every socket keeps "whoever is named as controller is a socket that will give control back" if and only if it is not a stranding step |
| ControlSockets.SafeStepExact | src/net/http_server.cpp:793-883 | every step keeps the named controller from being torn down if and only if it neither strands a local controller nor grants control to a closed observer |
| ControlSockets.RunInv | src/net/http_server.cpp:910-918 | the invariant holds in every state of every run free of stranding steps |
| ControlSockets.NoStrandedController | src/net/http_server.cpp:1292-1299 | in every interleaving free of those steps, with ids reused after a socket is gone, the named controller belongs to a socket that is not torn down |
| ControlSockets.OnlyLocalControllersStrand | src/net/http_server.cpp:910-918 | in every state of every run, stranding steps and reused ids included, a named client whose socket is torn down or gone is or was a local controller, or is an observer whose outstanding read is bound to fail |
| ControlSockets.LostWereStranded | src/net/http_server.cpp:1999-2016 | a client can be named after its socket is gone only if it was a local controller and a stranding step came before |
| ControlSockets.DoomedObserverGivesBack | src/net/http_server.cpp:793-802 | such an observer takes no further command and gives control back when that read fails |
| ControlSockets.LateGrantIsReachable | src/net/http_server.cpp:876-883 | a run in which a disconnected observer becomes the controller |
| ControlSockets.TeardownTouchesOnlyTheController | src/net/http_server.cpp:910-918 | tearing down a socket that is not the controller never changes the controller, and closing one that holds control and knows it hands control back to the host |
| ControlSockets.Handover | src/net/http_server.cpp:876-918 | for every step of every socket, who is named afterwards: the client of the step if and only if it asks for control and the session can be given to it, and otherwise whoever was named before, unless the step is one by which that client gives control up |
| ControlSockets.StrandingIsReachable | src/net/http_server.cpp:2186-2191 | a whole run with a late control frame at whose end a closed local socket with no handler left is still the controller |
| ControlSockets.LateWaitIsReachable | src/net/http_server.cpp:2277-2302 | the same with a late readable notification |
| ControlSockets.FailedResizeIsReachable | src/net/http_server.cpp:2440-2456 | the same with a failed resize after a remote client had taken control |
| ControlSockets.StrandedStays | src/net/http_server.cpp:1999-2016 | nothing such a socket can still do, going away included, frees the session |
| Runtime.SessionRuntime.Start | src/session/session_runtime.cpp:35-53 | starts only from Created, ends Running with the process or in Error without one and with the reason |
| Runtime.SessionRuntime.HandleExit | src/session/session_runtime.cpp:143-153 | an exit takes effect exactly in an interactive state, ends in Exited or Error and clears the process |
| Runtime.SessionRuntime.TerminateAndMarkExited | src/session/session_runtime.cpp:97-109 | exits exactly when there is a process and it could be terminated |
| Runtime.SessionRuntime.Shutdown | src/session/session_runtime.cpp:111-135 | succeeds unless a process could not be terminated; terminal states absorb |
| Runtime.SessionRuntime.PollOnce | src/session/session_runtime.cpp:167-207 | records every non-empty read in order until an empty or closing one, keeps recorded sequence and tail equal to the buffer's, and handles the exit code |
| Runtime.PolledExtends | src/session/session_runtime.cpp:167-207 | polling extends the history by the leading non-empty reads in order, and stops only at the end, before an empty read, or after the first read that found the terminal closed |
| ShellQuoting.ShellQuote | src/service/session_manager.cpp:150-163 | produces the quotation specified for the double-quoted style |
| ShellQuoting.ShellEscapeSingleQuoted | src/service/git_inspector.cpp:24-36 | produces the quotation specified for the backslash style |
| ShellQuoting.BuildShellExecCommand | src/service/session_manager.cpp:165-173 | a POSIX shell reads the command as `exec`, the executable and the arguments, for all NUL-free strings and no others |
| ShellQuoting.BothQuotingsDenote | src/service/git_inspector.cpp:24-36 | both quotations denote the same word, the quoted string |
| Base64.Base64Encode | src/store/file_stores.cpp:84-116 | the padded encoding, the same in the store and in the JSON layer |
| Base64.Base64UrlEncode | src/service/evidence_response_assembler.cpp:54-71 | the unpadded URL-safe encoding |
| Base64.Base64Decode | src/store/file_stores.cpp:137-181 | the strict decoding, with its error cases |
| Base64.DecodeBase64 | src/cli/daemon_client.cpp:277-324 | the lenient decoding through the filled table, with its error cases |
| Base64.DecodersInvertEncoder | src/net/json.cpp:198-230 | both decoders invert the encoder on every byte string |
| Base64.EncoderInvertsDecoder | src/store/file_stores.cpp:84-181 | encoding what the strict decoder made of an input gives the input back if and only if it is canonical: no bits beyond the bytes in a short last group |
| Base64.DigitsAreTheAlphabet | src/net/json.cpp:18-19 | the digits are the alphabets of tables 1 and 2 of RFC 4648, in order |
| Base64.DecodersAgree | src/store/file_stores.cpp:137-181 | whatever the strict decoder accepts, the lenient one decodes to the same bytes |
| Base64.StrictnessIsPadding | src/cli/daemon_client.cpp:277-324 | of the inputs the lenient decoder accepts the strict one rejects exactly those with misplaced padding |
| Base64.MispaddedIsLenient | src/cli/daemon_client.cpp:277-324 | an input that the lenient decoder accepts and the strict one refuses |
| Base64.UrlEncodeIsInjective | src/service/evidence_response_assembler.cpp:54-71 | different byte strings have different URL-safe encodings |
| ReplayToken.JsonEscape | src/service/evidence_response_assembler.cpp:13-52 | the escaping loop produces the specified escaping |
| ReplayToken.ReadEscaped | src/service/evidence_response_assembler.cpp:13-52 | reading a JSON string (section 7 of RFC 8259) undoes the escaping and ends at the first quote after it |
| ReplayToken.MakeReplayToken | src/service/evidence_response_assembler.cpp:73-82 | the token is the encoding of the labelled fields in order |
| ReplayToken.TokensAreInjective | src/service/evidence_response_assembler.cpp:73-82 | two results have equal tokens if and only if they agree on session id, operation, both revisions, entry count and query |
| ReplayToken.TokenReads | src/service/evidence_response_assembler.cpp:73-82 | decoded and read as a JSON object, a token has exactly its six members, each with its field of the result |
| ReplayToken.TokenNamesTheCall | include/vibe/service/evidence.h:74-86 | a request under the operation a token names leads to the call the token is evidence of |
| Decimal.StoullOfToString | src/net/http_shared.cpp:189-216 | a printed number is read back, or refused if it does not fit 64 bits |
| UrlCodec.UrlEncode | src/cli/daemon_client_http.cpp:392-406 | the percent-encoding loop produces the specified encoding |
| UrlCodec.UrlDecode | src/net/request_parsing.cpp:649-685 | the decoding loop, with its error cases |
| UrlCodec.UrlRoundTrip | src/net/request_parsing.cpp:649-685 | decoding undoes encoding on every byte string |
| UrlCodec.PiecesDecode | src/net/request_parsing.cpp:649-685 | text made of plain bytes and percent escapes, in either case of digits, decodes to the bytes they stand for, a plus sign to a space |
| UrlCodec.DecodedExactly | src/net/request_parsing.cpp:649-685 | decoding succeeds if and only if every percent sign is followed by two hexadecimal digits |
| UrlCodec.EncodedUnchanged | src/cli/daemon_client_http.cpp:392-406 | encoding leaves a text alone if and only if it is all unreserved |
| UrlCodec.ParseQueryValue | src/net/request_parsing.cpp:621-647 | the offset loop returns the value of the first item with the key |
| UrlCodec.LookupJoined | src/net/request_parsing.cpp:621-647 | a key read out of joined items gives the value written for it |
| EvidenceTarget.BuildEvidenceTarget | src/cli/daemon_client_http.cpp:458-507 | the target with its mutable separator is the path and the joined items, or nothing for a refused request |
| EvidenceTarget.PathSplits | src/net/http_shared.cpp:2267-2358 | the server splits the path where the command line joined it, and mistakes it for no snapshot or file request |
| EvidenceTarget.ServerReads | src/net/http_shared.cpp:1717-1810 | what the server does with every target the command line builds: the call meant, under the encoded session id, or a refusal of an empty search |
| EvidenceTarget.EvidenceRoundTrip | src/net/http_shared.cpp:1717-1810 | the server carries out exactly what was asked if and only if the session id is unreserved and the search text, if any, is not empty |
| EvidenceTarget.RequestsThatFail | src/net/http_shared.cpp:1717-1810 | a session id that reaches the server changed, and a search that is refused |
| Utf8.AppendUtf8 | src/session/terminal_multiplexer.cpp:240-266 | appends the text of the normalized scalar, nothing for zero |
| Utf8.NormalizeUnicodeScalar | src/session/terminal_multiplexer.cpp:226-238 | keeps every Unicode scalar value and replaces everything else by U+FFFD |
| Utf8.WellFormedIsText | src/session/terminal_multiplexer.cpp:226-266 | a byte string is well formed (section 4 of RFC 3629) and decodes to these scalars if and only if it is their emitted text |
| Utf8.ClipUtf8Columns | src/session/terminal_multiplexer.cpp:315-338 | a contiguous part of the line found by lead bytes, for arbitrary bytes |
| Utf8.ClipText | src/session/terminal_multiplexer.cpp:294-338 | clipping commutes with encoding |
| Utf8.ClipDecodes | src/session/terminal_multiplexer.cpp:294-338 | clipping a well-formed line gives a well-formed line with exactly the characters in those columns |
| Utf8.CellsToUtf8Line | src/session/terminal_multiplexer.cpp:268-292 | a line of cells is the text of their glyphs without spaces at the end |
| Utf8.CellLinesAreWellFormed | src/session/terminal_multiplexer.cpp:226-292 | every line of cells is well-formed UTF-8, whatever numbers the cells hold |
| Viewport.ViewportSnapshot | src/session/terminal_multiplexer.cpp:535-616 | shows the last rows, clipped and padded with blank ones; a followed cursor's column is inside with the least shift; the cursor is reported exactly when on view |
| Viewport.ViewDecodes | src/session/terminal_multiplexer.cpp:590-600 | well-formed lines stay well formed on view and show the characters of the viewport's columns |
| Viewport.BuildViewportBootstrapAnsi | src/session/terminal_multiplexer.cpp:916-955 | every line is emitted once and in order; a client that reads it shows every line of the viewport on its own row with the cursor placed, and keeps of the lines above exactly those that had scrolled off when its screen was erased |
| Viewport.BootstrapShowsTheView | src/session/terminal_multiplexer.cpp:940-950 | the rows a client shows after the bootstrap are the lines of the viewport snapshot, wherever they come from the scrollback or lie beyond the last line, and all of them if the styling adds nothing |
| Viewport.HistoryIsComplete | src/session/terminal_multiplexer.cpp:922-938 | the lines above the viewport all reach the client's history if and only if there are none or the viewport has one row; otherwise the last min(top, rows - 1) are missing |
| Viewport.ErasedLineIsLost | src/session/terminal_multiplexer.cpp:922-938 | three lines in two rows: the first is emitted and lost |
| LogRotation.RenameAll | src/main.cpp:593-608 | the shifting renames move every file up one place and drop the oldest |
| LogRotation.RotatingFileStreamBuf.Rotate | src/main.cpp:587-621 | a rotation shifts all files by one and starts an empty one, losing only the oldest |
| LogRotation.RotatingFileStreamBuf.Write | src/main.cpp:521-550 | accepts every byte; the files are a suffix of what they held and everything written, from any starting state, and blocks of it when started empty |
| LogRotation.RotateDropsOldest | src/main.cpp:587-621 | what rotation takes from the chain of files is the oldest file |
| LogRotation.NewestBytesSurvive | src/main.cpp:521-550 | started empty, each file is within the limit, the chain is a suffix of everything written, and at least min(total, files × limit) bytes survive |
| LogRotation.FilesAreDetermined | src/main.cpp:521-550 | the contents of every file depend only on the bytes written, not on their division into writes |
| LogRotation.OneBytePerFile | src/main.cpp:521-550 | with a limit of 0 every file that holds anything holds one byte |
| EnvFile.StripInlineComment | src/session/env_file_parser.cpp:31-47 | finds the end of the value before an unquoted comment |
| EnvFile.ExpandVars | src/session/env_file_parser.cpp:50-101 | the expansion loop puts out the specified expansion, whose meaning is `EnvGrammar.ExpansionLaw` |
| EnvFile.UnquoteValue | src/session/env_file_parser.cpp:103-138 | single quotes are literal, double quotes expand, bare values lose comments and blanks |
| EnvFile.ParseEnvFile | src/session/env_file_parser.cpp:142-208 | the assignments of the lines in order, each read with those before it |
| EnvGrammar.ExpansionLaw | src/session/env_file_parser.cpp:50-101 | text made of characters, of references written with or without braces, and of dollar signs that refer to nothing expands to the characters and the values of the names, empty where a name is not defined |
| EnvGrammar.ValueLaw | src/session/env_file_parser.cpp:103-138 | what a single-quoted, double-quoted or bare value, or one with a comment after it, means, for all texts and references in it |
| EnvGrammar.RowLaw | src/session/env_file_parser.cpp:142-208 | what a line means: an assignment with or without `export` and blanks around it, a comment, a blank or a malformed line |
| EnvGrammar.FileLaw | src/session/env_file_parser.cpp:142-208 | what a file of such lines means, each line read in the environment updated by those before it |
| EnvFile.EnvFileRoundTrip | src/session/env_file_parser.cpp:103-208 | pairs with valid keys written as quoted lines read back as they were, whatever the environment, if and only if no value holds a line feed |
| EnvResolver.Put | src/session/env_resolver.cpp:137-153 | updates or appends one entry, keeping keys unique |
| EnvResolver.ApplyOverrides | src/session/env_resolver.cpp:64-85 | the indexed update merges the overrides over the entries in any order, keeping keys unique |
| EnvResolver.EntriesToMap | src/session/env_resolver.cpp:88-96 | the flat map has the value of every entry |
| EnvResolver.ResolveEnvironment | src/session/env_resolver.cpp:116-288 | fails exactly when the shell could not be asked; otherwise the entries have unique keys and are the merged layers of the mode |
| EnvResolver.HighestPriorityWins | src/session/env_resolver.cpp:125-288 | in all modes a key has the value and source of the highest layer that defines it, and no defining layer has a source of higher priority |
| EnvResolver.UndefinedIsAbsent | src/session/env_resolver.cpp:125-288 | a key that no layer defines has no entry |
| EnvResolver.ResolvedExactly | src/session/env_resolver.cpp:50-288 | in all modes an entry is there if and only if it is the one of the first place that defines its key: the session's overrides, the provider's, the explicit file or else the workspace's file before its template, and then what the mode starts from |
| Pairing.PairingService.StartPairing | src/auth/default_pairing_service.cpp:102-132 | sweeps expired requests and stores the new one, with its refusals |
| Pairing.PairingService.ApprovePairing | src/auth/default_pairing_service.cpp:150-194 | succeeds exactly for a pending request in time with the right code, and makes it claimable |
| Pairing.PairingService.ClaimApprovedPairing | src/auth/default_pairing_service.cpp:196-204 | hands out the record exactly for an approved request and its code |
| Pairing.PairingService.GetPairingClaimStatus | src/auth/default_pairing_service.cpp:206-232 | the status law for the current state |
| Pairing.PairingService.RejectPairing | src/auth/default_pairing_service.cpp:234-238 | withdraws the claim and the request and marks it as rejected |
| Pairing.ClaimLaw | src/auth/default_pairing_service.cpp:150-238 | over every run, restarts of the host included, a claim succeeds if and only if the last decision about its request is an approval with its code and no restart came after it |
| Pairing.ApprovalLaw | src/auth/default_pairing_service.cpp:102-194 | every approval is of a request started with that code, not expired, and neither started again, approved, withdrawn nor found expired since, even if the host was restarted in between |
| Pairing.ApprovalExact | src/auth/default_pairing_service.cpp:150-194 | over every run an approval goes through if and only if nothing fails and a request with that code was started, has been neither closed nor found expired since, and is not older than its time limit |
| Pairing.ApprovedOncePerStart | src/auth/default_pairing_service.cpp:150-194 | between two approvals of an id it was started again |
| Pairing.ClaimsDisjoint | src/auth/default_pairing_service.cpp:150-238 | no request is both approved and rejected |
| Pairing.StatusLaw | src/auth/default_pairing_service.cpp:206-232 | told to be approved exactly when a claim would succeed, to be pending exactly when undecided and acceptable now, and to be expired exactly when undecided and still there but too old |

## Left out

- StreamDelivery.RunInv: models sessions with a runtime only; polls of sessions that are merely recorded send no output and are left out.
- LogQueries.Context: apart from this sum, 64-bit counters are taken not to wrap.
- Control.SessionManager.RequestControl: sessions are a map keyed by id instead of a vector; what a change of controller triggers elsewhere (supervision, notifications, persistence) is not modelled.
- Control.DisplacedOnlyByLaw: a shutdown is one event per session, with the process layer's outcome; the loop over all sessions is not modelled.
- ControlSockets.RunInv: takes the ids of sockets that exist to differ, and asynchronous results queued before a close to be delivered with success.
- Viewport.BuildViewportBootstrapAnsi: the styled screen rows are an arbitrary function of row, offset and width, and control sequences are tokens rather than bytes; the lookup of the view id is not modelled. The client is a terminal of as many rows as the viewport that keeps what scrolls off and nothing that is erased.
- EnvResolver.ResolveEnvironment: which file paths exist, the login shell chosen and the bootstrap cache are inputs; the reported paths and warnings are not modelled.
- EnvGrammar.FileLaw: gives no meaning to values with an unclosed brace or unbalanced quotes, to lines with an invalid key, and to blanks between `export`, the key and the equals sign beyond the one needed; `EnvFile.ParseEnvFile` covers those by the specified scan.
- LogRotation.RotatingFileStreamBuf.Write: file errors are not modelled.
- EvidenceTarget.ServerReads: authorization and the lookup of the session happen around the call and are not modelled.
- Output buffers of capacity 0 keep empty chunks for ever; claims that need a visible chunk take a positive capacity.
- The terminal emulation library, style escape sequences, PTY and process handling, sockets, TLS and the JSON library.
- HTTP routing and response building apart from evidence requests, command-line options, the web interface, hub and relay traffic, discovery.
- Plain HTTP input, and resize and stop on the remote-controller socket: they are not gated on control, so nothing is claimed about them.
- Attention, supervision and semantic-change heuristics, and the session, host and evidence stores.
- The exports of the shell-mode script around the quoted command (`src/service/session_manager.cpp:175-190`).
