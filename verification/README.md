# A verified model of tapgres

tapgres watches PostgreSQL traffic. Captured frames become TCP segments, the
segments of each connection are put back in order, the two byte streams are
decoded into protocol messages, and the messages are counted, filtered, shown
and saved. This project models that pipeline in Dafny 4.11 and proves what it
keeps over whole runs.

`dafny verify dfyconfig.toml` checks everything.

## How it is laid out

Where the source updates state in place there is a class or a loop, proved equal
to a function of the old state; the theorems are about that function.

| files | what they model |
|---|---|
| `Core.dfy` | options, bytes and fixed-width integers, endpoints, wrapping 32-bit sequence numbers, bounded tails |
| `Frames.dfy`, `FrameEncoding.dfy` | frame to TCP segment; the layouts it accepts |
| `Reassembly.dfy`, `ReassemblySafety.dfy`, `ReassemblyOverlaps.dfy`, `ReassemblyCompleteness.dfy` | putting segments back in order |
| `PgWire.dfy`, `Decode.dfy`, `Directions.dfy`, `Rows.dfy` | incremental decoding of one direction, row splitting |
| `FlowModel.dfy`, `Flow.dfy` | connections and the table of connections |
| `FlowLifecycle.dfy`, `FlowDemux.dfy`, `FlowNegotiation.dfy`, `FlowConservation.dfy`, `FlowEndToEnd.dfy`, `FlowRefused.dfy`, `FlowTable.dfy` | what runs of the table keep |
| `MetricsModel.dfy`, `Metrics.dfy`, `RegistrySteps.dfy`, `RecordSteps.dfy`, `RateSamples.dfy` | the metrics store, call by call and interleaved |
| `FilterSyntax.dfy`, `FilterLexer.dfy`, `FilterParser.dfy`, `FilterGrammar.dfy`, `FilterPrinter.dfy`, `FilterCompile.dfy`, `FilterRoundTrip.dfy`, `FilterPairs.dfy`, `FilterParentheses.dfy` | the display-filter language |
| `Sessions.dfy` | saved sessions |
| `LibraryContracts.dfy` | libraries that meet the contracts the round trips assume |
| `ScreenModel.dfy`, `Tui.dfy`, `ScreenHistory.dfy`, `Viewport.dfy` | retained history, filtered index, recorder, viewport |

Abstractions that hold throughout: a slice is a sequence; `u64` and `usize`
counters are unbounded; 32-bit sequence numbers wrap exactly as in the source. A
Rust `Result` or `Option` is a datatype. The message decoder of the `pgwire`
crate is not visible in the repository and is replaced by message framing as the
PostgreSQL protocol documentation describes it (a type byte, a length that counts
itself, a body). Regular expressions, IP address text, RFC 3339 text, socket
address text and JSON text are library parameters; where a round trip needs one,
its print/parse contract is a stated hypothesis over values of the source's own
widths (4 or 16 octets, 16-bit ports and format codes, 32-bit OIDs and versions).
`LibraryContracts.FaithfulCanBeMet` and `SoundCanBeMet` give libraries that meet them.

## What turned out not to hold

Each of these is a lemma that shows the failure, next to the exact condition
under which the code does what its comments say.

- 802.1Q tags are not skipped (src/net.rs:54-58 says they are). The loop reads the
  next type from the two bytes after 0x8100, which hold the tag's control value,
  not the type. `FrameEncoding.OneTagIsDropped`: a frame with one tag, from VLAN 10
  say, is dropped. `FrameEncoding.TaggedFramesReadWhen`: a tagged frame gets through
  if and only if its control values happen to spell the types the loop looks for.
- A retransmitted SYN is not de-duplicated (src/flow.rs:84-86).
  `ReassemblySafety.LateSynRewinds`: a repeated SYN keeps the position if and only
  if nothing was delivered yet; `LateSynRedelivers`: otherwise data is delivered twice.
- Data on a SYN loses its first byte: `ReassemblySafety.SynPayloadLosesFirstByte`.
- Overlapping segments buffered ahead can stall delivery for good.
  `ReassemblyOverlaps.CompleteExactlyWhen` is the exact condition on the set of
  slices that is sent. Call a point reachable if it is 0 or the end of a slice that
  starts at or before a reachable point and ends after it. Every capture of the set,
  in any order and with any duplication, delivers all it can if and only if no slice
  `b` begins inside a slice `a`, past the first byte of the stream, and ends after
  it, while some reachable point lies in `a` before `b`, or both begin at one.
  `CrossingStalls` builds the capture that stalls for any two slices that do.
  `CompleteExactlyWhenUncrossed` is the case where the bytes before the slices may
  come in one piece from any start: then no two slices may cross at all.
  `ReassemblySafety.StraddlingSliceStalls` and `ShrunkSliceStalls` are two inputs.
- If both endpoints use the watched port, the two directions never meet:
  `FlowDemux.BothDirectionsShareAKey`.
- `record_messages` is said to update the totals and the connection's counters
  atomically (src/state.rs:195-198); each of its four additions is atomic, and other
  threads see the states in between. `RecordSteps.TotalsLeadConnections`: there the
  totals are ahead of the connections by exactly what is in flight.
- The samples of `sample_rates` add up to what was counted only with one caller.
  The program starts one (src/tui.rs:208); the function is public, and with a second
  caller `RateSamples.TwoSamplersCanOvercount` overcounts. `CommitTelescopes` gives
  the exact condition.

## Model

| member | source | states |
|---|---|---|
| Frames.StripLink | src/net.rs:46-89 | the link and tag loop computes the layered stripping function, for every link type and any bytes |
| Frames.ParseIpv6 | src/net.rs:124-150 | the extension-header loop computes the recursive header walk, in bounds on any bytes |
| Frames.ParseFrame | src/net.rs:41-44 | link stripping followed by IP parsing, on any bytes and any link type |
| FrameEncoding.ParseInvertsEncoding | src/net.rs:41-207 | parsing any laid-out frame returns its addresses, ports, numbers, flags and payload, whatever the options, extension chain, padding or truncation; 0x8100 types are laid out as the parser reads them, standard tags are the rows below |
| FrameEncoding.AcceptedIsEncoded | src/net.rs:41-207 | every accepted frame is the layout of what was read from it |
| FrameEncoding.ParserAcceptsExactlyTheEncodings | src/net.rs:41-207 | a frame yields a segment if and only if it is an encoding of that segment |
| FrameEncoding.PayloadIsASlice | src/net.rs:177-206 | on arbitrary bytes the payload is a slice of the frame |
| FrameEncoding.ChainReadsBack | src/net.rs:133-149 | walking any IPv6 extension chain (section 4 of RFC 8200, section 2.2 of RFC 4302) arrives exactly at the TCP layer |
| FrameEncoding.ChainAccepted | src/net.rs:133-149 | whatever the walk gets through is such a chain |
| FrameEncoding.TaggedFramesReadWhen | src/net.rs:52-62 | a standard 802.1Q frame yields its packet if and only if it is untagged or its control values spell the expected types |
| FrameEncoding.OneTagIsDropped | src/net.rs:54-62 | an ordinary single-tagged frame is dropped |
| SequenceSpace.DistanceExact | src/flow.rs:103-104 | the signed wrapping distance is the true distance if and only if that lies in the half-open half circle |
| Directions.Direction.Feed | src/flow.rs:87-134 | the in-place feed equals the reassembly function on state and appended bytes |
| Directions.Direction.DrainAhead | src/flow.rs:127-133 | the drain loop removes and appends exactly the segments that follow on |
| Directions.Direction.constructor | src/flow.rs:58-73 | a direction starts unanchored, empty and in the decode mode of its role |
| Directions.Direction.ForDecoding | src/flow.rs:75-82 | a direction for plaintext starts past negotiation |
| Reassembly.FeedRefines | src/flow.rs:87-134 | within half a turn, the wrapping code takes the step of a reassembler over unbounded offsets |
| Reassembly.DrainRefines | src/flow.rs:127-133 | so does the drain loop |
| Reassembly.AckIsNeutral | src/flow.rs:92-94 | a bare acknowledgement changes nothing at any sequence number |
| ReassemblySafety.DeliversOnlyTheStream | src/flow.rs:87-134 | any overlaps, order and duplication of true slices: what is delivered is one contiguous part of the stream from the anchor, the next number counts it, and everything buffered is stream data |
| ReassemblyOverlaps.CompleteExactlyWhen | src/flow.rs:87-134 | the exact condition on a set of slices: every capture of it, in any order and duplication, delivers every byte received in front if and only if no reachable point lies in one of two crossing slices before the other, or at their common start |
| ReassemblyOverlaps.CrossingStalls | src/flow.rs:105-133 | for any two slices and reachable point that break that condition, a capture of the set that stops at the end of the first with the next byte received |
| ReassemblyOverlaps.ReachIsLeast | src/flow.rs:127-133 | any set that holds 0 and the end of every slice that continues from one of its points holds all reachable points |
| ReassemblyOverlaps.UncrossedIsComplete | src/flow.rs:87-134 | so slices of which no two cross are delivered completely by every capture of them |
| ReassemblyOverlaps.CrossingMayBeComplete | src/flow.rs:87-134 | crossing alone is not what stalls: a set with two crossing slices that every capture completes |
| ReassemblyOverlaps.CompleteExactlyWhenUncrossed | src/flow.rs:87-134 | with the bytes before the slices in one more slice, and from every such start, every capture completes if and only if no two slices cross |
| ReassemblySafety.CompleteUnlessStraddled | src/flow.rs:103-133 | where a stall shows in the state: without a shrinking overwrite, a received byte waits undelivered if and only if a buffered segment straddles the delivery point |
| ReassemblySafety.StraddlingSliceStalls | src/flow.rs:105-108 | an overlap that leaves a received byte undelivered |
| ReassemblySafety.ShrunkSliceStalls | src/flow.rs:105-108 | a shorter retransmission that destroys a buffered byte |
| ReassemblySafety.LateSynRewinds | src/flow.rs:88-91 | a SYN keeps the position if and only if nothing was delivered |
| ReassemblySafety.LateSynRedelivers | src/flow.rs:88-91 | after a late SYN the first data is delivered again |
| ReassemblySafety.SynPayloadLosesFirstByte | src/flow.rs:88-133 | from any state data on a SYN is appended without its first byte; with nothing buffered it is delivered whole if and only if there is none |
| ReassemblyCompleteness.BlockStep | src/flow.rs:87-134 | one block, new or repeated, moves the state of a received set to the state of the set with it |
| ReassemblyCompleteness.DeliversTheReceivedFront | src/flow.rs:87-134 | for a stream of any length in fixed blocks, any order and duplication: delivered is the longest contiguous run received, buffered is exactly the blocks beyond it |
| ReassemblyCompleteness.EverythingArrives | src/flow.rs:87-134 | once every block arrived the whole stream is delivered and nothing is buffered, across wraparound |
| ReassemblyCompleteness.OrderDoesNotMatter | src/flow.rs:87-134 | schedules that received the same blocks leave the same state |
| ReassemblyCompleteness.ShortStreamsStayInWindow | src/flow.rs:103-104 | a stream under half the sequence space meets the window hypothesis under every schedule |
| Directions.DrainDirection | src/decode.rs:319-356 | the drain loop terminates and equals the drain function on state, output and outcome |
| Directions.HandleFrontend | src/decode.rs:385-459 | a client message's effect on mode, requests, counters and whether draining goes on |
| Directions.HandleBackend | src/decode.rs:463-584 | a server message's effect, including the cached row description and negotiation answers |
| Directions.DecodeError | src/decode.rs:358-369 | an out-of-sync buffer is reported and dropped, the rest of the direction kept |
| Decode.DrainConserves | src/decode.rs:319-369 | bytes counted, buffered and reported lost add up to the buffer drained, and counted messages are the messages emitted |
| Decode.DrainSplit | src/decode.rs:319-356 | a cleanly decodable buffer drained in two pieces gives the same state, output and counts |
| Decode.ChunksDrainAsOne | src/decode.rs:319-356 | so does any chunking |
| Rows.DataRowColumns | src/decode.rs:814-847 | the column loop equals the column function for every field count, negative ones too |
| Rows.RowSplit | src/decode.rs:793-847 | for any encoded row, any cut and any field count: the whole fields before the cut, in order and labelled, then one truncation mark |
| Rows.WholeRow | src/decode.rs:814-847 | an uncut row has as many whole fields as it was encoded from |
| Rows.PreviewShows | src/decode.rs:902-913 | two previews are equal if and only if the values have the same length and the same first 48 bytes |
| Flow.Connection.Handle | src/flow.rs:162-210 | one segment through a connection and its metrics equals the connection function |
| Flow.Connection.Exchange | src/flow.rs:168-190 | feeding, draining and arming the server side for the awaited answer |
| Flow.Connection.Count | src/flow.rs:191-209 | the encrypted mark and the counters |
| Flow.ConnTable.Handle | src/flow.rs:241-300 | one segment through the table equals the table function: state, metrics and printed records |
| Flow.ConnTable.Open | src/flow.rs:257-278 | a fresh connection enters under its key with the next id, and the metrics open it |
| Flow.ConnTable.Pass | src/flow.rs:280-292 | a segment goes through its own connection and its metrics, all others untouched |
| Flow.ConnTable.Finish | src/flow.rs:280-299 | RST removes the entry, the first FIN closes its metrics and keeps it |
| FlowLifecycle.LifecycleAgrees | src/flow.rs:253-300 | after any run of segments, entries not marked closed are exactly the connections open in the metrics, and the live count counts them |
| FlowLifecycle.OpenedIsLivePlusClosed | src/state.rs:226-247 | opened is live plus closed, each closed once, and entries never exceed live plus the cap |
| FlowDemux.SegmentIsLocal | src/flow.rs:241-300 | a segment steps its own key's entry and leaves all others alone |
| FlowDemux.Demultiplexes | src/flow.rs:241-300 | for any interleaving, state, counts and printed lines of one key are those of running only that key's segments |
| FlowDemux.BothDirectionsShareAKey | src/flow.rs:242-251 | both directions reach the same key if and only if the endpoints are equal or do not both use the watched port |
| FlowNegotiation.NegotiationSafe | src/flow.rs:162-194 | from any opening, over any segments: at most one request is recognised, one answer awaited, and encrypted means a matching accept followed the request |
| FlowNegotiation.SilentOnceEncrypted | src/flow.rs:163-166 | after the segment that sets encrypted, no later segment changes the connection or emits anything |
| FlowTable.TableHoldsOneLife | src/flow.rs:241-300 | a key's connection, counters and printed output in the table are those of one connection fed the key's segments since it was opened |
| FlowTable.TableNegotiationSafe | src/flow.rs:162-194 | in every reachable table an entry is encrypted exactly when an accept was printed for it since its opening, after the printed request it answers |
| FlowTable.EncryptedStaysSilent | src/flow.rs:163-166 | until its key is opened again, FIN and RST included and whatever else is captured, an encrypted connection keeps buffers and counters and prints nothing decoded |
| FlowTable.EncryptedSegmentIsInert | src/flow.rs:163-166 | one segment of any connection, FIN and RST included: an encrypted entry it does not open again keeps its traffic and decodes nothing |
| FlowConservation.BytesAndMessagesConserved | src/decode.rs:319-369 | per direction over any run: counted, buffered and lost bytes equal delivered bytes, and counted messages equal emitted messages |
| FlowConservation.EntryIsOneLife | src/flow.rs:253-300 | what is held and counted for a key is the life of one connection from its opening segment |
| FlowConservation.TotalsCountPrintedMessages | src/state.rs:199-220 | aggregate counters count all printed messages and sum over every connection ever opened, evicted ones included |
| FlowEndToEnd.DecodesAsTwoDrains | src/flow.rs:162-210 | from any point where nothing is pending, segment-by-segment decoding of a clean connection equals one drain per direction |
| FlowEndToEnd.ScheduleDoesNotMatter | src/flow.rs:162-210 | for clean block-aligned captures, records, counts and decode state are those of one drain of the blocks that arrived without a gap |
| FlowEndToEnd.CompleteCapturesAgree | src/flow.rs:162-210 | two complete captures of the same streams, however scheduled, decode and count the same |
| FlowRefused.OpeningExchanges | src/flow.rs:162-210 | while a request and its refusal arrive, in whatever pieces and copies, decoders, output and counters are fixed by how much of each was delivered |
| FlowRefused.UsualOpeningIsRefused | src/flow.rs:162-210 | both SYNs, the request and the one-byte refusal are such an exchange, at any sequence numbers |
| FlowRefused.RefusedThenTwoDrains | src/flow.rs:162-210 | after a refused SSL or GSS request: the request, the refusal, then one cleartext drain per direction, and the counts add up |
| FlowRefused.RefusedScheduleDoesNotMatter | src/flow.rs:162-210 | and then too, whatever the schedule, it is one drain per direction of the blocks that arrived without a gap |
| FlowTable.KeyRefusedScheduleDoesNotMatter | src/flow.rs:241-300 | the same for a key of the table, under any interleaving with other connections |
| FlowTable.KeyScheduleDoesNotMatter | src/flow.rs:241-300 | so for a key of the table, under any interleaving with other connections: printed output, counters and decode state are one drain of what arrived without a gap |
| FlowTable.CompleteKeysAgree | src/flow.rs:241-300 | two tables, whatever their caps, that captured a key's streams completely printed and counted the same for it |
| Metrics.MetricsStore.constructor | src/state.rs:147-167 | an empty store with its caps |
| Metrics.MetricsStore.OpenConnection | src/state.rs:169-193 | the next id, one more opened and live, registered |
| Metrics.MetricsStore.RecordMessages | src/state.rs:199-220 | the connection's counters and the totals move together |
| Metrics.MetricsStore.SetEncrypted | src/state.rs:222-224 | one connection's flag |
| Metrics.MetricsStore.CloseConnection | src/state.rs:226-247 | closing once, queueing, evicting oldest closed entries down to the cap |
| Metrics.MetricsStore.EvictOldest | src/state.rs:240-246 | the eviction loop |
| Metrics.MetricsStore.SampleRates | src/state.rs:251-268 | saturating differences, kept in a bounded history |
| Metrics.MetricsStore.Summary | src/state.rs:303-315 | the aggregates, equal to the sums over every connection ever opened, and the rate history |
| Metrics.MetricsStore.Snapshot | src/state.rs:317-347 | the summary with exactly the registry's entries and their stats, in id order |
| MetricsModel.OpenKeepsConsistent | src/state.rs:169-193 | opening keeps every registry invariant |
| MetricsModel.RecordKeepsConsistent | src/state.rs:199-220 | recording keeps totals equal to the sum over all connections |
| MetricsModel.SetEncryptedKeepsConsistent | src/state.rs:222-224 | marking keeps every registry invariant |
| MetricsModel.CloseKeepsConsistent | src/state.rs:226-247 | closing keeps every registry invariant, the second close being a no-op |
| MetricsModel.CloseKeepsTheNewest | src/state.rs:239-246 | a closed entry is dropped only when the registry is otherwise still full |
| RegistrySteps.AlwaysSafe | src/state.rs:169-247 | the registry invariants hold in every state of every interleaving of lock-level steps |
| RegistrySteps.OpenIsNeverEvicted | src/state.rs:240-246 | a registered connection that reads open stays registered, under any interleaving |
| RegistrySteps.LiveCountUpToInFlight | src/state.rs:181-238 | the live count is what reads open, corrected by the steps in flight, and never underflows |
| RegistrySteps.ClosedQueueIsTheNewest | src/state.rs:239-246 | each id is queued at most once and the queue holds the newest, in order, within the cap |
| RegistrySteps.QuiescentRegistry | src/state.rs:169-247 | with nothing in flight: entries are the open and the queued, opened is live plus closed, entries at most live plus cap |
| RegistrySteps.OpenIsItsSteps | src/state.rs:169-193 | an open call is its steps run back to back |
| RegistrySteps.CloseIsItsSteps | src/state.rs:226-247 | so is a close call |
| RecordSteps.TotalsLeadConnections | src/state.rs:199-220 | in every interleaving of the four additions of any calls: totals are the sum over all connections plus what is in flight, so at least that sum, and equal when nothing is |
| RecordSteps.RecordIsItsSteps | src/state.rs:199-220 | a call that is not interrupted is its four additions in a row |
| RateSamples.SamplesSumToTotals | src/state.rs:251-268 | with one sampler and any recorders, each counter's samples sum to its last reading and the newest samples are kept |
| RateSamples.CommitTelescopes | src/state.rs:251-259 | a commit keeps that sum if and only if no counter was read below its previous reading |
| RateSamples.TwoSamplersCanOvercount | src/state.rs:251-259 | a second caller of `sample_rates` can break it |
| FilterLexer.LexString | src/filter.rs:384-417 | the literal loop equals the recursive reading, errors and positions included |
| FilterLexer.Lex | src/filter.rs:247-382 | the token loop equals the recursive lexer, errors and positions included |
| FilterParser.Parser.Parse | src/filter.rs:429-435 | the cursor-moving parser equals the parsing function |
| FilterParser.Parser.OrLevel | src/filter.rs:437-443 | the loop over or-operands: result, error and cursor |
| FilterParser.Parser.AndLevel | src/filter.rs:445-451 | the loop over and-operands: result, error and cursor |
| FilterParser.Parser.NotLevel | src/filter.rs:453-458 | negations, nested to any depth |
| FilterParser.Parser.Primary | src/filter.rs:460-467 | a parenthesised expression or a predicate |
| FilterParser.Parser.Predicate | src/filter.rs:469-516 | a field, an operator valid for it and typed operands |
| FilterParser.Parser.Set | src/filter.rs:518-542 | the loop over set members |
| FilterParser.Parser.Value | src/filter.rs:544-590 | one operand, typed by its field |
| FilterGrammar.ParserComplete | src/filter.rs:429-542 | every token list with a derivation parses to the tree it derives |
| FilterGrammar.ParserSound | src/filter.rs:429-542 | every accepted token list has a derivation of the tree returned |
| FilterGrammar.ParserExact | src/filter.rs:429-542 | accepted if and only if derivable, and all derivations give the one tree: not above and above or, left-associative |
| FilterPrinter.FlattenKeepsMeaning | src/filter.rs:54-63 | verdicts do not depend on how operators associate |
| FilterPrinter.SameVerdict | src/filter.rs:54-63 | trees equal up to associativity give the same verdict on every message |
| FilterCompile.ParseFilter | src/filter.rs:184-196 | trimming, lexing and parsing compose to the compile function |
| FilterRoundTrip.LiteralInvertsEscape | src/filter.rs:384-417 | reading a literal undoes escaping for every string |
| FilterRoundTrip.RawLiteralReadsAsIs | src/filter.rs:384-417 | a raw literal is read as it stands |
| FilterRoundTrip.TextLexesBack | src/filter.rs:247-382 | the text of any spellable token list lexes back to it |
| FilterRoundTrip.PrintCompilesBack | src/filter.rs:184-598 | every well-typed expression, printed and compiled, gives the same tree up to associativity and the same verdicts |
| FilterPairs.ParenthesesPairUp | src/filter.rs:437-467 | every parenthesis of a derivable token list has a partner with balanced tokens between them |
| FilterPairs.PairsAreMatching | src/filter.rs:437-467 | two positions are a pair of the derivation if and only if their tokens match |
| FilterParentheses.EveryPairIsNeeded | src/filter.rs:437-467 | leaving out any two printed parentheses that match gives tokens that parse to an expression different beyond associativity |
| Sessions.ReadTail | src/session.rs:154-222 | a session is read if and only if every line is; the newest `cap` records and the count of the others; on failure the first bad line's error and nothing else |
| Sessions.OutputReadsBack | src/session.rs:232-299 | a stored record reads back exactly when its time is valid, and then as the output it was made from |
| Sessions.RecordingReadsBack | src/session.rs:113-222 | reading a recording returns every output in order |
| Tui.App.constructor | src/tui.rs:274-310 | the initial screen, already valid: index exact, history bounded |
| Tui.App.PushOutput | src/tui.rs:316-333 | recorded first, then retained, indexed and chunk-trimmed; validity is kept and dropped plus retained grows by one |
| Tui.App.TrimHistory | src/tui.rs:335-343 | what stays is the newest 50,000, and dropped plus retained is unchanged |
| Tui.App.RebuildVisible | src/tui.rs:345-353 | the loop leaves the one increasing list of the events the filter shows |
| Tui.App.UpdateFilter | src/tui.rs:355-370 | a valid edit reindexes, an invalid one changes nothing shown |
| Tui.App.StartRecording | src/tui.rs:400-426 | a save leaves a recording of exactly the retained events, or fails and changes nothing |
| Tui.App.OpenSession | src/tui.rs:428-459 | an open replaces history, mode, metrics and rate peaks by the session's newest 50,000 records, the rest counted, and a fresh count, or fails and changes nothing |
| Tui.App.ClearFilter | src/tui.rs:372-377 | every retained event is shown |
| Tui.App.ExecuteCommand | src/tui.rs:379-398 | command dispatch, validity kept |
| Tui.App.HandleKey | src/tui.rs:554-645 | every key in every mode keeps the screen valid, and only the clear key and an open touch the retained events |
| Tui.App.TrackPeaks | src/tui.rs:505-517 | each peak becomes the highest of itself and the rates in the history |
| Tui.App.Turn | src/tui.rs:471-517 | one turn of the loop up to drawing ends valid, clamped, with at most 50,000 events, every arrival retained or counted and no rate above its peak |
| ScreenHistory.IndexIsExact | src/tui.rs:345-353 | the index is the one increasing list of the matching events |
| ScreenHistory.IndexAgreesWithHistory | src/tui.rs:316-377 | over any run of arrivals, keys, edits, clears and opens the index is exactly the matching events and the buffer stays bounded |
| ScreenHistory.BufferFollowsTheLog | src/tui.rs:325-343 | the buffer is a suffix of everything offered since the last clear or open, and dropped plus retained equals offered |
| ScreenHistory.BufferIsABoundedQueue | src/tui.rs:335-343 | at every drawing the chunk-trimmed buffer equals a queue that holds 50,000 |
| ScreenHistory.RecorderSeesEverything | src/tui.rs:316-324 | over any run without a save or an open, a recording holds every record that arrived, whatever is filtered, dropped or cleared |
| ScreenHistory.RecordThenReplay | src/tui.rs:400-459 | saving, capturing on and opening the file gives the newest 50,000 of everything retained and since, with the rest counted |
| ScreenHistory.TypingFilters | src/tui.rs:588-608 | typing a filter ends with the filter of the whole text, whatever its beginnings did |
| ScreenHistory.TypingAnExpressionShowsItsEvents | src/tui.rs:355-370 | typing a printed expression shows exactly the retained events it accepts |
| Viewport.ViewWindow | src/tui.rs:1002-1045 | following and anchored: the window fits, or is one event, and one more event would not fit |
| Viewport.WindowIsLargest | src/tui.rs:996-1001 | another window anchored the same way fits if and only if it lies inside |
| Viewport.HeightIsLinesDrawn | src/tui.rs:1051-1079 | without wrapping, counted height equals lines drawn |
| Viewport.PlainSliceIsTheWindow | src/tui.rs:866-869 | the fixed slice of the plain view is the row-counted window |
| Viewport.TickClamps | src/tui.rs:484-504 | after a turn the scroll is clamped, and at its end when following |
| Viewport.DrawnWindow | src/tui.rs:856-873 | what is drawn after a turn is in bounds and maximal in every mode |

## Left out

- Packet capture, device lookup, the command line, process wiring, the output channel, the proxy and its TLS: plumbing over libraries.
- The `pgwire` message decoder: replaced by message framing. In it an unexpected negotiation byte decodes to an unknown answer, and message bodies are read only where a later step depends on them.
- The one-line text and the kind of decoded messages, their wall-clock times, and the connection's `since` and `ended` instants.
- Regular-expression matching, IP address text, RFC 3339 text, socket address text and JSON text: parameters, with contracts where a round trip needs them.
- Error message texts of the filter: modelled as kinds. Filter positions count characters where the source counts bytes of UTF-8.
- Overflow of `u64` and `usize` counters.
- The most negative sequence distance follows the release build, where negation wraps; a debug build stops there.
- PgWire.FrontendIsStable: about the framing that stands in for the external decoder, so it states nothing of the source; likewise BackendIsStable.
- Late SYNs and SYN payloads are excluded from the reassembly theorems by hypothesis, since the lemmas listed above show the theorems false with them.
- Metrics.MetricsStore.OpenConnection: as a method it runs without interleaving; RegistrySteps.OpenIsItsSteps ties it to the interleaved steps.
- Metrics.MetricsStore.CloseConnection: as a method it runs without interleaving; RegistrySteps.CloseIsItsSteps ties it to the interleaved steps.
- Directions.DrainDirection: the two loops over client and server messages are one loop whose turn is a method of its own.
- Sessions.ReadTail: the consumer closure is written into the loop; a file is the sequence of its lines, so partial writes are not modelled.
- The recorder is a path and the lines written to it, not a file handle; a failed write stops it.
- Command and status messages of the interface: only whether they report an error.
- Splash drawing, colours, widgets and the library's wrapped line count, which is a parameter and taken as at least one row.
