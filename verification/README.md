# icesmtp in Dafny

A model of the icesmtp session engine and of the codecs at its edges, with proofs. icesmtp serves one
SMTP session over one connection: it reads command lines, gates them on a protocol state, hands them to
handlers that build an envelope, streams a message into it and stores it.

## How it is laid out

| file | what it holds |
|---|---|
| `Text`, `Conn` | strings of octets; a connection as a stream that can fail, behind a buffer that reads ahead |
| `Protocol`, `StateMachine` | the tables of states and verbs; the machine and its observer |
| `Parser`, `CommandLines`, `Reply`, `Phrases`, `Decimal` | command lines, mail paths, parameters, host names; replies; integers as text |
| `DataCodec`, `Harness` | the DATA phase and dot transparency; the client's encoder and reply reader |
| `EnvelopeBuilder`, `BuilderTraces`, `Storage` | envelopes as values and as objects that share memory with their builder; what a builder holds after any calls; the store |
| `Session` | the whole session as a function: one `Step` is one turn of the main loop, `Run` is n turns |
| `Engine` | the engine as it is written, a class over a heap, each method proved to do what `Session` says |
| `SessionStates` | the reachable states |
| `SessionAnswers`, `SessionConsent` | what every command is answered, and exactly when; who has admitted each sender, recipient and upgrade |
| `SessionRecord` | what a turn of the loop records: the lines it read, and what they parse to |
| `SessionLog`, `SessionEffects` | what an observer can read off the log of a session, and the abstract transaction system that every turn of the loop implements |
| `SessionHistory`, `SessionMessages`, `SessionInput`, `SessionIdentifiers` | refinement: what is stored is what the log says; the log is the input; with fresh identifiers no message hides another |
| `SessionSafety`, `SessionFailure`, `SessionOutput`, `SessionTermination` | limits and TLS; failed DATA phases and errors; what a client reads; when a session ends |
| `SessionWitness` | concrete runs: a message delivered over TLS, an aborted session, and one in which the two copies of the state part |

Everything the engine does not decide itself (command hook, sender policy, mailbox, storage, envelope
identifiers, TLS handshake, the fate of writes) is an `Oracle`, one for each turn of the loop. A
statement about all `w: nat -> Oracle` is a statement about all runs. Input is a `Stream`: segments of
octets, each followed by a read error, the last error being permanent. Octets are characters; case
folding and white space are the ASCII ones.

Four assumptions appear as preconditions. `HonestWorld`: a policy or mailbox that rejects does so with a
negative reply. `PlainWorld` (only for what the client reads): moreover its replies have three-digit codes
and no LF, no identifier contains an LF, and every write gets through. For what the client reads the
configured host name of the server contains no LF either. `FreshIds` (only for the table of the store): no
envelope identifier is given out twice.

## Main results

- **Refinement.** In every run with a storage the messages stored are, in order, exactly those whose DATA
  was answered 250. Message k has the sender of the latest accepted MAIL, precisely the recipients
  accepted since, and the lines of its DATA phase up to the first terminator, without their stuffing
  (`MessagesAreTransactions`). The log in which this is read is the input itself: the lines recorded
  followed by the complete lines still unread are, line by line, the complete lines of the stream, whatever
  read errors come between, and only unfinished lines are lost (`RunReadsSource`, `RunFromInput`); and each
  command recorded is what its line parses to (`RunRecords`).
- **Every answer has its exact condition.** Each reply code of each command is given if and only if a
  condition on configuration, state and oracles holds (`SessionAnswers`), for DATA a condition on the lines
  received and the limits (`DataAnswer`). Whatever was replied, every sender and recipient of a stored message
  goes back to a turn in which policy and mailbox admitted it (`StoredByConsent`).
- **Command lines.** Every verb in any letter case, with any path and parameters, is read back from its
  printed line, and nothing else parses (`ParseCommandIff`, `MailLineRoundTrip`).
- **The two copies of the state do not always agree.** `Reset` in `Data` attempts an edge that the table
  does not have. `CopiesDisagree` is an input on which the copies part; `CopiesAgreeIff` says for all runs
  that they agree if and only if no DATA phase has failed; `FailureIsForever` says what follows: whatever
  the client sends, every line that parses and passes the hook is answered 503.
- **Stored messages never change**, although the store, the envelope and the builder share arrays. From any
  state on, every envelope in the table keeps its recipients and octets to the end of the session, and is
  still found where it was unless an identifier comes twice (`Engine.Loop`); with fresh identifiers the
  table at the end holds every message that was answered 250 and nothing else (`Engine.Serve`).
  `ReuseOverwritesEnvelope` shows what reusing a builder would do.
- **Nothing read before an upgrade is used after it.** On the heap the buffer is dropped with the old
  stream (`Engine.Secure`); `UpgradeForgetsInput` draws the consequence for every continuation.
- **A session does not always end.** After a permanent read error that is neither like end of file nor a
  timeout (a fatal TLS record error, say, which every later read repeats) the loop spins. `NeverEndsIff` says for all runs that a session runs
  forever if and only if it comes to that; `RunEnds` that it ends on all other streams.
- **Transparency.** A message comes through the DATA phase unchanged, and exactly the octets after the
  terminator are left, if and only if its stuffed lines and its size fit the limits (`DotTransparency`).
- **What a client reads** from a run is the greeting and then exactly the replies, framed
  (`ClientReadsReplies`), one final reply for each command line and one 354 for each DATA phase
  (`RunBalanced`).

Where the code and its documentation disagree, the model follows the code. `docs/protocol.md:113-115` says
that a DATA error leads to Aborted; the code leaves the machine in Data. The comment at `parser.go:273`
says that an address has exactly one at-sign; the code takes the last of any number.

## Model

| member | source | states |
|---|---|---|
| SessionMessages.MessagesAreTransactions | engine.go:343-564 | in every run with a storage as many messages are stored as DATA exchanges were answered 250, and message k is the k-th of these, with the sender of the latest accepted MAIL, precisely the recipients accepted since it in order, no reset, HELO, upgrade or other DATA between, and as data the single lines before the first and only terminator, unstuffed; the lines of the log are those of the input one by one, and each command is what its line parses to |
| SessionMessages.DeliveredExplained | engine.go:783-788 | each message a log delivers is explained by its MAIL, its recipients, and the single lines of its DATA up to the first terminator |
| SessionMessages.DeliveredCount | engine.go:545-547 | the messages a log delivers are as many as its DATA commands answered 250 |
| SessionHistory.RunKeeps | engine.go:148-186 | every run keeps: reachable state; client name, TLS, error count, octets read and commands taken as the log says; open builder as the log says; store and counters equal to what the log delivers |
| SessionHistory.AdvanceTracked | engine.go:393-442 | the open builder always holds the latest accepted MAIL and exactly the recipients accepted since |
| SessionHistory.DeliversMessageAt | engine.go:519-552 | an accepted DATA adds exactly the message that the log describes, and counts it once |
| SessionInput.LogIsInput | engine.go:200-218 | from any state until an upgrade, for all streams, line by line: the command and message lines recorded, followed by the complete lines still unread, are exactly the complete lines that were unread; of each segment only an unfinished last line is lost |
| SessionInput.RunReadsSource | engine.go:148-186 | the same for whole runs, upgrades included: the lines recorded since the last upgrade and those still unread are the lines of the stream of that upgrade, nothing skipped, merged or taken from before it |
| SessionInput.RunFromInput | engine.go:148-186 | the same at every moment of a run, for the part of the final log recorded until then |
| SessionRecord.RunRecords | engine.go:200-218 | in every run each exchange records one single line, with the command that it parses to or as unparseable exactly if it does not parse, and single message lines |
| CommandLines.VerbIff | command.go:62-73 | a word is taken for a verb exactly if, apart from letter case and white space around it, it is the name of that verb, for all thirteen |
| CommandLines.ParseCommandIff | parser.go:80-152 | exactly which lines parse: length within the limit, first word a verb, argument as the verb demands; and what they parse to |
| CommandLines.CommandLineRoundTrip | parser.go:80-152 | a command printed with its verb in any letter case and any argument is read back, or refused exactly if it is too long or the argument is not admitted |
| CommandLines.MailLineRoundTrip | parser.go:80-182 | MAIL and RCPT printed with any path and any well-formed parameters: verb, path and parameter map are read back |
| SessionAnswers.LengthLimit | engine.go:102-105 | the limit is 512 octets unless one is configured |
| SessionInput.PhaseTakes | engine.go:584-600 | however a DATA phase ends, the lines it took and the complete lines it left are exactly those it found |
| SessionEffects.StepAdvances | engine.go:148-186 | every turn of the loop is quiet or one step of the abstract transaction system |
| SessionEffects.HandleHasEffect | engine.go:256-283 | every handler has the effect that the abstract system gives to the reply it returns |
| SessionStates.ReachableStates | engine.go:148-186 | between turns: both copies equal with a builder exactly in MailFrom (no recipient) and RcptTo (some), or machine in Data with the copy in Identified and no builder, or a terminal state; never a crash on a missing builder |
| SessionStates.DataOutcome | engine.go:454-564 | opening the writer and finalizing never fail; a lost 354 aborts, a failed phase or storage leaves the machine in Data, otherwise 250 and Identified |
| SessionAnswers.DataAnswer | engine.go:488-508 | over the lines received and the limits: 250 at the terminator, 451 there if the storage refuses, 500 at the first line that is too long, 552 at the first that makes the message too large |
| SessionAnswers.DataRunsOut | engine.go:499-502 | a message that no line ends is answered 451, with a text of its own for a timeout |
| SessionAnswers.LongMessageAnswer | engine.go:494-497 | a stuffed message that breaks a limit is answered by the first line that does: 500 for its own length, 552 for the total |
| SessionAnswers.MailAnswer | engine.go:343-414 | MAIL: 530, 421, 501, 552 or the sender policy's own reply with nothing changed, in that order; otherwise 250 and a new builder with sender and parameters |
| SessionAnswers.MailAcceptedIff | engine.go:343-414 | MAIL is answered 250 if and only if TLS, transactions, path, declared size and sender policy all admit it |
| SessionAnswers.RcptAnswer | engine.go:416-452 | RCPT: 501, 452 or the mailbox's own reply with nothing changed; otherwise 250 and one more recipient |
| SessionAnswers.RcptAcceptedIff | engine.go:416-452 | RCPT is answered 250 if and only if the path parses, there is room and the mailbox takes it |
| SessionAnswers.StartTLSAnswer | engine.go:680-698 | STARTTLS: 502, 503 and 454 in that order; otherwise 220 and StartTLS |
| SessionAnswers.HeloAnswer | engine.go:285-341 | HELO and EHLO: 250 and the trimmed argument as client name if it is a host name or bracketed, otherwise 501 |
| SessionAnswers.EhloOffers | engine.go:310-338 | EHLO announces each extension exactly if it is configured, STARTTLS only while it can be used, SIZE with the limit in force |
| SessionAnswers.OtherAnswers | engine.go:626-678 | RSET, NOOP, QUIT, VRFY, HELP, EXPN and AUTH: code and effect |
| SessionAnswers.UnparsedTurn | engine.go:208-218 | a line that does not parse: 421 and Aborted when it reaches the limit, 500 otherwise |
| SessionAnswers.RefusedTurn | engine.go:220-237 | the hook refuses with 554, the order of commands with 503, and nothing else changes |
| SessionAnswers.HandledTurn | engine.go:239-252 | every other line is answered by its handler; the error count is cleared exactly by a final reply from 200 to 399 that got through |
| SessionAnswers.OtherTurns | engine.go:148-186 | how terminal states, failed reads and failed handshakes end the session |
| SessionAnswers.CommandOrder | command.go:174-201 | the order of commands read off the builder: RCPT needs an open transaction, DATA one with a recipient, HELO none |
| SessionAnswers.ErrorsFallBySuccess | engine.go:246-250 | a final reply of 400 or more never lowers the error count |
| SessionConsent.StoredByConsent | engine.go:371-442 | in every run, whatever was replied, each sender of a stored message was admitted by hook and sender policy in some turn, and each recipient by hook and mailbox |
| SessionConsent.NeverUpgrades | engine.go:680-698 | with TLS disabled or no provider there is no upgrade in any run |
| SessionStates.HandleKeepsShape | engine.go:256-283 | no handler leaves the reachable states or uses a builder that is not there |
| SessionStates.RunKeepsChain | statemachine.go:52-70 | in every run the notifications of the machine form a chain of legal edges from Disconnected to its state |
| SessionFailure.CopiesAgreeIff | engine.go:504-507 | in a greeted, not terminal session the two copies of the state agree if and only if no DATA phase has failed |
| SessionWitness.CopiesDisagree | engine.go:504-507 | an input on which the machine is left in Data while the copy says Identified |
| SessionWitness.DeliveredOverTLS | engine.go:701-756 | a run that comes through StartTLS, drops a command sent ahead of the upgrade, stores a message and ends in Terminated |
| SessionWitness.EmptyLineAborts | engine.go:208-218 | a run that ends in Aborted |
| SessionFailure.FailureIsForever | engine.go:488-508 | once the machine is stuck, every continuation stays in Data or Aborted, stores nothing, has no builder and handles nothing; the next line is answered 503 whenever it parses and passes the hook, 554 when the hook refuses it, 500 or 421 when it does not parse |
| SessionFailure.StuckAnswers | engine.go:232-237 | the exchange and the output that any line read in that state leads to |
| SessionFailure.StuckOnlyByFailure | statemachine.go:131-135 | one turn leaves a session stuck exactly if it records a DATA that had its 354 and was not answered 250, whatever the oracles do |
| SessionMessages.BytesConserved | engine.go:589-600 | octets read are those of all complete lines; an accepted DATA counts its line, the message, one per dot-initial line, and the terminator |
| SessionSafety.RunWithinLimits | engine.go:350-369 | transactions equal messages and stay within MaxTransactions; every stored message has at least one and at most MaxRecipients recipients and at most MaxMessageSize octets; all recipients at most the product; TLS on under TLSRequired; client named |
| SessionSafety.DeliveredIsGood | engine.go:611-621 | the message delivered by an accepted DATA is within all limits whatever SIZE was declared |
| SessionSafety.RecipientBound | engine.go:424-428 | the total of recipients is at most MaxRecipients for each message |
| SessionFailure.TLSPhases | engine.go:680-745 | at most one upgrade in every run; every delivered message names its client by a HELO or EHLO after the last upgrade and says truly whether TLS was on |
| SessionFailure.HostOrigin | engine.go:291-296 | the client name in force comes from one HELO or EHLO with no upgrade and no other one after it |
| SessionFailure.UpgradeForgetsInput | conn.go:274-278 | sessions that differ only in what was unread at an upgrade are equal ever after |
| SessionFailure.ErrorStreakAborts | engine.go:208-218 | MaxErrors unparseable lines without a handled command answered 200 to 399 between them end in 421 and Aborted; a line counts as unparseable exactly if it does not parse |
| SessionFailure.AdvanceLimit | limits.go:94-99 | an unparseable line is answered 421 and is the last exactly when it reaches the limit, 500 otherwise |
| SessionOutput.ClientReadsReplies | engine.go:771-780 | a client reading the output of any run with successful writes gets the greeting and exactly the recorded replies, line by line, nothing left over |
| SessionOutput.RunBalanced | engine.go:192-253 | one final reply for every command line taken, preceded by one 354 exactly for handled DATA; replies equal commands plus DATA phases |
| SessionOutput.RunCountsWrites | engine.go:771-780 | in every run the octets counted as written are those in the output |
| SessionOutput.BeginsWithGreeting | engine.go:124-142 | a session begins with 220 and the server's name, or is over if that fails |
| SessionOutput.HandleIsPlain | engine.go:285-341 | every reply has a three-digit code and no LF, in particular none through the client's host name |
| SessionTermination.NeverEndsIff | engine.go:169-185 | a session runs forever if and only if it comes to a drained stream with an error that is neither end of file nor timeout |
| SessionTermination.RunEnds | engine.go:148-188 | on streams that end in end of file or a timeout every session ends, also inside DATA and with failing writes |
| SessionTermination.StepProgresses | engine.go:148-186 | every turn that does not end the session upgrades it for the first time or consumes input, or the session spins |
| SessionTermination.PermanentErrorSpins | engine.go:180-184 | a read error of another kind that every read repeats is an input on which the session spins |
| SessionTermination.SpinsForever | engine.go:180-184 | a spinning session never changes again |
| Engine.Engine.Run | engine.go:122-189 | a run on the heap ends in the state that the session function gives after n turns, or is cut off by its deadline while that has not ended; it never crashes |
| Engine.Engine.Iterate | engine.go:148-186 | one turn does what Step says; the store only grows, and every envelope stored before is the same object with the same recipients and octets, read through the shared arrays |
| Engine.Engine.Loop | envelope_builder.go:134-161 | from any state to the end of the session: every envelope that was in the table keeps its recipients and octets, read through the shared arrays, and with distinct identifiers the table still gives it under its identifier |
| Engine.Serve | engine.go:85-112 | a new engine run on any input ends in the state of the session function after n turns on it, or is cut off by its deadline; reading the table of the store gives under every identifier the latest message accepted with it, and with fresh identifiers every message that the log delivers and no other |
| Engine.Engine.constructor | engine.go:85-112 | a new engine is the unstarted session |
| Engine.Engine.ProcessOneCommand | engine.go:192-206 | reads and counts a line and does with it what the session function says, with the same error result |
| Engine.Engine.Dispatch | engine.go:208-253 | parses, asks the hook, gates on the state, hands over and replies as the session function says |
| Engine.Engine.Handle | engine.go:256-283 | dispatches each verb to its handler |
| Engine.Engine.HandleHELO | engine.go:285-299 | new state and reply of HELO |
| Engine.Engine.HandleEHLO | engine.go:301-341 | new state and reply of EHLO |
| Engine.Engine.HandleMAIL | engine.go:343-414 | new state and reply of MAIL, every refusal in order |
| Engine.Engine.HandleRCPT | engine.go:416-452 | new state and reply of RCPT, every refusal in order |
| Engine.Engine.HandleDATA | engine.go:454-483 | new state, reply and lines of DATA |
| Engine.Engine.ReceiveData | engine.go:485-564 | streaming, finalizing and storing, with each failure path |
| Engine.Engine.StreamData | engine.go:568-625 | the loop takes the lines, writes the octets and returns the count that the phase function gives |
| Engine.Engine.Deliver | engine.go:529-552 | the envelope, sharing the builder's arrays, is stored and the builder let go |
| Engine.Engine.HandOver | engine.go:529-541 | the envelope goes into the store by reference and no builder has its arrays any more |
| Engine.Engine.FailData | engine.go:504-507 | the failure path of DATA |
| Engine.Engine.HandleRSET | engine.go:626-636 | new state and reply of RSET |
| Engine.Engine.HandleQUIT | engine.go:642-646 | new state and reply of QUIT |
| Engine.Engine.HandleSTARTTLS | engine.go:680-698 | new state and reply of STARTTLS |
| Engine.Engine.PerformTLSUpgrade | engine.go:701-756 | after a handshake the session is a fresh one on the new stream; otherwise nothing has changed |
| Engine.Engine.Secure | engine.go:721-736 | with the new stream underneath nothing read ahead of the old one is left |
| Engine.Engine.ReadLine | engine.go:759-766 | a complete line is counted, a failed read is not |
| Engine.Engine.WriteResponse | engine.go:771-780 | what was passed on is counted, the error returned |
| Engine.Engine.ResetTransaction | engine.go:783-788 | the builder is reset and dropped, nothing else changes |
| Engine.Engine.OnHandled | engine.go:239-252 | handles, replies, and clears the error count exactly after a positive reply that got through |
| Engine.Engine.Begin | engine.go:124-142 | connects and greets, or ends when the greeting fails |
| Engine.Engine.OnUnparsed | engine.go:208-218 | error count, 421 and abort at the limit, 500 below it |
| Envelopes.EnvelopeBuilder.constructor | envelope_builder.go:47-54 | an empty draft with arrays of its own |
| Envelopes.EnvelopeBuilder.SetMailFrom | envelope_builder.go:64-77 | sets sender and parameters unless finalized |
| Envelopes.EnvelopeBuilder.AddRecipient | envelope_builder.go:80-90 | appends unless finalized |
| Envelopes.EnvelopeBuilder.DataWriter | envelope_builder.go:93-111 | opens the writer unless finalized or opened before |
| Envelopes.EnvelopeBuilder.Write | envelope_builder.go:195-200 | appends in place while the writer is open |
| Envelopes.EnvelopeBuilder.CloseWriter | envelope_builder.go:202-205 | closes the writer |
| Envelopes.EnvelopeBuilder.Finalize | envelope_builder.go:114-146 | refuses as the source does, otherwise hands out slices of the builder's own arrays |
| Envelopes.EnvelopeBuilder.Reset | envelope_builder.go:149-161 | an empty draft; new array for recipients, the same array for data |
| Envelopes.EnvelopeBuilder.Build | envelope_builder.go:164-186 | a snapshot with copied recipients and shared data |
| Envelopes.ReuseOverwritesEnvelope | envelope_builder.go:149-161 | reset and write on a finalized builder replace the beginning of the envelope's data |
| BuilderTraces.BuilderHolds | envelope_builder.go:64-146 | after any sequence of calls the builder holds the latest sender, all recipients in order and what was written while open, up to its finalizing, after which nothing changes it |
| BuilderTraces.FinalizeIff | envelope_builder.go:114-146 | finalizing succeeds if and only if there is a sender and a recipient, the writer is not open and it has not been done; the envelope is what the calls gave |
| Storage.MemStorage.Store | mem/storage.go:43-68 | the envelope is kept under its identifier by reference and counted; the table reads as before with this one entry added or replaced |
| Storage.MemStorage.TableKeepsAll | mem/storage.go:55-59 | with distinct identifiers the table holds exactly the envelopes stored, each still what it was |
| SessionIdentifiers.StoredIdsDistinct | engine.go:393-397 | with fresh identifiers, one for each MAIL, the stored envelopes of every run and the open builder have distinct ones |
| DataCodec.DotTransparency | engine.go:577-624 | stuffed message, terminator and any tail: the original is written and exactly the tail left, if and only if lines and size fit |
| DataCodec.LinesTransparent | parser.go:394-420 | the same for any sequence of lines and any count already written |
| DataCodec.PhaseSound | engine.go:577-624 | any phase that ends at a terminator: only the last line is one, the others unstuffed were written, and exactly the rest is left |
| DataCodec.PhaseConserves | engine.go:589-600 | lines taken amount to octets written, dot-initial lines and terminator |
| DataCodec.PhaseWithinSize | engine.go:610-614 | no phase writes beyond MaxMessageSize |
| DataCodec.PhaseTurn | engine.go:584-621 | one turn of the streaming loop |
| DataCodec.PhaseEndsAt | engine.go:584-621 | a phase ends at the first line that is a terminator, is too long or makes the message too large, and says which |
| DataCodec.PhaseRunsOut | engine.go:584-587 | a phase that no line ends comes to the error of the stream |
| DataCodec.StuffedEndsAt | engine.go:602-614 | what a stuffed message that does not fit is refused for |
| DataCodec.StuffedNeverTerminates | parser.go:403-420 | a stuffed line is never a terminator, and unstuffing undoes stuffing |
| DataCodec.TerminatorForms | parser.go:394-399 | the terminators are a dot with CRLF and a dot with LF |
| DataCodec.StuffArray | parser.go:412-420 | the array form of stuffing |
| Harness.SendData | harness/harness.go:255-272 | what the encoder sends |
| Harness.SentIsReceived | harness/harness.go:255-272 | what the encoder sends is received as the message with CRLF line ends, if and only if it fits |
| Harness.UnchangedIffCanonical | harness/harness.go:255-272 | a message is received unchanged if and only if all its lines end in CRLF |
| Harness.ReadResponse | harness/harness.go:223-252 | reads the lines up to the first final one, and no further |
| Harness.PipeBuffer.ReadLine | harness/harness.go:427-460 | one line, or what is left at end of file |
| Reply.Format | reply.go:169-197 | the printed form of a reply |
| Reply.FramingRoundTrip | harness/harness.go:223-252 | reading a printed reply followed by anything gives its lines and leaves what follows |
| Reply.FramingOfAll | reply.go:169-197 | the same for any sequence of replies: no line left over or merged |
| Reply.ReplyReadsBack | reply.go:169-197 | from each line of a printed reply a reader gets the code, the enhanced code, the text, and whether it is the last |
| Reply.BareReplyReadsBack | reply.go:169-197 | the same for a reply without text |
| Reply.FinalLineIff | harness/harness.go:240-248 | which lines the client takes for the last of a reply |
| Parser.PathRoundTrip | parser.go:186-264 | printing a parsed path with anything after it and parsing gives the path; the parameters are read from what follows |
| Parser.PrintedPathParses | parser.go:186-264 | every well-formed path, the null path included, is read back from its text |
| Parser.ParsedIsPath | parser.go:213-264 | only well-formed paths are returned |
| Parser.InnerIff | parser.go:225-262 | the text in brackets parses to exactly the path of which it is the text |
| Parser.AddressIff | parser.go:268-303 | an address is a local part, an at-sign and a domain, in the only way it can be read |
| Parser.SameBracket | parser.go:154-182 | path and parameters of an argument are read from the two sides of one closing bracket |
| Parser.PathAndParamsSeparate | parser.go:186-264 | the path depends on the bracketed text alone, the parameters on the text after it alone |
| Parser.ShapeOfParsed | parser.go:213-264 | every argument that has a path is keyword, blanks, bracketed path and rest |
| Parser.ParamsRoundTrip | parser.go:154-182 | printing well-formed parameters after any path and parsing returns path and map |
| Parser.ParseESMTPParams | parser.go:154-182 | the loop collects the map, later names overriding earlier ones |
| Parser.ArgumentIsOneLine | parser.go:89-110 | the argument of a parsed line contains no LF |
| Parser.ParseHeloHostname | parser.go:314-346 | a host name is not empty and made of characters of the argument |
| Parser.HeloHostnameIff | parser.go:314-346 | the client name is the trimmed argument, if that is a host name or bracketed |
| Parser.HostnameIff | parser.go:349-372 | host names character by character: at most 255, letters or digits at the ends and around dots, a dot in every stretch of 64 |
| Parser.CheckAddress | parser.go:268-303 | accepts exactly a local part, the last at-sign and a domain of domain characters not starting or ending in dot or hyphen |
| Parser.CheckHostname | parser.go:349-372 | accepts exactly dotted labels of at most 63, at most 255 in all, alphanumeric at both ends |
| Protocol.TablesAgree | statemachine.go:218-246 | the table of required states and the table of allowed commands say the same |
| Protocol.EdgesIff | statemachine.go:202-215 | the edges of the machine are those that commands need, aborting, and those of greeting, DATA, handshake and end |
| Protocol.IgnoredTransitionsSucceed | statemachine.go:104-127 | the target of an allowed command is the present state or a legal edge |
| StateMachine.MachineTraces | statemachine.go:52-127 | for every sequence of calls: a chain of legal edges, nothing after a terminal state, every entry to Data preceded by MailFrom from Identified and then only RcptTo |
| StateMachine.DataEntry | statemachine.go:202-215 | the entry to MailFrom before an entry to Data |
| StateMachine.CallMoves | statemachine.go:131-194 | where each call leads; a reset in Data leads nowhere |
| StateMachine.StateMachine.Transition | statemachine.go:52-70 | moves and notifies exactly on a legal edge |
| StateMachine.StateMachine.TransitionForCommand | statemachine.go:74-90 | moves as the command says, without fail when the command is allowed |
| StateMachine.StateMachine.Reset | statemachine.go:131-135 | back to Identified where the table has the edge |
| StateMachine.StateMachine.Connect | statemachine.go:138-147 | from Disconnected only |
| StateMachine.StateMachine.Greet | statemachine.go:150-159 | from Connected only |
| StateMachine.StateMachine.DataComplete | statemachine.go:162-171 | from Data only |
| StateMachine.StateMachine.TLSComplete | statemachine.go:175-184 | from StartTLS only |
| StateMachine.StateMachine.Terminate | statemachine.go:187-189 | to Terminated on a legal edge |
| StateMachine.StateMachine.Abort | statemachine.go:192-194 | to Aborted on a legal edge |
| Conn.BufferedConn.ReadLine | conn.go:261-267 | the next line of what is unread, however much is read ahead |
| Conn.BufferedConn.constructor | conn.go:253-258 | a new connection has everything unread |
| Conn.BufferedConn.Write | engine.go:771-780 | a failed write may pass on a part, which is counted |
| Conn.BufferedConn.UpgradeTLS | conn.go:191-201 | the stream underneath is replaced, the buffer is not |
| Conn.BufferedConn.ResetReader | conn.go:274-278 | what was read ahead is dropped |
| Conn.NextLineFacts | conn.go:261-267 | a line read is exactly one line and nothing else is lost; a failed read loses the unfinished line |
| Decimal.IntToStr | logger.go:195-215 | stays within its buffer and gives canonical decimal text from which a reader of signed numbers gets every int64 back but the smallest, for which it gives the sign alone |
| Decimal.DigitsReadBack | logger.go:206-210 | reading the digits gives the number back, and there is no leading zero |
| Decimal.IntegerReadsBack | logger.go:195-215 | every integer, zero and negative ones included, is read back from its text, which has no leading zero |
| Decimal.Int64HasNineteenDigits | logger.go:203-210 | no int64 has more than nineteen digits |

## Left out

- Sockets, deadlines and `PipeBuffer` waiting: a timeout is a read error of the stream; a cancelled context is the `deadline` of `Engine.Run`, checked at the top of a turn and not inside a DATA phase.
- The TLS handshake, certificates and negotiated versions: an oracle gives the new stream or a failure.
- Random identifiers, clocks, session identifier and client address in the metadata of an envelope.
- Mutexes, goroutines and `Engine.Close` from another goroutine.
- Custom envelope factories: the builder is the standard one.
- Hooks other than the command hook, which can only observe.
- Logging apart from `intToStr`, the transcript and the examples.
- `mem/mailbox.go`, the mailbox and policy result constructors and the name tables: lookups.
- `Get`, `List`, `Delete`, `Clear`, `Count` and `StoreStream` of the store: the engine does not call them.
- Unicode case folding and white space; the text of SIZE is read by an arbitrary function.
- Capacities of arrays: a `Backing` never moves, so that slices share memory as long as they possibly can.
- The list form of the state and command tables: they are predicates.
