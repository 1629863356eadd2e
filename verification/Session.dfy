/** The session as a function of its inputs: one call of Step is one iteration of the engine's
    main loop. Everything the engine does not decide itself is in an Oracle, one per iteration,
    so that a statement about all worlds is a statement about all runs. */
module Session {
  import opened Text
  import opened Conn
  import opened Protocol
  import opened StateMachine
  import opened Parser
  import opened DataCodec
  import opened Decimal
  import opened Phrases
  import opened Reply
  import opened Envelopes

  datatype Limits = Limits(maxMessageSize: int, maxRecipients: int, maxCommandLength: int,
                           maxLineLength: int, maxErrors: int, maxTransactions: int)

  datatype TLSPolicy = TLSDisabled | TLSOptional | TLSRequired | TLSImmediate

  datatype Extensions = Extensions(starttls: bool, size: bool, eightBitMime: bool, pipelining: bool,
                                   enhancedStatusCodes: bool, smtpUtf8: bool, vrfy: bool, help: bool)

  /** `storage` and `tlsProvider` say whether the component is configured; `scanSize` is the
      number read from the text of a SIZE parameter. */
  datatype Config = Config(serverHostname: string, limits: Limits, tlsPolicy: TLSPolicy, tlsProvider: bool,
                           storage: bool, ext: Extensions, scanSize: string -> int)

  /** The answers of one iteration: the command hook (an error refuses the command), the sender
      policy and the mailbox (a response rejects), the storage, the identifier of a new envelope,
      the stream after a successful handshake, the fate of the 354 and of the final reply, and
      how far the connection reads ahead. */
  datatype Oracle = Oracle(hook: Option<ErrKind>, sender: Option<Response>, mailbox: Option<Response>,
                           stores: bool, id: string, upgrade: Option<Stream>,
                           first: Option<Fault>, final: Option<Fault>, chunk: nat)

  datatype Stats = Stats(bytesRead: nat, bytesWritten: nat, commands: nat, transactions: nat,
                         messages: nat, recipients: nat)

  datatype Disposition =
    | Unparsed
    | Refused(cmd: Command)
    | OutOfSequence(cmd: Command)
    | Handled(cmd: Command)

  /** What an observer of the connection sees in one iteration: the command line, the lines of a
      DATA phase, the replies, and whether the final reply got through; or a TLS upgrade. */
  datatype Event =
    | Exchange(line: string, how: Disposition, body: seq<string>, replies: seq<Response>, sent: bool)
    | Upgraded

  datatype Exit = Normal | TimedOut | IoFailed | TlsFailed | Panic

  /** `sm` is the state machine, `state` the engine's own copy of its state. */
  datatype Sess = Sess(sm: Machine, state: State, host: string, tls: bool, errors: nat, stats: Stats,
                       envelope: Option<Draft>, input: Stream, output: string, stored: seq<Envelope>,
                       log: seq<Event>, exit: Option<Exit>)

  const OK := NewResponse(250, Say(Okay))
  const BYE := NewResponse(221, Say(Bye))
  const START_MAIL_INPUT := NewResponse(354, Say(StartInput))
  const SYNTAX_ERROR := NewResponse(500, Say(Unrecognized))
  const SYNTAX_ERROR_PARAMS := NewResponse(501, Say(BadArguments))
  const NOT_IMPLEMENTED := NewResponse(502, Say(NotImplemented))
  const BAD_SEQUENCE := NewResponse(503, Say(BadSequence))
  const TRANSACTION_FAILED := NewResponse(554, Say(TransactionFailed))
  const TOO_MANY_ERRORS := NewResponse(421, Say(TooManyErrorsText))

  function MaxCommandLength(cfg: Config): int {
    if cfg.limits.maxCommandLength == 0 then 512 else cfg.limits.maxCommandLength
  }

  function Emit(s: Sess, r: Response, fault: Option<Fault>): Sess {
    var p := Passed(Bytes(r), fault);
    s.(output := s.output + p, stats := s.stats.(bytesWritten := s.stats.bytesWritten + |p|))
  }

  // ----- Handlers -----

  /** A handler's new state and final reply; only DATA also has lines and an earlier reply. */
  datatype Outcome = Outcome(s: Sess, reply: Response, body: seq<string>, earlier: seq<Response>)

  function Answer(s: Sess, r: Response): Outcome {
    Outcome(s, r, [], [])
  }

  function Identify(s: Sess, v: Verb, host: string): Sess {
    s.(host := host, sm := Apply(s.sm, CallForCommand(v, true)), state := Identified, envelope := None)
  }

  function HandleHELO(cfg: Config, s: Sess, cmd: Command): Outcome {
    match ParseHeloHostname(cmd.argument)
    case Err => Answer(s, SYNTAX_ERROR_PARAMS)
    case Ok(host) =>
      Answer(Identify(s, HELO, host), NewResponse(250, cfg.serverHostname + Say(HelloText) + host))
  }

  function Offer(on: bool, text: string): seq<string> {
    if on then [text] else []
  }

  function EhloLines(cfg: Config, host: string, tls: bool): seq<string> {
    [cfg.serverHostname + Say(HelloText) + host]
    + Offer(cfg.ext.size && cfg.limits.maxMessageSize > 0, Say(SizeOffer) + Integer(cfg.limits.maxMessageSize))
    + Offer(cfg.ext.starttls && cfg.tlsPolicy != TLSDisabled && !tls, Say(OfferTLS))
    + Offer(cfg.ext.eightBitMime, Say(Offer8Bit))
    + Offer(cfg.ext.pipelining, Say(OfferPipelining))
    + Offer(cfg.ext.enhancedStatusCodes, Say(OfferEnhanced))
    + Offer(cfg.ext.smtpUtf8, Say(OfferUtf8))
    + Offer(cfg.ext.help, Say(OfferHelp))
  }

  function HandleEHLO(cfg: Config, s: Sess, cmd: Command): Outcome {
    match ParseHeloHostname(cmd.argument)
    case Err => Answer(s, SYNTAX_ERROR_PARAMS)
    case Ok(host) =>
      Answer(Identify(s, EHLO, host), Response(250, None, EhloLines(cfg, host, s.tls)))
  }

  predicate DeclaredTooLarge(cfg: Config, params: Params) {
    && cfg.ext.size && cfg.limits.maxMessageSize > 0
    && "SIZE" in params && cfg.scanSize(params["SIZE"]) > cfg.limits.maxMessageSize
  }

  function MetadataOf(cfg: Config, s: Sess): Metadata {
    Metadata(s.host, cfg.serverHostname, s.tls)
  }

  function HandleMAIL(cfg: Config, s: Sess, cmd: Command, o: Oracle): Outcome {
    if cfg.tlsPolicy == TLSRequired && !s.tls then
      Answer(s, NewResponse(530, Say(NeedsTLS)))
    else if cfg.limits.maxTransactions > 0 && s.stats.transactions >= cfg.limits.maxTransactions then
      Answer(s, NewResponse(421, Say(TooManyTransactions)))
    else
      match ParseMailPath(cmd.argument, "FROM")
      case Err => Answer(s, SYNTAX_ERROR_PARAMS)
      case Ok(path) =>
        if DeclaredTooLarge(cfg, cmd.params) then
          Answer(s, NewResponse(552, Say(DeclaredSizeTooLarge)))
        else if o.sender.Some? then Answer(s, o.sender.value)
        else OpenMail(cfg, s, path, cmd.params, o.id)
  }

  function OpenMail(cfg: Config, s: Sess, path: MailPath, params: Params, id: string): Outcome {
    var d := NewDraft(id, MetadataOf(cfg, s));
    match d.SetMailFrom(path, params)
    case Err => Answer(s.(envelope := Some(d)), TRANSACTION_FAILED)
    case Ok(d') =>
      Answer(s.(envelope := Some(d'), sm := Apply(s.sm, CallForCommand(MAIL, true)), state := MailFrom), OK)
  }

  /** Using a builder that is not there. */
  function Crash(s: Sess): Outcome {
    Answer(s.(exit := Some(Panic)), TRANSACTION_FAILED)
  }

  function HandleRCPT(cfg: Config, s: Sess, cmd: Command, o: Oracle): Outcome {
    match ParseMailPath(cmd.argument, "TO")
    case Err => Answer(s, SYNTAX_ERROR_PARAMS)
    case Ok(path) =>
      if s.envelope.None? then
        if cfg.limits.maxRecipients <= 0 && o.mailbox.Some? then Answer(s, o.mailbox.value) else Crash(s)
      else if cfg.limits.maxRecipients > 0 && |s.envelope.value.recipients| >= cfg.limits.maxRecipients then
        Answer(s, NewResponse(452, Say(TooManyRecipients)))
      else if o.mailbox.Some? then Answer(s, o.mailbox.value)
      else TakeRecipient(s, path)
  }

  function TakeRecipient(s: Sess, path: MailPath): Outcome
    requires s.envelope.Some?
  {
    match s.envelope.value.AddRecipient(path)
    case Err => Answer(s, TRANSACTION_FAILED)
    case Ok(d) =>
      Answer(s.(envelope := Some(d), sm := Apply(s.sm, CallForCommand(RCPT, true)), state := RcptTo), OK)
  }

  /** Every failure after 354: the machine is told to reset, which it refuses in Data. */
  function FailData(s: Sess, code: nat, text: string, body: seq<string>): Outcome {
    Outcome(s.(sm := Apply(s.sm, CallReset), state := Identified, envelope := None),
            NewResponse(code, text), body, [START_MAIL_INPUT])
  }

  function DataErrorReply(end: DataEnd): (nat, string) {
    match end
    case MessageTooLarge => (552, Say(SizeExceeded))
    case LineTooLong => (500, Say(LongLine))
    case ReadFault(Timeout) => (451, Say(DataTimeout))
    case _ => (451, Say(DataError))
  }

  function Phase(cfg: Config, s: Sess): DataPhase {
    StreamData(cfg.limits.maxLineLength, cfg.limits.maxMessageSize, 0, s.input)
  }

  function Deliver(cfg: Config, s: Sess, e: Envelope): Sess {
    s.(stored := if cfg.storage then s.stored + [e] else s.stored,
       stats := s.stats.(messages := s.stats.messages + 1, transactions := s.stats.transactions + 1,
                         recipients := s.stats.recipients + |e.content.recipients|),
       sm := Apply(Apply(s.sm, CallDataComplete), CallReset), state := Identified, envelope := None)
  }

  /** After the 354 has been sent and the writer opened. */
  function ReceiveData(cfg: Config, s: Sess, d: Draft, o: Oracle): Outcome {
    var ph := Phase(cfg, s);
    var t := s.(input := ph.rest, stats := s.stats.(bytesRead := s.stats.bytesRead + |Concat(ph.lines)|));
    if ph.end != AtTerminator then
      var (code, text) := DataErrorReply(ph.end);
      FailData(t, code, text, ph.lines)
    else
      match d.Write(ph.written)
      case Err => FailData(t, 451, Say(DataError), ph.lines)
      case Ok(d') =>
        match d'.CloseWriter().Finalize()
        case Err => FailData(t, 451, Say(CannotFinalize), ph.lines)
        case Ok(e) =>
          if cfg.storage && !o.stores then FailData(t, 451, Say(CannotStore), ph.lines)
          else Outcome(Deliver(cfg, t, e), NewResponse(250, Say(OkMessage) + e.id + Say(AcceptedText)),
                       ph.lines, [START_MAIL_INPUT])
  }

  function HandleDATA(cfg: Config, s: Sess, o: Oracle): Outcome {
    var t := Emit(s.(sm := Apply(s.sm, CallForCommand(DATA, true)), state := Data), START_MAIL_INPUT, o.first);
    if o.first.Some? then
      Outcome(t.(sm := Apply(t.sm, CallAbort)), Response(0, None, []), [], [START_MAIL_INPUT])
    else if t.envelope.None? then Crash(t)
    else
      match t.envelope.value.OpenWriter()
      case Err => FailData(t, 451, Say(CannotAccept), [])
      case Ok(d) => ReceiveData(cfg, t, d, o)
  }

  function HandleRSET(s: Sess): Outcome {
    var m := Apply(s.sm, CallReset);
    Answer(s.(envelope := None, sm := m,
              state := if m.state == Greeted || m.state == Identified then m.state else Identified), OK)
  }

  function HandleQUIT(s: Sess): Outcome {
    Answer(s.(sm := Apply(Apply(s.sm, CallForCommand(QUIT, true)), CallTerminate)), BYE)
  }

  function HandleVRFY(cfg: Config, s: Sess): Outcome {
    Answer(s, if cfg.ext.vrfy then NewResponse(252, Say(CannotVerify))
              else NOT_IMPLEMENTED)
  }

  function HandleHELP(cfg: Config, s: Sess): Outcome {
    var tls := cfg.ext.starttls && cfg.tlsPolicy != TLSDisabled && cfg.tlsProvider && !s.tls;
    Answer(s, if cfg.ext.help then
                Response(214, None, [Say(HelpHeader), Say(HelpBasic),
                                     Say(HelpMore) + (if tls then Say(HelpTLS) else ""),
                                     Say(HelpFooter)])
              else NOT_IMPLEMENTED)
  }

  function HandleSTARTTLS(cfg: Config, s: Sess): Outcome {
    if cfg.tlsPolicy == TLSDisabled then Answer(s, NOT_IMPLEMENTED)
    else if s.tls then Answer(s, NewResponse(503, Say(TLSAlready)))
    else if !cfg.tlsProvider then Answer(s, NewResponse(454, Say(TLSUnavailable)))
    else Answer(s.(sm := Apply(s.sm, CallForCommand(STARTTLS, true)), state := StartTLS),
                NewResponse(220, Say(ReadyForTLS)))
  }

  function Handle(cfg: Config, s: Sess, cmd: Command, o: Oracle): Outcome {
    match cmd.verb
    case HELO => HandleHELO(cfg, s, cmd)
    case EHLO => HandleEHLO(cfg, s, cmd)
    case MAIL => HandleMAIL(cfg, s, cmd, o)
    case RCPT => HandleRCPT(cfg, s, cmd, o)
    case DATA => HandleDATA(cfg, s, o)
    case RSET => HandleRSET(s)
    case NOOP => Answer(s, OK)
    case QUIT => HandleQUIT(s)
    case VRFY => HandleVRFY(cfg, s)
    case HELP => HandleHELP(cfg, s)
    case STARTTLS => HandleSTARTTLS(cfg, s)
    case EXPN | AUTH => Answer(s, NOT_IMPLEMENTED)
  }

  // ----- The loop -----

  /** A new state and the error the iteration ended with, if any. */
  datatype Progress = Progress(s: Sess, err: Option<ErrKind>)

  function Record(s: Sess, e: Event): Sess {
    s.(log := s.log + [e])
  }

  predicate TooManyErrors(cfg: Config, errors: nat) {
    cfg.limits.maxErrors > 0 && errors >= cfg.limits.maxErrors
  }

  function OnUnparsed(cfg: Config, s: Sess, line: string, o: Oracle): Progress {
    var t := s.(errors := s.errors + 1);
    if TooManyErrors(cfg, t.errors) then
      var u := Emit(t, TOO_MANY_ERRORS, o.final);
      Progress(Record(u.(sm := Apply(u.sm, CallAbort)),
                      Exchange(line, Unparsed, [], [TOO_MANY_ERRORS], o.final.None?)), Some(OtherError))
    else
      Progress(Record(Emit(t, SYNTAX_ERROR, o.final),
                      Exchange(line, Unparsed, [], [SYNTAX_ERROR], o.final.None?)), Some(OtherError))
  }

  function OnHandled(cfg: Config, s: Sess, line: string, cmd: Command, o: Oracle): Progress {
    var h := Handle(cfg, s, cmd, o);
    if h.s.exit.Some? then Progress(h.s, None)
    else
      var t := Record(Emit(h.s, h.reply, o.final),
                      Exchange(line, Handled(cmd), h.body, h.earlier + [h.reply], o.final.None?));
      if o.final.Some? then Progress(t, Some(o.final.value.err))
      else Progress(if IsPositive(h.reply.code) then t.(errors := 0) else t, None)
  }

  function Dispatch(cfg: Config, s: Sess, line: string, parsed: Result<Command>, o: Oracle): Progress {
    match parsed
    case Err => OnUnparsed(cfg, s, line, o)
    case Ok(cmd) =>
      if o.hook.Some? then
        Progress(Record(Emit(s, TRANSACTION_FAILED, o.final),
                        Exchange(line, Refused(cmd), [], [TRANSACTION_FAILED], o.final.None?)), o.hook)
      else if !IsCommandAllowed(s.sm.state, cmd.verb) then
        Progress(Record(Emit(s.(errors := s.errors + 1), BAD_SEQUENCE, o.final),
                        Exchange(line, OutOfSequence(cmd), [], [BAD_SEQUENCE], o.final.None?)), None)
      else OnHandled(cfg, s, line, cmd, o)
  }

  function TakeLine(s: Sess, line: string, rest: Stream): Sess {
    s.(input := rest, stats := s.stats.(bytesRead := s.stats.bytesRead + |line|,
                                        commands := s.stats.commands + 1))
  }

  function ProcessOneCommand(cfg: Config, s: Sess, o: Oracle): Progress {
    match NextLine(s.input)
    case Failed(err, rest) => Progress(s.(input := rest), Some(err))
    case Line(line, rest) =>
      Dispatch(cfg, TakeLine(s, line, rest), line, ParseCommand(MaxCommandLength(cfg), line), o)
  }

  function Conclude(p: Progress): Sess {
    if p.err.None? || p.s.exit.Some? then p.s
    else if p.s.sm.state.IsTerminal() then p.s.(exit := Some(Normal))
    else match p.err.value
      case Timeout => p.s.(exit := Some(TimedOut))
      case IoError => p.s.(exit := Some(IoFailed))
      case OtherError => p.s
  }

  function PerformUpgrade(s: Sess, o: Oracle): Sess {
    if o.upgrade.None? then s.(exit := Some(TlsFailed))
    else Record(s.(tls := true, input := o.upgrade.value, sm := Apply(s.sm, CallTLSComplete),
                   state := Greeted, envelope := None, host := ""), Upgraded)
  }

  function Step(cfg: Config, s: Sess, o: Oracle): Sess {
    if s.exit.Some? then s
    else if s.sm.state.IsTerminal() then s.(exit := Some(Normal))
    else if s.state == StartTLS then PerformUpgrade(s, o)
    else Conclude(ProcessOneCommand(cfg, s, o))
  }

  function Greeting(cfg: Config): Response {
    NewResponse(220, cfg.serverHostname + Say(Banner))
  }

  const FRESH_STATS := Stats(0, 0, 0, 0, 0, 0)

  /** The session when the main loop is entered, or ended because the greeting failed. */
  function Start(cfg: Config, input: Stream, o: Oracle): Sess {
    var s := Sess(Apply(INITIAL, CallConnect), Disconnected, "", false, 0, FRESH_STATS, None, input, "",
                  [], [], None);
    var t := Emit(s, Greeting(cfg), o.final);
    if o.final.Some? then t.(exit := Some(IoFailed))
    else t.(sm := Apply(t.sm, CallGreet), state := Greeted)
  }

  /** The session after n iterations. */
  function Run(cfg: Config, input: Stream, w: nat -> Oracle, n: nat): Sess {
    if n == 0 then Start(cfg, input, w(0)) else Step(cfg, Run(cfg, input, w, n - 1), w(n))
  }
}
