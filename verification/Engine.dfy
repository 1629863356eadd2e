/** The engine as it is written: an object whose methods change its fields step by step, with a
    builder whose memory is shared with the envelopes in the store. Every method is proved to do
    what the session function says. */
module Engine {
  import opened Text
  import opened Conn
  import opened Protocol
  import SM = StateMachine
  import opened Parser
  import opened DataCodec
  import opened Phrases
  import opened Reply
  import opened Envelopes
  import opened Storage
  import opened Session
  import opened SessionStates
  import opened SessionLog
  import opened SessionEffects
  import opened SessionHistory
  import opened SessionFailure
  import opened SessionMessages
  import opened SessionIdentifiers

  class Engine {
    const cfg: Config
    const conn: BufferedConn
    const sm: SM.StateMachine
    const storage: MemStorage
    var state: State
    var host: string
    var tls: bool
    var errors: nat
    var stats: Stats
    var envelope: EnvelopeBuilder?
    var exit: Option<Exit>
    ghost var log: seq<Event>
    ghost var Repr: set<object>

    /** The builder's arrays are never those of a stored envelope. */
    ghost predicate Valid()
      reads this, Repr
      ensures Valid() ==> this in Repr && conn in Repr && sm in Repr && storage in Repr
    {
      && this in Repr && conn in Repr && sm in Repr && storage in Repr
      && storage.Arrays() <= Repr && storage.Valid()
      && (envelope != null ==>
            && envelope in Repr && envelope.recipients in Repr && envelope.data in Repr
            && envelope.recipients !in storage.Arrays() && envelope.data !in storage.Arrays()
            && envelope.Valid())
    }

    /** The session that the object represents. */
    ghost function Value(): Sess
      requires Valid()
      reads this, Repr
    {
      Sess(sm.Value(), state, host, tls, errors, stats,
           if envelope == null then None else Some(envelope.Value()),
           conn.Unread(), conn.output, storage.values, log, exit)
    }

    constructor (cfg: Config, input: Stream)
      ensures Valid() && fresh(Repr)
      ensures Value() == Unstarted(input)
      ensures this.cfg == cfg
    {
      this.cfg := cfg;
      conn := new BufferedConn(input);
      sm := new SM.StateMachine();
      storage := new MemStorage();
      state, host, tls, errors, stats := Disconnected, "", false, 0, FRESH_STATS;
      envelope, exit, log := null, None, [];
      new;
      Repr := {this, conn, sm, storage};
    }

    method WriteResponse(r: Response, fault: Option<Fault>) returns (err: Option<ErrKind>)
      requires Valid()
      modifies conn`output, this`stats
      ensures Valid() && Value() == Emit(old(Value()), r, fault)
      ensures err == if fault.Some? then Some(fault.value.err) else None
    {
      hide Bytes, Passed, MemStorage.Valid, EnvelopeBuilder.Valid, EnvelopeBuilder.Value, SM.StateMachine.Value;
      var data := Format(r);
      var n;
      n, err := conn.Write(data, fault);
      stats := stats.(bytesWritten := stats.bytesWritten + n);
    }

    /** The builder is reset and dropped. */
    method ResetTransaction()
      requires Valid()
      modifies this`envelope, this`Repr, envelope
      ensures Valid() && fresh(Repr - old(Repr))
      ensures Value() == old(Value()).(envelope := None)
    {
      if envelope != null {
        envelope.Reset("");
        envelope := null;
      }
    }

    method HandleHELO(cmd: Command) returns (r: Response)
      requires Valid()
      modifies Repr
      ensures Valid() && fresh(Repr - old(Repr))
      ensures storage.history == old(storage.history)
      ensures var h := Session.HandleHELO(cfg, old(Value()), cmd); Value() == h.s && r == h.reply
    {
      hide Say, ParseHeloHostname, SM.Apply, MemStorage.Valid;
      hide EnvelopeBuilder.Valid, EnvelopeBuilder.Value, BufferedConn.Unread;
      var parsed := ParseHeloHostname(cmd.argument);
      if parsed.Err? {
        return SYNTAX_ERROR_PARAMS;
      }
      host := parsed.value;
      var _ := sm.TransitionForCommand(HELO, true);
      state := Identified;
      ResetTransaction();
      r := NewResponse(250, cfg.serverHostname + Say(HelloText) + host);
    }

    method HandleEHLO(cmd: Command) returns (r: Response)
      requires Valid()
      modifies Repr
      ensures Valid() && fresh(Repr - old(Repr))
      ensures storage.history == old(storage.history)
      ensures var h := Session.HandleEHLO(cfg, old(Value()), cmd); Value() == h.s && r == h.reply
    {
      hide Say, ParseHeloHostname, EhloLines, SM.Apply, MemStorage.Valid;
      hide EnvelopeBuilder.Valid, EnvelopeBuilder.Value, BufferedConn.Unread;
      var parsed := ParseHeloHostname(cmd.argument);
      if parsed.Err? {
        return SYNTAX_ERROR_PARAMS;
      }
      host := parsed.value;
      var _ := sm.TransitionForCommand(EHLO, true);
      state := Identified;
      ResetTransaction();
      r := Response(250, None, EhloLines(cfg, host, tls));
    }

    method HandleMAIL(cmd: Command, o: Oracle) returns (r: Response)
      requires Valid()
      modifies Repr
      ensures Valid() && fresh(Repr - old(Repr))
      ensures storage.history == old(storage.history)
      ensures var h := Session.HandleMAIL(cfg, old(Value()), cmd, o); Value() == h.s && r == h.reply
    {
      hide Say, ParseMailPath, DeclaredTooLarge, SM.Apply, MemStorage.Valid, BufferedConn.Unread;
      hide EnvelopeBuilder.Valid, EnvelopeBuilder.Value;
      if cfg.tlsPolicy == TLSRequired && !tls {
        return NewResponse(530, Say(NeedsTLS));
      }
      if cfg.limits.maxTransactions > 0 && stats.transactions >= cfg.limits.maxTransactions {
        return NewResponse(421, Say(TooManyTransactions));
      }
      var path := ParseMailPath(cmd.argument, "FROM");
      if path.Err? {
        return SYNTAX_ERROR_PARAMS;
      }
      if DeclaredTooLarge(cfg, cmd.params) {
        return NewResponse(552, Say(DeclaredSizeTooLarge));
      }
      if o.sender.Some? {
        return o.sender.value;
      }
      r := OpenMail(path.value, cmd.params, o.id);
    }

    method OpenMail(path: MailPath, params: Params, id: string) returns (r: Response)
      requires Valid()
      modifies Repr
      ensures Valid() && fresh(Repr - old(Repr))
      ensures storage.history == old(storage.history)
      ensures var h := Session.OpenMail(cfg, old(Value()), path, params, id); Value() == h.s && r == h.reply
    {
      hide Say, SM.Apply, MemStorage.Valid, BufferedConn.Unread, EnvelopeBuilder.Valid, EnvelopeBuilder.Value;
      NewEnvelope(id);
      var ok := envelope.SetMailFrom(path, params);
      if !ok {
        return TRANSACTION_FAILED;
      }
      var _ := sm.TransitionForCommand(MAIL, true);
      state := MailFrom;
      r := OK;
    }

    /** A new builder with arrays of its own. */
    method NewEnvelope(id: string)
      requires Valid()
      modifies this`envelope, this`Repr
      ensures Valid() && fresh(Repr - old(Repr))
      ensures envelope != null && fresh(envelope) && fresh(envelope.recipients) && fresh(envelope.data)
      ensures Value() == old(Value()).(envelope := Some(NewDraft(id, MetadataOf(cfg, old(Value())))))
    {
      hide MemStorage.Valid, BufferedConn.Unread, SM.StateMachine.Value;
      envelope := new EnvelopeBuilder(id, Metadata(host, cfg.serverHostname, tls));
      Repr := Repr + {envelope, envelope.recipients, envelope.data};
    }

    method HandleRCPT(cmd: Command, o: Oracle) returns (r: Response)
      requires Valid() && envelope != null
      modifies Repr
      ensures Valid() && fresh(Repr - old(Repr))
      ensures storage.history == old(storage.history)
      ensures var h := Session.HandleRCPT(cfg, old(Value()), cmd, o); Value() == h.s && r == h.reply
    {
      hide Say, ParseMailPath, SM.Apply, MemStorage.Valid, BufferedConn.Unread;
      hide EnvelopeBuilder.Valid;
      var path := ParseMailPath(cmd.argument, "TO");
      if path.Err? {
        return SYNTAX_ERROR_PARAMS;
      }
      if cfg.limits.maxRecipients > 0 {
        var snapshot := envelope.Build();
        if snapshot.recipientCount >= cfg.limits.maxRecipients {
          return NewResponse(452, Say(TooManyRecipients));
        }
      }
      if o.mailbox.Some? {
        return o.mailbox.value;
      }
      r := TakeRecipient(path.value);
    }

    method TakeRecipient(path: MailPath) returns (r: Response)
      requires Valid() && envelope != null
      modifies Repr
      ensures Valid() && fresh(Repr - old(Repr))
      ensures storage.history == old(storage.history)
      ensures var h := Session.TakeRecipient(old(Value()), path); Value() == h.s && r == h.reply
    {
      hide Say, SM.Apply, MemStorage.Valid, BufferedConn.Unread, EnvelopeBuilder.Valid;
      var ok := envelope.AddRecipient(path);
      if !ok {
        return TRANSACTION_FAILED;
      }
      var _ := sm.TransitionForCommand(RCPT, true);
      state := RcptTo;
      r := OK;
    }

    method ReadLine(chunk: nat) returns (line: Result<string>, err: ErrKind)
      requires Valid()
      modifies conn, this`stats
      ensures Valid()
      ensures match NextLine(old(Value()).input)
              case Line(l, rest) =>
                && line == Ok(l)
                && Value() == old(Value()).(input := rest,
                                            stats := old(stats).(bytesRead := old(stats).bytesRead + |l|))
              case Failed(e, rest) =>
                line == Err && err == e && Value() == old(Value()).(input := rest)
    {
      hide NextLine, MemStorage.Valid, SM.StateMachine.Value, EnvelopeBuilder.Valid, EnvelopeBuilder.Value;
      line, err := conn.ReadLine(chunk);
      if line.Ok? {
        stats := stats.(bytesRead := stats.bytesRead + |line.value|);
      }
    }

    method WriteData(u: string)
      requires Valid() && envelope != null && envelope.writer == Writing
      modifies envelope`size, envelope.data
      ensures Valid()
      ensures var d := old(Value()).envelope.value;
              Value() == old(Value()).(envelope := Some(d.(data := d.data + u)))
    {
      hide MemStorage.Valid, SM.StateMachine.Value, BufferedConn.Unread, EnvelopeBuilder.Valid;
      var _ := envelope.Write(u);
    }

    /** Reads the message into the builder, line by line. */
    method StreamData(chunk: nat) returns (end: DataEnd, total: nat, ghost lines: seq<string>)
      requires Valid() && envelope != null && envelope.writer == Writing
      modifies conn, this`stats, envelope`size, envelope.data
      ensures Valid()
      ensures var s, ph := old(Value()), Phase(cfg, old(Value()));
              && end == ph.end && total == |ph.written| && lines == ph.lines
              && Value() == Streamed(s, ph)
    {
      assert Value().envelope.Some?;
      hide Valid, Value, NextLine, IsTerminator, UnstuffLine, LineFits, SizeFits, DataCodec.StreamData, Concat;
      hide Joined, Streamed, Phase;
      PhaseOf(cfg, Value());
      ghost var s, ph := Value(), Phase(cfg, Value());
      var maxLine, maxSize := cfg.limits.maxLineLength, cfg.limits.maxMessageSize;
      total := 0;
      lines := [];
      ghost var written := "";
      StreamStart(s, ph);
      while true
        invariant Valid() && envelope == old(envelope) && envelope.writer == Writing
        invariant total == |written|
        invariant ph == Joined(written, lines, DataCodec.StreamData(maxLine, maxSize, total, Value().input))
        invariant Value() == Streamed(s, DataPhase(AtTerminator, written, lines, Value().input))
        decreases |Value().input.bytes|
      {
        PhaseTurn(maxLine, maxSize, written, lines, Value().input);
        StreamTurn(s, written, lines, NextLine(Value().input));
        var line, err := ReadLine(chunk);
        if line.Err? {
          return ReadFault(err), total, lines;
        }
        lines := lines + [line.value];
        if IsTerminator(line.value) {
          break;
        }
        if !LineFits(maxLine, line.value) {
          return LineTooLong, total, lines;
        }
        var u := UnstuffLine(line.value);
        if !SizeFits(maxSize, total + |u|) {
          return MessageTooLarge, total, lines;
        }
        StreamWrite(s, written, u, lines, Value().input);
        WriteData(u);
        written := written + u;
        total := total + |u|;
      }
      end := AtTerminator;
    }

    /** The failure path of DATA. */
    method FailData(code: nat, text: string) returns (r: Response)
      requires Valid()
      modifies sm, this`state, this`envelope
      ensures Valid()
      ensures var h := Session.FailData(old(Value()), code, text, []); Value() == h.s && r == h.reply
    {
      hide SM.Apply, MemStorage.Valid, BufferedConn.Unread, EnvelopeBuilder.Valid, EnvelopeBuilder.Value;
      sm.Reset();
      state := Identified;
      envelope := null;
      r := NewResponse(code, text);
    }

    /** Stores the envelope, which shares the builder's arrays, and lets go of the builder. */
    method Deliver(e: EnvelopeRef)
      requires Valid() && envelope != null && e.Valid()
      requires e.recipients == envelope.recipients && e.data == envelope.data
      modifies sm, storage, this`state, this`envelope, this`stats
      ensures Valid() && Value() == Session.Deliver(cfg, old(Value()), old(e.Value()))
      ensures old(storage.history) <= storage.history
    {
      hide SM.Apply, MemStorage.Valid, MemStorage.Table, ArraysOf, BufferedConn.Unread, SM.StateMachine.Value;
      hide EnvelopeBuilder.Valid, EnvelopeBuilder.Value, ById;
      HandOver(e);
      stats := stats.(messages := stats.messages + 1, transactions := stats.transactions + 1,
                      recipients := stats.recipients + e.recipientCount);
      var _ := sm.DataComplete();
      sm.Reset();
      state := Identified;
    }

    /** The arrays go over to the store: from here on no builder has them. */
    method HandOver(e: EnvelopeRef)
      requires Valid() && envelope != null && e.Valid()
      requires e.recipients == envelope.recipients && e.data == envelope.data
      modifies storage, this`envelope
      ensures Valid() && e.Valid() && e.Value() == old(e.Value())
      ensures Value() == old(Value()).(stored := if cfg.storage then old(Value()).stored + [old(e.Value())]
                                                 else old(Value()).stored, envelope := None)
      ensures old(storage.history) <= storage.history
    {
      hide MemStorage.Valid, MemStorage.Table, ArraysOf, BufferedConn.Unread, SM.StateMachine.Value;
      hide EnvelopeBuilder.Valid, EnvelopeBuilder.Value, ById;
      if cfg.storage {
        storage.Store(e);
      }
      envelope := null;
    }

    /** Reads, finalizes and stores a message once its writer is open. */
    method ReceiveData(o: Oracle) returns (r: Response, ghost body: seq<string>)
      requires Valid() && envelope != null && envelope.writer == Writing
      modifies Repr
      ensures Valid() && fresh(Repr - old(Repr))
      ensures old(storage.history) <= storage.history
      ensures var h := Session.ReceiveData(cfg, old(Value()), old(envelope.Value()), o);
              Value() == h.s && r == h.reply && body == h.body
    {
      hide Say, SM.Apply, MemStorage.Valid, BufferedConn.Unread, DataCodec.StreamData, Concat, ArraysOf;
      ghost var s, d := Value(), envelope.Value();
      var end, total;
      end, total, body := StreamData(o.chunk);
      hide EnvelopeBuilder.Valid;
      envelope.CloseWriter();
      if end != AtTerminator {
        var (code, phrase) := DataErrorReply(end);
        r := FailData(code, phrase);
        return;
      }
      var e := envelope.Finalize();
      if e.Err? {
        r := FailData(451, Say(CannotFinalize));
        return;
      }
      if cfg.storage && !o.stores {
        r := FailData(451, Say(CannotStore));
        return;
      }
      Deliver(e.value);
      r := NewResponse(250, Say(OkMessage) + e.value.id + Say(AcceptedText));
    }

    method HandleDATA(o: Oracle) returns (r: Response, ghost body: seq<string>)
      requires Valid() && envelope != null
      modifies Repr
      ensures Valid() && fresh(Repr - old(Repr))
      ensures old(storage.history) <= storage.history
      ensures var h := Session.HandleDATA(cfg, old(Value()), o);
              Value() == h.s && r == h.reply && body == h.body
    {
      hide Say, SM.Apply, MemStorage.Valid, BufferedConn.Unread, Session.ReceiveData, Bytes, Passed, ArraysOf;
      ghost var s := Value();
      var _ := sm.TransitionForCommand(DATA, true);
      state := Data;
      body := [];
      var err := WriteResponse(START_MAIL_INPUT, o.first);
      if err.Some? {
        var _ := sm.Abort();
        return Response(0, None, []), [];
      }
      ghost var t := Value();
      var ok := envelope.DataWriter();
      if !ok {
        r := FailData(451, Say(CannotAccept));
        return;
      }
      ReceiveIgnoresEnvelope(cfg, t, Value(), envelope.Value(), o);
      r, body := ReceiveData(o);
    }

    method HandleRSET() returns (r: Response)
      requires Valid()
      modifies Repr
      ensures Valid() && fresh(Repr - old(Repr))
      ensures storage.history == old(storage.history)
      ensures var h := Session.HandleRSET(old(Value())); Value() == h.s && r == h.reply
    {
      hide Say, SM.Apply, MemStorage.Valid, BufferedConn.Unread, EnvelopeBuilder.Valid, EnvelopeBuilder.Value;
      ResetTransaction();
      sm.Reset();
      if sm.state == Greeted || sm.state == Identified {
        state := sm.state;
      } else {
        state := Identified;
      }
      r := OK;
    }

    method HandleQUIT() returns (r: Response)
      requires Valid()
      modifies sm
      ensures Valid()
      ensures var h := Session.HandleQUIT(old(Value())); Value() == h.s && r == h.reply
    {
      hide Say, SM.Apply, MemStorage.Valid, BufferedConn.Unread, EnvelopeBuilder.Valid, EnvelopeBuilder.Value;
      var _ := sm.TransitionForCommand(QUIT, true);
      var _ := sm.Terminate();
      r := BYE;
    }

    method HandleSTARTTLS() returns (r: Response)
      requires Valid()
      modifies sm, this`state
      ensures Valid()
      ensures var h := Session.HandleSTARTTLS(cfg, old(Value())); Value() == h.s && r == h.reply
    {
      hide Say, SM.Apply, MemStorage.Valid, BufferedConn.Unread, EnvelopeBuilder.Valid, EnvelopeBuilder.Value;
      if cfg.tlsPolicy == TLSDisabled {
        return NOT_IMPLEMENTED;
      }
      if tls {
        return NewResponse(503, Say(TLSAlready));
      }
      if !cfg.tlsProvider {
        return NewResponse(454, Say(TLSUnavailable));
      }
      var _ := sm.TransitionForCommand(STARTTLS, true);
      state := StartTLS;
      r := NewResponse(220, Say(ReadyForTLS));
    }

    method HandleVRFY() returns (r: Response)
      requires Valid()
      ensures r == Session.HandleVRFY(cfg, Value()).reply
    {
      if !cfg.ext.vrfy {
        return NOT_IMPLEMENTED;
      }
      r := NewResponse(252, Say(CannotVerify));
    }

    method HandleHELP() returns (r: Response)
      requires Valid()
      ensures r == Session.HandleHELP(cfg, Value()).reply
    {
      hide Say;
      if !cfg.ext.help {
        return NOT_IMPLEMENTED;
      }
      var additional := Say(HelpMore);
      if cfg.ext.starttls && cfg.tlsPolicy != TLSDisabled && cfg.tlsProvider && !tls {
        additional := additional + Say(HelpTLS);
      }
      assert Say(HelpMore) + "" == Say(HelpMore);
      r := Response(214, None, [Say(HelpHeader), Say(HelpBasic), additional, Say(HelpFooter)]);
    }

    method Handle(cmd: Command, o: Oracle) returns (r: Response, ghost body: seq<string>)
      requires Valid() && (cmd.verb == RCPT || cmd.verb == DATA ==> envelope != null)
      modifies Repr
      ensures Valid() && fresh(Repr - old(Repr))
      ensures old(storage.history) <= storage.history
      ensures var h := Session.Handle(cfg, old(Value()), cmd, o);
              Value() == h.s && r == h.reply && body == h.body
    {
      hide Valid, Value, Say, Session.HandleHELO, Session.HandleEHLO, Session.HandleMAIL, Session.HandleRCPT;
      hide Session.HandleDATA, Session.HandleRSET, Session.HandleQUIT, Session.HandleSTARTTLS;
      ghost var s := Value();
      OnlyDataHasBody(cfg, s, cmd, o);
      body := [];
      match cmd.verb {
        case HELO => r := HandleHELO(cmd);
        case EHLO => r := HandleEHLO(cmd);
        case MAIL => r := HandleMAIL(cmd, o);
        case RCPT => r := HandleRCPT(cmd, o);
        case DATA => r, body := HandleDATA(o);
        case RSET => r := HandleRSET();
        case NOOP => r := OK;
        case QUIT => r := HandleQUIT();
        case VRFY => r := HandleVRFY();
        case HELP => r := HandleHELP();
        case STARTTLS => r := HandleSTARTTLS();
        case EXPN | AUTH => r := NOT_IMPLEMENTED;
      }
    }

    /** Records what an observer of the connection has seen. */
    ghost method Note(e: Event)
      requires Valid()
      modifies this`log
      ensures Valid() && Value() == Record(old(Value()), e)
    {
      hide MemStorage.Valid, BufferedConn.Unread, EnvelopeBuilder.Valid, EnvelopeBuilder.Value;
      log := log + [e];
    }

    method OnUnparsed(line: string, o: Oracle) returns (err: Option<ErrKind>)
      requires Valid()
      modifies Repr
      ensures Valid() && Repr == old(Repr)
      ensures storage.history == old(storage.history)
      ensures Progress(Value(), err) == Session.OnUnparsed(cfg, old(Value()), line, o)
    {
      hide Say, SM.Apply, MemStorage.Valid, BufferedConn.Unread, EnvelopeBuilder.Valid, EnvelopeBuilder.Value;
      hide Bytes, Passed;
      errors := errors + 1;
      if TooManyErrors(cfg, errors) {
        var _ := WriteResponse(TOO_MANY_ERRORS, o.final);
        var _ := sm.Abort();
        Note(Exchange(line, Unparsed, [], [TOO_MANY_ERRORS], o.final.None?));
        return Some(OtherError);
      }
      var _ := WriteResponse(SYNTAX_ERROR, o.final);
      Note(Exchange(line, Unparsed, [], [SYNTAX_ERROR], o.final.None?));
      err := Some(OtherError);
    }

    method OnHandled(line: string, cmd: Command, o: Oracle) returns (err: Option<ErrKind>)
      requires Valid() && Shape(Value()) && exit.None? && IsCommandAllowed(sm.state, cmd.verb)
      modifies Repr
      ensures Valid() && fresh(Repr - old(Repr))
      ensures old(storage.history) <= storage.history
      ensures Progress(Value(), err) == Session.OnHandled(cfg, old(Value()), line, cmd, o)
    {
      hide Say, Bytes, Passed, Session.Handle, Shape, IsCommandAllowed, MemStorage.Valid, ArraysOf;
      hide EnvelopeBuilder.Valid, EnvelopeBuilder.Value, BufferedConn.Unread;
      ghost var s := Value();
      assert s.sm.state == sm.state && s.exit == exit && (s.envelope.Some? ==> envelope != null);
      hide Valid, Value;
      NeedsEnvelope(s, cmd.verb);
      HandleKeepsShape(cfg, s, cmd, o);
      var r;
      ghost var body;
      r, body := Handle(cmd, o);
      var werr := WriteResponse(r, o.final);
      Note(Exchange(line, Handled(cmd), body, Session.Handle(cfg, s, cmd, o).earlier + [r], o.final.None?));
      if werr.Some? {
        return werr;
      }
      if IsPositive(r.code) {
        ClearErrors();
      }
      err := None;
    }

    method ClearErrors()
      requires Valid()
      modifies this`errors
      ensures Valid() && Value() == old(Value()).(errors := 0)
    {
      hide MemStorage.Valid, BufferedConn.Unread, EnvelopeBuilder.Valid, EnvelopeBuilder.Value;
      errors := 0;
    }

    method ProcessOneCommand(o: Oracle) returns (err: Option<ErrKind>)
      requires Valid() && Shape(Value()) && exit.None?
      modifies Repr
      ensures Valid() && fresh(Repr - old(Repr))
      ensures old(storage.history) <= storage.history
      ensures Progress(Value(), err) == Session.ProcessOneCommand(cfg, old(Value()), o)
    {
      hide Say, MemStorage.Valid, BufferedConn.Unread, EnvelopeBuilder.Valid, EnvelopeBuilder.Value;
      hide NextLine, ParseCommand, Session.Dispatch, Shape;
      ghost var s := Value();
      var line, rerr := ReadLine(o.chunk);
      if line.Err? {
        return Some(rerr);
      }
      stats := stats.(commands := stats.commands + 1);
      ShapeByView(s, Value());
      err := Dispatch(line.value, o);
    }

    /** Parses, gates and hands over a command line. */
    method Dispatch(line: string, o: Oracle) returns (err: Option<ErrKind>)
      requires Valid() && Shape(Value()) && exit.None?
      modifies Repr
      ensures Valid() && fresh(Repr - old(Repr))
      ensures old(storage.history) <= storage.history
      ensures Progress(Value(), err) ==
              Session.Dispatch(cfg, old(Value()), line, ParseCommand(MaxCommandLength(cfg), line), o)
    {
      hide Say, MemStorage.Valid, BufferedConn.Unread, EnvelopeBuilder.Valid, EnvelopeBuilder.Value;
      hide ParseCommand, Session.OnHandled, Session.OnUnparsed, Bytes, Passed, Shape, SM.Apply;
      var parsed := ParseCommand(MaxCommandLength(cfg), line);
      if parsed.Err? {
        err := OnUnparsed(line, o);
        return;
      }
      var cmd := parsed.value;
      if o.hook.Some? {
        var _ := WriteResponse(TRANSACTION_FAILED, o.final);
        Note(Exchange(line, Refused(cmd), [], [TRANSACTION_FAILED], o.final.None?));
        return o.hook;
      }
      if !IsCommandAllowed(sm.state, cmd.verb) {
        errors := errors + 1;
        var _ := WriteResponse(BAD_SEQUENCE, o.final);
        Note(Exchange(line, OutOfSequence(cmd), [], [BAD_SEQUENCE], o.final.None?));
        return None;
      }
      err := OnHandled(line, cmd, o);
    }

    /** The new stream replaces the old one, and what was read ahead of the old one is dropped. */
    method Secure(stream: Stream)
      requires Valid()
      modifies conn, this`tls
      ensures Valid() && Value() == old(Value()).(tls := true, input := stream)
    {
      hide MemStorage.Valid, EnvelopeBuilder.Valid, EnvelopeBuilder.Value, SM.StateMachine.Value;
      conn.UpgradeTLS(stream);
      tls := true;
      conn.ResetReader();
    }

    /** The handshake, and a fresh start on the new stream. */
    method PerformTLSUpgrade(o: Oracle) returns (ok: bool)
      requires Valid()
      modifies Repr
      ensures Valid() && fresh(Repr - old(Repr))
      ensures storage.history == old(storage.history)
      ensures ok <==> o.upgrade.Some?
      ensures ok ==> Value() == PerformUpgrade(old(Value()), o)
      ensures !ok ==> Value() == old(Value())
    {
      hide SM.Apply, MemStorage.Valid, EnvelopeBuilder.Valid, EnvelopeBuilder.Value, BufferedConn.Unread;
      if o.upgrade.None? {
        return false;
      }
      Secure(o.upgrade.value);
      StartOver();
      Note(Upgraded);
      ok := true;
    }

    /** Back to the state after the greeting. */
    method StartOver()
      requires Valid()
      modifies this`state, this`host, this`envelope, this`Repr, sm, envelope
      ensures Valid() && fresh(Repr - old(Repr))
      ensures Value() == old(Value()).(sm := SM.Apply(old(Value()).sm, SM.CallTLSComplete), state := Greeted,
                                       envelope := None, host := "")
    {
      hide SM.Apply, MemStorage.Valid, EnvelopeBuilder.Valid, EnvelopeBuilder.Value, BufferedConn.Unread;
      var _ := sm.TLSComplete();
      state := Greeted;
      ResetTransaction();
      host := "";
    }

    /** One turn of the main loop. */
    method Iterate(o: Oracle)
      requires Valid() && Shape(Value()) && exit.None?
      modifies Repr
      ensures Valid() && fresh(Repr - old(Repr))
      ensures Value() == Step(cfg, old(Value()), o)
      ensures old(storage.history) <= storage.history && old(storage.values) <= storage.values
      ensures forall i :: 0 <= i < |old(storage.history)| ==>
                && storage.history[i] == old(storage.history[i]) && storage.history[i].Valid()
                && storage.history[i].Value() == old(storage.history[i].Value())
    {
      hide Shape, Step, BufferedConn.Unread, EnvelopeBuilder.Valid, EnvelopeBuilder.Value, ArraysOf, Holds;
      StepStores(cfg, Value(), o);
      ghost var before := storage.history;
      assert forall i :: 0 <= i < |before| ==> before[i].Valid() && before[i].Value() == storage.values[i];
      IterateOnce(o);
      StoredStill(old(storage.values));
    }

    /** Every message that was stored is there, with the octets and recipients it had. */
    lemma StoredStill(was: seq<Envelope>)
      requires Valid() && was <= storage.values
      ensures forall i :: 0 <= i < |was| ==>
                && i < |storage.history| && storage.history[i].Valid() && storage.history[i].Value() == was[i]
    {
    }

    method IterateOnce(o: Oracle)
      requires Valid() && Shape(Value()) && exit.None?
      modifies Repr
      ensures Valid() && fresh(Repr - old(Repr))
      ensures old(storage.history) <= storage.history
      ensures Value() == Step(cfg, old(Value()), o)
    {
      hide MemStorage.Valid, BufferedConn.Unread, EnvelopeBuilder.Valid, EnvelopeBuilder.Value;
      hide Session.ProcessOneCommand, PerformUpgrade, Shape;
      ghost var s := Value();
      if sm.state.IsTerminal() {
        exit := Some(Normal);
        return;
      }
      if state == StartTLS {
        var ok := PerformTLSUpgrade(o);
        if !ok {
          UpgradeFails(s, o);
          exit := Some(TlsFailed);
        }
        return;
      }
      var err := ProcessOneCommand(o);
      StepKeepsExit(cfg, s, o);
      if err.Some? {
        if sm.state.IsTerminal() {
          exit := Some(Normal);
        } else if err.value == Timeout {
          exit := Some(TimedOut);
        } else if err.value == IoError {
          exit := Some(IoFailed);
        }
      }
    }

    method SendGreeting(o: Oracle) returns (err: Option<ErrKind>)
      requires Valid() && Value() == Unstarted(Value().input)
      modifies Repr
      ensures Valid() && Repr == old(Repr)
      ensures err.None? <==> o.final.None?
      ensures Value() == Emit(old(Value()).(sm := SM.Apply(SM.INITIAL, SM.CallConnect)), Greeting(cfg), o.final)
    {
      hide Say, Bytes, Passed, SM.Apply, MemStorage.Valid, EnvelopeBuilder.Valid, EnvelopeBuilder.Value;
      hide BufferedConn.Unread;
      var _ := sm.Connect();
      err := WriteResponse(Greeting(cfg), o.final);
    }

    method Begin(o: Oracle)
      requires Valid() && Value() == Unstarted(Value().input)
      modifies Repr
      ensures Valid() && Repr == old(Repr)
      ensures Value() == Start(cfg, old(Value()).input, o)
    {
      hide Say, Bytes, Passed, SM.Apply, MemStorage.Valid, EnvelopeBuilder.Valid, EnvelopeBuilder.Value;
      hide BufferedConn.Unread;
      var err := SendGreeting(o);
      if err.Some? {
        exit := Some(IoFailed);
        return;
      }
      var _ := sm.Greet();
      state := Greeted;
    }

    /** The main loop, from any state on. The context is cancelled at the top of the turn after
        `deadline` of them. The session becomes what the session function says after n turns, or
        is cut off by the deadline while that has not ended. Every envelope that was in the store
        keeps its recipients and octets, read through the shared arrays by whoever holds it; and
        unless an identifier comes twice, the table still has it where it was. */
    method Loop(w: nat -> Oracle, start: nat, deadline: nat) returns (r: Exit, ghost n: nat)
      requires Valid() && Shape(Value())
      modifies Repr
      ensures Valid() && n <= deadline && exit == Some(r) && r != Panic
      ensures var s := RunFrom(cfg, old(Value()), w, start, n);
              || Value() == s
              || (n == deadline && s.exit.None? && r == TimedOut && Value() == s.(exit := Some(TimedOut)))
      ensures forall k :: k in old(storage.messages) ==>
                && old(storage.messages)[k].Valid()
                && old(storage.messages)[k].Value() == old(storage.messages[k].Value())
      ensures old(storage.messages).Keys <= storage.messages.Keys
      ensures DistinctIds(storage.values) ==>
                forall k :: k in old(storage.messages) ==>
                  && k in storage.messages && storage.messages[k].Valid()
                  && storage.messages[k].Value() == old(storage.messages[k].Value())
    {
      hide Step, Shape, RunFrom, BufferedConn.Unread, EnvelopeBuilder.Valid, EnvelopeBuilder.Value, ArraysOf;
      hide ById, Indexed, DistinctIds, DataSize, Unchanged;
      ghost var messages, history, values := storage.messages, storage.history, storage.values;
      storage.Indexes();
      assert forall k :: k in messages ==> messages[k].Valid() && messages[k].Value() == ById(values)[k];
      r, n := Turns(w, start, deadline);
      storage.StillHeld(messages, history, values);
      ByIdGrows(values, storage.values);
    }

    method Turns(w: nat -> Oracle, start: nat, deadline: nat) returns (r: Exit, ghost n: nat)
      requires Valid() && Shape(Value())
      modifies Repr
      ensures Valid() && n <= deadline && exit == Some(r) && r != Panic
      ensures var s := RunFrom(cfg, old(Value()), w, start, n);
              || Value() == s
              || (n == deadline && s.exit.None? && r == TimedOut && Value() == s.(exit := Some(TimedOut)))
      ensures old(storage.history) <= storage.history && old(storage.values) <= storage.values
    {
      hide Step, Shape, Value, Valid;
      ghost var s := Value();
      n := 0;
      var i := 0;
      ExitOf();
      while exit.None? && i < deadline
        invariant Valid() && fresh(Repr - old(Repr)) && n == i <= deadline
        invariant Value() == RunFrom(cfg, s, w, start, n) && Value().exit == exit && Shape(Value())
        invariant old(storage.history) <= storage.history && old(storage.values) <= storage.values
        decreases deadline - i
      {
        StepKeepsShape(cfg, Value(), w(start + i + 1));
        Iterate(w(start + i + 1));
        i := i + 1;
        n := n + 1;
        ExitOf();
      }
      NoPanic(Value());
      if exit.None? {
        CutOff();
        return TimedOut, n;
      }
      r := exit.value;
    }

    /** A whole session: it ends as the session function says after n turns, or is cut off by the
        deadline while that has not ended; it never crashes. */
    method Run(w: nat -> Oracle, deadline: nat) returns (r: Exit, ghost n: nat)
      requires Valid() && Value() == Unstarted(Value().input)
      modifies Repr
      ensures Valid() && n <= deadline && exit == Some(r) && r != Panic
      ensures var s := Session.Run(cfg, old(Value()).input, w, n);
              || Value() == s
              || (n == deadline && s.exit.None? && r == TimedOut && Value() == s.(exit := Some(TimedOut)))
    {
      hide Step, Start, Session.Run, RunFrom, Shape, Value, Valid;
      ghost var input := Value().input;
      Begin(w(0));
      RunZero(cfg, input, w);
      ReachableStates(cfg, input, w, 0);
      r, n := Loop(w, 0, deadline);
      RunSplits(cfg, input, w, 0, n);
    }

    lemma ExitOf()
      requires Valid()
      ensures Value().exit == exit
    {
    }

    method CutOff()
      requires Valid()
      modifies this`exit
      ensures Valid() && Value() == old(Value()).(exit := Some(TimedOut)) && exit == Some(TimedOut)
    {
      hide MemStorage.Valid, BufferedConn.Unread, EnvelopeBuilder.Valid, EnvelopeBuilder.Value;
      exit := Some(TimedOut);
    }
  }

  /** A session after a DATA phase has been read into its builder. */
  ghost function Streamed(s: Sess, ph: DataPhase): Sess
    requires s.envelope.Some?
  {
    s.(input := ph.rest,
       stats := s.stats.(bytesRead := s.stats.bytesRead + |Concat(ph.lines)|),
       envelope := Some(s.envelope.value.(data := s.envelope.value.data + ph.written)))
  }

  /** The outcome of a DATA phase does not depend on what the session still holds as builder. */
  lemma ReceiveIgnoresEnvelope(cfg: Config, s: Sess, t: Sess, d: Draft, o: Oracle)
    requires t == s.(envelope := t.envelope)
    ensures Session.ReceiveData(cfg, s, d, o) == Session.ReceiveData(cfg, t, d, o)
  {
    hide Say, SM.Apply, DataCodec.StreamData, Concat;
  }

  lemma OnlyDataHasBody(cfg: Config, s: Sess, cmd: Command, o: Oracle)
    ensures cmd.verb != DATA ==> Session.Handle(cfg, s, cmd, o).body == []
  {
    hide Say, SM.Apply, ParseMailPath, ParseHeloHostname, DeclaredTooLarge, EhloLines, Session.HandleDATA;
  }

  lemma ShapeByView(s: Sess, t: Sess)
    requires Shape(s)
    requires t == s.(input := t.input, stats := t.stats)
    ensures Shape(t)
  {
  }

  /** Where RCPT and DATA are allowed there is a builder. */
  lemma NeedsEnvelope(s: Sess, v: Verb)
    requires Shape(s) && s.exit.None? && IsCommandAllowed(s.sm.state, v)
    ensures v == RCPT || v == DATA ==> s.envelope.Some?
  {
  }

  function Unstarted(input: Stream): Sess {
    Sess(SM.INITIAL, Disconnected, "", false, 0, FRESH_STATS, None, input, "", [], [], None)
  }

  lemma RunZero(cfg: Config, input: Stream, w: nat -> Oracle)
    ensures Session.Run(cfg, input, w, 0) == Start(cfg, input, w(0))
  {
    hide Start;
  }

  lemma NoPanic(s: Sess)
    requires Shape(s)
    ensures s.exit != Some(Panic)
  {
  }

  lemma UpgradeFails(s: Sess, o: Oracle)
    requires o.upgrade.None?
    ensures PerformUpgrade(s, o) == s.(exit := Some(TlsFailed))
  {
  }

  lemma StepKeepsExit(cfg: Config, s: Sess, o: Oracle)
    requires Shape(s) && s.exit.None? && !s.sm.state.IsTerminal() && s.state != StartTLS
    ensures Session.ProcessOneCommand(cfg, s, o).s.exit.None?
  {
    hide NextLine, ParseCommand, Dispatch;
    match NextLine(s.input)
    case Failed(_, _) =>
    case Line(line, rest) =>
      DispatchKeepsShape(cfg, TakeLine(s, line, rest), line, ParseCommand(MaxCommandLength(cfg), line), o);
  }

  lemma PhaseOf(cfg: Config, s: Sess)
    ensures Phase(cfg, s) ==
            DataCodec.StreamData(cfg.limits.maxLineLength, cfg.limits.maxMessageSize, 0, s.input)
  {
    hide DataCodec.StreamData;
  }

  lemma StreamStart(s: Sess, ph: DataPhase)
    requires s.envelope.Some?
    ensures s == Streamed(s, DataPhase(AtTerminator, "", [], s.input))
    ensures ph == Joined("", [], ph)
  {
    assert s.envelope.value.data + "" == s.envelope.value.data;
  }

  /** How a session looks when a read has been tried, whatever the phase ends with. */
  lemma StreamTurn(s: Sess, written: string, lines: seq<string>, n: ReadResult)
    requires s.envelope.Some?
    ensures var t := Streamed(s, DataPhase(AtTerminator, written, lines, s.input));
            var more := if n.Line? then lines + [n.line] else lines;
            var read := if n.Line? then |n.line| else 0;
            forall end, now {:trigger Streamed(s, DataPhase(end, written, more, now))} ::
              Streamed(s, DataPhase(end, written, more, now)) ==
              t.(input := now, stats := t.stats.(bytesRead := t.stats.bytesRead + read))
  {
    hide Concat;
    if n.Line? {
      OneMoreLine(lines, n.line);
    }
  }

  lemma OneMoreLine(lines: seq<string>, line: string)
    ensures |Concat(lines + [line])| == |Concat(lines)| + |line|
  {
    ConcatAppend(lines, [line]);
    assert Concat([line]) == line;
  }

  lemma StreamWrite(s: Sess, written: string, u: string, lines: seq<string>, rest: Stream)
    requires s.envelope.Some?
    ensures var t := Streamed(s, DataPhase(AtTerminator, written, lines, rest));
            && t.envelope.Some?
            && Streamed(s, DataPhase(AtTerminator, written + u, lines, rest)) ==
               t.(envelope := Some(t.envelope.value.(data := t.envelope.value.data + u)))
  {
    hide Concat;
    var d := s.envelope.value;
    assert (d.data + written) + u == d.data + (written + u);
  }

  /** A server for one connection. The session ends as the session function says after n turns on
      the input, or is cut off by the deadline; and reading the table of the store then gives, under every identifier, the latest message that the log says was accepted
      with it; and if identifiers are fresh, every message accepted is there and nothing else. */
  method Serve(cfg: Config, input: Stream, w: nat -> Oracle, deadline: nat)
    returns (e: Engine, r: Exit, ghost n: nat)
    requires HonestWorld(w)
    ensures e.Valid() && e.cfg == cfg && r != Panic && e.exit == Some(r) && n <= deadline
    ensures var s := Session.Run(cfg, input, w, n);
            || e.Value() == s
            || (n == deadline && s.exit.None? && r == TimedOut && e.Value() == s.(exit := Some(TimedOut)))
    ensures Contents(e.storage.values) == if cfg.storage then Delivered(cfg, e.log) else []
    ensures Unchanged(e.storage.history, e.storage.values)
    ensures e.storage.messages.Keys == ById(e.storage.values).Keys
    ensures forall k :: k in e.storage.messages ==>
              e.storage.messages[k].Valid() && e.storage.messages[k].Value() == ById(e.storage.values)[k]
    ensures FreshIds(w) && cfg.storage ==>
              && |e.storage.messages| == |Delivered(cfg, e.log)|
              && forall i :: 0 <= i < |e.storage.values| ==>
                   var k := e.storage.values[i].id;
                   && k in e.storage.messages && e.storage.messages[k].Valid()
                   && e.storage.messages[k].Value().content == Delivered(cfg, e.log)[i]
    ensures e.stats.messages == |Delivered(cfg, e.log)|
  {
    hide Session.Run, Start, Delivered, Shape, Recorded, Tracked, FreshIds, ById, ArraysOf, Unchanged;
    hide BufferedConn.Unread, EnvelopeBuilder.Valid, EnvelopeBuilder.Value, Issued, DataSize, DistinctIds;
    e := new Engine(cfg, input);
    r, n := e.Run(w, deadline);
    RunKeeps(cfg, input, w, n);
    if FreshIds(w) {
      StoredIdsDistinct(cfg, input, w, n);
      e.storage.TableKeepsAll();
    }
  }
}
