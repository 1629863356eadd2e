/** The engine's loop implements the abstract transaction system. */
module SessionEffects {
  import opened Text
  import opened Conn
  import opened Protocol
  import opened StateMachine
  import opened Parser
  import opened DataCodec
  import opened Phrases
  import opened Reply
  import opened Envelopes
  import opened Session
  import opened SessionStates
  import opened SessionLog

  /** A rejecting policy or mailbox answers with a negative reply. */
  predicate Honest(o: Oracle) {
    && (o.sender.Some? ==> 400 <= o.sender.value.code)
    && (o.mailbox.Some? ==> 400 <= o.mailbox.value.code)
  }

  /** The event that OnHandled records for an outcome. */
  function EventOf(line: string, cmd: Command, h: Outcome, o: Oracle): Event {
    Exchange(line, Handled(cmd), h.body, h.earlier + [h.reply], o.final.None?)
  }

  ghost predicate HasEffect(cfg: Config, s: Sess, line: string, cmd: Command, h: Outcome, o: Oracle) {
    && h.s.tls == s.tls && h.s.log == s.log && h.s.errors == s.errors
    && HandledEffect(cfg, s, h.s, EventOf(line, cmd, h, o))
    && h.s.stats.bytesRead == s.stats.bytesRead + |Concat(h.body)|
    && h.s.stats.commands == s.stats.commands
    && h.s.output == (if cmd.verb == DATA then s.output + Passed(Bytes(START_MAIL_INPUT), o.first)
                         else s.output)
    && (o.first.Some? && cmd.verb == DATA ==> h.reply.code == 0)
  }

  lemma HeloEffect(cfg: Config, s: Sess, line: string, cmd: Command, o: Oracle)
    requires InStep(s) && (s.state == Greeted || s.state == Identified)
    ensures cmd.verb == HELO ==> HasEffect(cfg, s, line, cmd, HandleHELO(cfg, s, cmd), o)
    ensures cmd.verb == EHLO ==> HasEffect(cfg, s, line, cmd, HandleEHLO(cfg, s, cmd), o)
  {
    hide Say, ParseMailPath, ParseHeloHostname, DeclaredTooLarge, EhloLines;
    hide StreamData, IsTerminator, Unstuffed, SizeFits, Bytes, Passed, Apply;
    CallMoves(s.sm);
  }

  /** Nothing but builder and state changes. */
  predicate OnlyTransaction(s: Sess, h: Outcome) {
    && h.s == s.(envelope := h.s.envelope, sm := h.s.sm, state := h.s.state)
    && h.body == [] && h.earlier == []
  }

  lemma MailResult(cfg: Config, s: Sess, cmd: Command, o: Oracle)
    requires InStep(s) && s.state == Identified && Honest(o)
    ensures var h := HandleMAIL(cfg, s, cmd, o);
            && OnlyTransaction(s, h)
            && if h.reply.code == 250 then MailEffect(cfg, s, h.s, cmd) else h.s == s
  {
    hide Say, ParseMailPath, DeclaredTooLarge, Apply;
    CallMoves(s.sm);
  }

  lemma MailHasEffect(cfg: Config, s: Sess, line: string, cmd: Command, o: Oracle)
    requires InStep(s) && s.state == Identified && cmd.verb == MAIL && Honest(o)
    ensures HasEffect(cfg, s, line, cmd, HandleMAIL(cfg, s, cmd, o), o)
  {
    hide Say, HandleMAIL, MailEffect, RcptEffect, IdentifyEffect, DeliverEffect, Bytes, Passed;
    MailResult(cfg, s, cmd, o);
  }

  lemma RcptResult(cfg: Config, s: Sess, cmd: Command, o: Oracle)
    requires InStep(s) && (s.state == MailFrom || s.state == RcptTo) && Honest(o)
    ensures var h := HandleRCPT(cfg, s, cmd, o);
            && OnlyTransaction(s, h)
            && if h.reply.code == 250 then RcptEffect(cfg, s, h.s, cmd) else h.s == s
  {
    hide Say, ParseMailPath, Apply;
    CallMoves(s.sm);
  }

  lemma RcptHasEffect(cfg: Config, s: Sess, line: string, cmd: Command, o: Oracle)
    requires InStep(s) && (s.state == MailFrom || s.state == RcptTo) && cmd.verb == RCPT && Honest(o)
    ensures HasEffect(cfg, s, line, cmd, HandleRCPT(cfg, s, cmd, o), o)
  {
    hide Say, HandleRCPT, MailEffect, RcptEffect, IdentifyEffect, DeliverEffect, Bytes, Passed;
    RcptResult(cfg, s, cmd, o);
  }

  lemma DataHasEffect(cfg: Config, s: Sess, line: string, cmd: Command, o: Oracle)
    requires InStep(s) && s.state == RcptTo && cmd.verb == DATA
    ensures HasEffect(cfg, s, line, cmd, HandleDATA(cfg, s, o), o)
  {
    hide Say, MailEffect, RcptEffect, IdentifyEffect, DeliverEffect, Bytes, Passed, Apply, ReceiveData;
    CallMoves(s.sm);
    var t := Emit(s.(sm := Apply(s.sm, CallForCommand(DATA, true)), state := Data), START_MAIL_INPUT, o.first);
    CallMoves(t.sm);
    if o.first.None? {
      hide HasEffect;
      var d := s.envelope.value.(writer := Writing);
      assert HandleDATA(cfg, s, o) == ReceiveData(cfg, t, d, o);
      ReceiveHasEffect(cfg, s, t, d, line, cmd, o);
    } else {
      var h := HandleDATA(cfg, s, o);
      assert LosesData(EventOf(line, cmd, h, o));
    }
  }

  /** The session between the 354 and the first line of the message. */
  ghost predicate Receiving(s: Sess, t: Sess) {
    && t.sm.state == Data && t.state == Data
    && t.tls == s.tls && t.log == s.log && t.errors == s.errors && t.host == s.host && SameMessages(s, t)
    && t.stats.bytesRead == s.stats.bytesRead && t.stats.commands == s.stats.commands
    && t.output == s.output + Bytes(START_MAIL_INPUT)
  }

  lemma ReceiveHasEffect(cfg: Config, s: Sess, t: Sess, d: Draft, line: string, cmd: Command, o: Oracle)
    requires InStep(s) && s.state == RcptTo && cmd.verb == DATA && o.first.None?
    requires Receiving(s, t) && d == s.envelope.value.(writer := Writing)
    ensures HasEffect(cfg, s, line, cmd, ReceiveData(cfg, t, d, o), o)
  {
    hide Say, MailEffect, RcptEffect, IdentifyEffect, DeliverEffect, Bytes, Passed, Apply, ReceiveData;
    ReceiveResult(cfg, s, t, d, o);
    var h := ReceiveData(cfg, t, d, o);
    var e := EventOf(line, cmd, h, o);
    assert e.replies[1] == h.reply && e.replies[0] == START_MAIL_INPUT;
  }

  lemma ReceiveResult(cfg: Config, s: Sess, t: Sess, d: Draft, o: Oracle)
    requires InStep(s) && s.state == RcptTo
    requires Receiving(s, t) && d == s.envelope.value.(writer := Writing)
    ensures var h := ReceiveData(cfg, t, d, o);
            && h.s.tls == s.tls && h.s.log == s.log && h.s.errors == s.errors && h.s.output == t.output
            && h.s.host == s.host && h.earlier == [START_MAIL_INPUT]
            && h.s.stats.bytesRead == s.stats.bytesRead + |Concat(h.body)|
            && h.s.stats.commands == s.stats.commands
            && if h.reply.code == 250 then DeliverEffect(cfg, s, h.s, h.body)
               else h.reply.code != 0 && IsStuck(h.s) && SameMessages(s, h.s)
  {
    hide Say, StreamData, IsTerminator, Unstuffed, SizeFits, Bytes, Passed, Apply, Concat;
    CallMoves(t.sm);
    CallMoves(Apply(t.sm, CallDataComplete));
    if Phase(cfg, t).end == AtTerminator {
      PhaseFacts(cfg, t);
      assert d.data + Phase(cfg, t).written == Phase(cfg, t).written;
    }
  }

  lemma PhaseFacts(cfg: Config, s: Sess)
    requires Phase(cfg, s).end == AtTerminator
    ensures var ph := Phase(cfg, s);
            && EndsAtTerminator(ph.lines)
            && ph.written == Unstuffed(ph.lines[..|ph.lines| - 1])
            && SizeFits(cfg.limits.maxMessageSize, |ph.written|)
  {
    hide StreamData, IsTerminator, Unstuffed, IsLine;
    LinesEndInLF(cfg.limits.maxLineLength, cfg.limits.maxMessageSize, 0, s.input);
    PhaseSound(cfg.limits.maxLineLength, cfg.limits.maxMessageSize, 0, s.input);
    PhaseWithinSize(cfg.limits.maxLineLength, cfg.limits.maxMessageSize, 0, s.input);
  }

  lemma RsetHasEffect(cfg: Config, s: Sess, line: string, cmd: Command, o: Oracle)
    requires InStep(s) && IsCommandAllowed(s.state, RSET) && cmd.verb == RSET
    ensures HasEffect(cfg, s, line, cmd, HandleRSET(s), o)
  {
    hide Say, ParseMailPath, ParseHeloHostname, DeclaredTooLarge, EhloLines;
    hide StreamData, IsTerminator, Unstuffed, SizeFits, Bytes, Passed, Apply;
    CallMoves(s.sm);
  }

  lemma QuitHasEffect(cfg: Config, s: Sess, line: string, cmd: Command, o: Oracle)
    requires InStep(s) && IsCommandAllowed(s.state, QUIT) && cmd.verb == QUIT
    ensures HasEffect(cfg, s, line, cmd, HandleQUIT(s), o)
  {
    hide Say, ParseMailPath, ParseHeloHostname, DeclaredTooLarge, EhloLines;
    hide StreamData, IsTerminator, Unstuffed, SizeFits, Bytes, Passed, Apply;
    CallMoves(s.sm);
    CallMoves(Apply(s.sm, CallForCommand(QUIT, true)));
  }

  lemma StartTLSHasEffect(cfg: Config, s: Sess, line: string, cmd: Command, o: Oracle)
    requires InStep(s) && s.state == Identified && cmd.verb == STARTTLS
    ensures HasEffect(cfg, s, line, cmd, HandleSTARTTLS(cfg, s), o)
  {
    hide Say, ParseMailPath, ParseHeloHostname, DeclaredTooLarge, EhloLines;
    hide StreamData, IsTerminator, Unstuffed, SizeFits, Bytes, Passed, Apply;
    CallMoves(s.sm);
  }

  /** Commands that change nothing, whatever they answer, unless it is taken for an acceptance. */
  lemma AnswerHasEffect(cfg: Config, s: Sess, line: string, cmd: Command, r: Response, o: Oracle)
    requires InStep(s) && IsCommandAllowed(s.state, cmd.verb)
    requires cmd.verb in {NOOP, VRFY, HELP, EXPN, AUTH}
    ensures HasEffect(cfg, s, line, cmd, Answer(s, r), o)
  {
    hide Say;
  }

  lemma HandleHasEffect(cfg: Config, s: Sess, line: string, cmd: Command, o: Oracle)
    requires InStep(s) && IsCommandAllowed(s.state, cmd.verb) && Honest(o)
    ensures HasEffect(cfg, s, line, cmd, Handle(cfg, s, cmd, o), o)
  {
    assert IsStateValidForCommand(s.state, cmd.verb) by { TablesAgree(s.state, cmd.verb); }
    hide Say, ParseMailPath, ParseHeloHostname, DeclaredTooLarge, EhloLines;
    hide StreamData, IsTerminator, Unstuffed, SizeFits, Bytes, Passed, HasEffect, InStep, Honest, IsCommandAllowed;
    hide HandleHELO, HandleEHLO, HandleMAIL, HandleRCPT, HandleDATA, HandleRSET, HandleQUIT, HandleSTARTTLS;
    match cmd.verb
    case HELO | EHLO => HeloEffect(cfg, s, line, cmd, o);
    case MAIL => MailHasEffect(cfg, s, line, cmd, o);
    case RCPT => RcptHasEffect(cfg, s, line, cmd, o);
    case DATA => DataHasEffect(cfg, s, line, cmd, o);
    case RSET => RsetHasEffect(cfg, s, line, cmd, o);
    case QUIT => QuitHasEffect(cfg, s, line, cmd, o);
    case STARTTLS => StartTLSHasEffect(cfg, s, line, cmd, o);
    case _ => AnswerHasEffect(cfg, s, line, cmd, Handle(cfg, s, cmd, o).reply, o);
  }

  /** Two states that agree on everything an effect speaks of. */
  predicate SameView(s: Sess, t: Sess) {
    && t.sm.state == s.sm.state && t.state == s.state && t.tls == s.tls && SameTransaction(s, t)
  }

  lemma EffectByView(cfg: Config, s: Sess, s': Sess, t: Sess, t': Sess, e: Event)
    requires SameView(s, s') && SameView(t, t')
    requires HasReply(e) && e.how.Handled? && HandledEffect(cfg, s', t, e)
    ensures HandledEffect(cfg, s, t', e)
  {
    hide Say, IdentifyEffect, MailEffect, RcptEffect, DeliverEffect, IsCommandAllowed;
    TransactionByView(cfg, s, s', t, t', e.how.cmd);
    DeliverByView(cfg, s, s', t, t', e.body);
  }

  lemma TransactionByView(cfg: Config, s: Sess, s': Sess, t: Sess, t': Sess, cmd: Command)
    requires SameView(s, s') && SameView(t, t')
    ensures IdentifyEffect(s', t, cmd) ==> IdentifyEffect(s, t', cmd)
    ensures MailEffect(cfg, s', t, cmd) ==> MailEffect(cfg, s, t', cmd)
    ensures RcptEffect(cfg, s', t, cmd) ==> RcptEffect(cfg, s, t', cmd)
  {
    hide ParseMailPath, ParseHeloHostname, DeclaredTooLarge;
  }

  lemma DeliverByView(cfg: Config, s: Sess, s': Sess, t: Sess, t': Sess, body: seq<string>)
    requires SameView(s, s') && SameView(t, t')
    ensures DeliverEffect(cfg, s', t, body) ==> DeliverEffect(cfg, s, t', body)
  {
    hide EndsAtTerminator, Unstuffed, SizeFits;
  }

  lemma InStepByView(s: Sess, t: Sess)
    requires InStep(s) && SameView(s, t)
    ensures InStep(t)
  {
  }

  lemma OnHandledAdvances(cfg: Config, s: Sess, line: string, rest: Stream, cmd: Command, o: Oracle)
    requires InStep(s) && s.exit.None? && s.state != StartTLS && IsCommandAllowed(s.state, cmd.verb)
    requires IsLine(line) && Honest(o) && ParseCommand(MaxCommandLength(cfg), line) == Ok(cmd)
    ensures Advances(cfg, s, OnHandled(cfg, TakeLine(s, line, rest), line, cmd, o).s)
  {
    hide Say, HandledEffect, Handle, ParseCommand, Bytes, AllBytes, InStep;
    assert s.sm.state == s.state by { StatesOf(s); }
    var s' := TakeLine(s, line, rest);
    InStepByView(s, s');
    HandleKeepsShape(cfg, s', cmd, o);
    HandleHasEffect(cfg, s', line, cmd, o);
    var h := Handle(cfg, s', cmd, o);
    var t := OnHandled(cfg, s', line, cmd, o).s;
    var e := EventOf(line, cmd, h, o);
    EffectByView(cfg, s, s', h.s, t, e);
    assert t.log[|t.log| - 1] == e;
    if h.reply.code != 0 {
      OutputOfHandled(cfg, s', line, cmd, h, o);
    }
  }

  lemma OutputOfHandled(cfg: Config, s: Sess, line: string, cmd: Command, h: Outcome, o: Oracle)
    requires HasEffect(cfg, s, line, cmd, h, o) && h.reply.code != 0
    ensures h.s.output + Bytes(h.reply) == s.output + AllBytes(h.earlier + [h.reply])
  {
    hide Say, HandledEffect, Bytes, Passed, AllBytes;
    AllBytesOfFew(START_MAIL_INPUT, h.reply);
    RepliesOf(cfg, s, h.s, EventOf(line, cmd, h, o));
    var rs := h.earlier + [h.reply];
    if cmd.verb == DATA {
      assert rs == [START_MAIL_INPUT, h.reply];
      assert Passed(Bytes(START_MAIL_INPUT), o.first) == Bytes(START_MAIL_INPUT);
      assert (s.output + Bytes(START_MAIL_INPUT)) + Bytes(h.reply)
          == s.output + (Bytes(START_MAIL_INPUT) + Bytes(h.reply));
    } else {
      assert rs == [h.reply];
    }
  }

  lemma RepliesOf(cfg: Config, s: Sess, t: Sess, e: Event)
    requires HasReply(e) && e.how.Handled? && HandledEffect(cfg, s, t, e)
    ensures if e.how.cmd.verb == DATA then |e.replies| == 2 && e.replies[0] == START_MAIL_INPUT
            else |e.replies| == 1
  {
  }

  lemma AllBytesOfFew(a: Response, b: Response)
    ensures AllBytes([b]) == Bytes(b)
    ensures AllBytes([a, b]) == Bytes(a) + Bytes(b)
  {
    hide Bytes;
    assert [b][..0] == [] && [a][..0] == [];
    assert [a, b][..1] == [a];
    assert AllBytes([a]) == "" + Bytes(a) == Bytes(a);
    assert AllBytes([b]) == "" + Bytes(b) == Bytes(b);
  }

  lemma OnUnparsedAdvances(cfg: Config, s: Sess, line: string, rest: Stream, o: Oracle)
    requires Shape(s) && s.exit.None? && !s.sm.state.IsTerminal() && s.state != StartTLS
    requires IsLine(line) && ParseCommand(MaxCommandLength(cfg), line).Err?
    ensures Advances(cfg, s, OnUnparsed(cfg, TakeLine(s, line, rest), line, o).s)
  {
    hide Say, ParseCommand, Bytes, Passed, AllBytes, Apply, InStep;
    AllBytesOfFew(SYNTAX_ERROR, TOO_MANY_ERRORS);
    AllBytesOfFew(TOO_MANY_ERRORS, SYNTAX_ERROR);
    CallMoves(s.sm);
    StatesOf(s);
    var t := OnUnparsed(cfg, TakeLine(s, line, rest), line, o).s;
    var e := t.log[|t.log| - 1];
    assert t.log == s.log + [e];
  }

  lemma StatesOf(s: Sess)
    requires Shape(s) && s.exit.None?
    ensures InStep(s) || IsStuck(s) || s.sm.state.IsTerminal()
    ensures s.sm.state in {Greeted, Identified, MailFrom, RcptTo, Data, StartTLS, State.Terminated, Aborted}
    ensures InStep(s) ==> s.sm.state == s.state
  {
  }

  lemma DispatchAdvances(cfg: Config, s: Sess, line: string, rest: Stream, o: Oracle)
    requires Shape(s) && s.exit.None? && !s.sm.state.IsTerminal() && s.state != StartTLS
    requires IsLine(line) && Honest(o)
    ensures var parsed := ParseCommand(MaxCommandLength(cfg), line);
            Advances(cfg, s, Dispatch(cfg, TakeLine(s, line, rest), line, parsed, o).s)
  {
    hide Say, ParseCommand, Bytes, Passed, AllBytes, OnHandled, OnUnparsed, InStep, Advances;
    var parsed := ParseCommand(MaxCommandLength(cfg), line);
    StatesOf(s);
    if parsed.Err? {
      OnUnparsedAdvances(cfg, s, line, rest, o);
    } else if o.hook.None? && IsCommandAllowed(s.sm.state, parsed.value.verb) {
      OnHandledAdvances(cfg, s, line, rest, parsed.value, o);
    } else {
      RefusedAdvances(cfg, s, line, rest, parsed.value, o);
    }
  }

  lemma RefusedAdvances(cfg: Config, s: Sess, line: string, rest: Stream, cmd: Command, o: Oracle)
    requires Shape(s) && s.exit.None? && !s.sm.state.IsTerminal() && s.state != StartTLS
    requires IsLine(line) && ParseCommand(MaxCommandLength(cfg), line) == Ok(cmd)
    requires o.hook.Some? || !IsCommandAllowed(s.sm.state, cmd.verb)
    ensures Advances(cfg, s, Dispatch(cfg, TakeLine(s, line, rest), line, Ok(cmd), o).s)
  {
    hide Say, ParseCommand, Bytes, Passed, AllBytes, OnHandled, InStep, HandledEffect;
    StatesOf(s);
    AllBytesOfFew(TRANSACTION_FAILED, BAD_SEQUENCE);
    AllBytesOfFew(BAD_SEQUENCE, TRANSACTION_FAILED);
    var t := Dispatch(cfg, TakeLine(s, line, rest), line, Ok(cmd), o).s;
    assert t.log == s.log + [t.log[|t.log| - 1]];
  }

  lemma UpgradeAdvances(cfg: Config, s: Sess, o: Oracle)
    requires InStep(s) && s.state == StartTLS && o.upgrade.Some?
    ensures Advances(cfg, s, PerformUpgrade(s, o))
  {
    hide Apply;
    CallMoves(s.sm);
    var t := PerformUpgrade(s, o);
    assert t.log == s.log + [t.log[|t.log| - 1]];
  }

  lemma UnhandledByView(cfg: Config, s: Sess, t: Sess, t': Sess, e: Event)
    requires SameView(t, t') && e.Exchange? && !e.how.Handled? && UnhandledEffect(cfg, s, t, e)
    ensures UnhandledEffect(cfg, s, t', e)
  {
    hide Say;
  }

  lemma AdvancesThenEnds(cfg: Config, s: Sess, t: Sess, u: Sess)
    requires Advances(cfg, s, t) && u == t.(exit := u.exit)
    ensures Advances(cfg, s, u)
  {
    hide HandledEffect, UnhandledEffect, ParseCommand, InStep, AllBytes;
    var e := t.log[|t.log| - 1];
    if e.Exchange? && e.how.Handled? {
      EffectByView(cfg, s, s, t, u, e);
    } else if e.Exchange? {
      UnhandledByView(cfg, s, t, u, e);
    }
  }

  /** Every iteration of every session with honest oracles is quiet or a step of the abstract
      transaction system. */
  lemma StepAdvances(cfg: Config, s: Sess, o: Oracle)
    requires Shape(s) && Honest(o)
    ensures Quiet(s, Step(cfg, s, o)) || Advances(cfg, s, Step(cfg, s, o))
  {
    hide Say, Dispatch, ParseCommand, NextLine, Advances, InStep;
    if s.exit.None? && !s.sm.state.IsTerminal() {
      StatesOf(s);
      if s.state == StartTLS {
        if o.upgrade.Some? {
          UpgradeAdvances(cfg, s, o);
        }
      } else {
        match NextLine(s.input)
        case Failed(_, _) =>
        case Line(line, rest) =>
          NextLineFacts(s.input);
          DispatchAdvances(cfg, s, line, rest, o);
          AdvancesThenEnds(cfg, s, ProcessOneCommand(cfg, s, o).s, Step(cfg, s, o));
      }
    }
  }
}
