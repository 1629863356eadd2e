/** Which states a session can be in between two iterations of its loop. */
module SessionStates {
  import opened Text
  import opened Conn
  import opened Protocol
  import opened StateMachine
  import opened Parser
  import opened DataCodec
  import opened Phrases
  import opened Reply
  import opened Envelopes
  import opened Session

  /** A builder as the engine keeps it: sender set, nothing written, no writer, not finalized. */
  predicate IsOpen(d: Draft) {
    d.mailFrom.Some? && !d.finalized && d.writer == NoWriter && d.data == ""
  }

  /** The two copies of the state agree. */
  predicate InStep(s: Sess) {
    && s.sm.state == s.state
    && match s.state
       case Greeted => s.envelope.None?
       case Identified => s.envelope.None?
       case StartTLS => s.envelope.None? && !s.tls
       case MailFrom => s.envelope.Some? && IsOpen(s.envelope.value) && s.envelope.value.recipients == []
       case RcptTo => s.envelope.Some? && IsOpen(s.envelope.value) && s.envelope.value.recipients != []
       case _ => false
  }

  /** A DATA phase has failed: the machine is still in Data, the engine believes it is back in
      Identified and has dropped the builder. */
  predicate IsStuck(s: Sess) {
    s.sm.state == Data && s.state == Identified && s.envelope.None?
  }

  /** The greeting could not be sent. */
  predicate NeverGreeted(s: Sess) {
    s.sm.state == Connected && s.exit == Some(IoFailed)
  }

  /** The reachable states. */
  predicate Shape(s: Sess) {
    && s.exit != Some(Panic)
    && (InStep(s) || IsStuck(s) || s.sm.state.IsTerminal() || NeverGreeted(s))
  }

  lemma MailKeepsShape(cfg: Config, s: Sess, cmd: Command, o: Oracle)
    requires InStep(s) && s.state == Identified
    ensures var h := HandleMAIL(cfg, s, cmd, o); InStep(h.s) && h.s.exit == s.exit
  {
    hide Say, Apply, ParseMailPath, DeclaredTooLarge;
    CallMoves(s.sm);
  }

  lemma RcptKeepsShape(cfg: Config, s: Sess, cmd: Command, o: Oracle)
    requires InStep(s) && (s.state == MailFrom || s.state == RcptTo)
    ensures var h := HandleRCPT(cfg, s, cmd, o); InStep(h.s) && h.s.exit == s.exit
  {
    hide Say, Apply, ParseMailPath;
    CallMoves(s.sm);
  }

  lemma HeloKeepsShape(cfg: Config, s: Sess, cmd: Command)
    requires InStep(s) && (s.state == Greeted || s.state == Identified)
    ensures var h := HandleHELO(cfg, s, cmd); InStep(h.s) && h.s.exit == s.exit
    ensures var h := HandleEHLO(cfg, s, cmd); InStep(h.s) && h.s.exit == s.exit
  {
    hide Say, Apply, ParseHeloHostname, EhloLines;
    CallMoves(s.sm);
  }

  lemma QuitTerminates(s: Sess)
    requires IsCommandAllowed(s.sm.state, QUIT)
    ensures var h := HandleQUIT(s); h.s.sm.state == Terminated && h.s.exit == s.exit
  {
    hide Say, Apply;
    CallMoves(s.sm);
    CallMoves(Apply(s.sm, CallForCommand(QUIT, true)));
  }

  lemma OtherKeepsShape(cfg: Config, s: Sess)
    requires InStep(s)
    ensures IsCommandAllowed(s.state, RSET) ==>
              var h := HandleRSET(s); InStep(h.s) && h.s.exit == s.exit
    ensures s.state == Identified ==>
              var h := HandleSTARTTLS(cfg, s); InStep(h.s) && h.s.exit == s.exit
  {
    hide Say, Apply;
    CallMoves(s.sm);
  }

  /** The code for a phase that ended so, or at its terminator and could not be stored. */
  function FailureCode(end: DataEnd): nat {
    if end == MessageTooLarge then 552 else if end == LineTooLong then 500 else 451
  }

  /** What DATA comes to, with the builder never refusing: the 354 is lost and the session
      aborted; or the phase or the storage fails and the session is stuck; or the message is
      delivered and the session is back in Identified. */
  lemma DataOutcome(cfg: Config, s: Sess, o: Oracle)
    requires InStep(s) && s.state == RcptTo
    ensures var h := HandleDATA(cfg, s, o);
            var ph := Phase(cfg, s);
            var fails := ph.end != AtTerminator || (cfg.storage && !o.stores);
            && h.s.exit == s.exit && h.earlier == [START_MAIL_INPUT]
            && (o.first.Some? ==> h.s.sm.state == Aborted && h.reply == Response(0, None, []))
            && (o.first.None? && fails ==> IsStuck(h.s) && h.reply.code == FailureCode(ph.end))
            && (o.first.None? && !fails ==> InStep(h.s) && h.s.state == Identified && h.reply.code == 250)
  {
    hide Say, StreamData, Bytes, Passed, Apply, ReceiveData;
    var m := Apply(s.sm, CallForCommand(DATA, true));
    CallMoves(s.sm);
    CallMoves(m);
    if o.first.None? {
      var t := Emit(s.(sm := m, state := Data), START_MAIL_INPUT, o.first);
      ReceiveOutcome(cfg, t, t.envelope.value.OpenWriter().value, o);
    }
  }

  lemma ReceiveOutcome(cfg: Config, s: Sess, d: Draft, o: Oracle)
    requires s.sm.state == s.state == Data
    requires d.mailFrom.Some? && !d.finalized && d.writer == Writing && d.recipients != []
    ensures var h := ReceiveData(cfg, s, d, o);
            var ph := Phase(cfg, s);
            var fails := ph.end != AtTerminator || (cfg.storage && !o.stores);
            && h.s.exit == s.exit && h.earlier == [START_MAIL_INPUT]
            && (fails ==> IsStuck(h.s) && h.reply.code == FailureCode(ph.end))
            && (!fails ==> InStep(h.s) && h.s.state == Identified && h.reply.code == 250)
  {
    hide Say, StreamData, Apply;
    CallMoves(s.sm);
    CallMoves(Apply(s.sm, CallDataComplete));
  }

  /** No handler leaves these states, and none uses a builder that is not there. */
  lemma HandleKeepsShape(cfg: Config, s: Sess, cmd: Command, o: Oracle)
    requires Shape(s) && s.exit.None? && IsCommandAllowed(s.sm.state, cmd.verb)
    ensures var h := Handle(cfg, s, cmd, o); Shape(h.s) && h.s.exit.None?
  {
    assert InStep(s);
    hide Say, HandleHELO, HandleEHLO, HandleMAIL, HandleRCPT, HandleDATA, HandleRSET, HandleQUIT;
    hide HandleSTARTTLS, InStep;
    assert InStep(s) ==> s.sm.state == s.state by { StatesAgree(s); }
    match cmd.verb
    case HELO | EHLO => HeloKeepsShape(cfg, s, cmd);
    case MAIL => MailKeepsShape(cfg, s, cmd, o);
    case RCPT => RcptKeepsShape(cfg, s, cmd, o);
    case DATA => DataOutcome(cfg, s, o);
    case QUIT => QuitTerminates(s);
    case _ => OtherKeepsShape(cfg, s);
  }

  lemma StatesAgree(s: Sess)
    ensures InStep(s) ==> s.sm.state == s.state
  {
  }

  lemma DispatchKeepsShape(cfg: Config, s: Sess, line: string, parsed: Result<Command>, o: Oracle)
    requires Shape(s) && s.exit.None? && !s.sm.state.IsTerminal() && s.state != StartTLS
    ensures var p := Dispatch(cfg, s, line, parsed, o); Shape(p.s) && p.s.exit.None?
  {
    hide Say, Handle, Bytes, Passed;
    if parsed.Ok? && IsCommandAllowed(s.sm.state, parsed.value.verb) {
      HandleKeepsShape(cfg, s, parsed.value, o);
    }
  }

  lemma StepKeepsShape(cfg: Config, s: Sess, o: Oracle)
    requires Shape(s)
    ensures Shape(Step(cfg, s, o))
  {
    hide Say, Dispatch, NextLine, ParseCommand;
    if s.exit.None? && !s.sm.state.IsTerminal() && s.state != StartTLS {
      match NextLine(s.input)
      case Failed(_, _) =>
      case Line(line, rest) =>
        var t := TakeLine(s, line, rest);
        DispatchKeepsShape(cfg, t, line, ParseCommand(MaxCommandLength(cfg), line), o);
    }
  }

  /** Every state of every run. */
  lemma {:induction false} ReachableStates(cfg: Config, input: Stream, w: nat -> Oracle, n: nat)
    ensures Shape(Run(cfg, input, w, n))
  {
    hide Say, Step, Bytes, Passed;
    if n != 0 {
      ReachableStates(cfg, input, w, n - 1);
      StepKeepsShape(cfg, Run(cfg, input, w, n - 1), w(n));
    }
  }

  // ----- The observer of the machine -----

  /** One or two calls keep the chain of notifications. */
  lemma CallsKeepChain(m: Machine)
    requires Chain(m)
    ensures forall c :: Chain(Apply(m, c))
    ensures forall c, d :: Chain(Apply(Apply(m, c), d))
  {
    hide Apply, Chain;
    forall c
      ensures Chain(Apply(m, c)) && forall d :: Chain(Apply(Apply(m, c), d))
    {
      ApplyKeepsChain(m, c);
      forall d
        ensures Chain(Apply(Apply(m, c), d))
      {
        ApplyKeepsChain(Apply(m, c), d);
      }
    }
  }

  lemma DataKeepsChain(cfg: Config, s: Sess, o: Oracle)
    requires Chain(s.sm)
    ensures Chain(HandleDATA(cfg, s, o).s.sm)
  {
    hide Say, StreamData, Bytes, Passed, Apply, Chain, Concat;
    CallsKeepChain(s.sm);
    CallsKeepChain(Apply(s.sm, CallForCommand(DATA, true)));
  }

  lemma HandleKeepsChain(cfg: Config, s: Sess, cmd: Command, o: Oracle)
    requires Chain(s.sm)
    ensures Chain(Handle(cfg, s, cmd, o).s.sm)
  {
    hide Say, Apply, Chain, HandleDATA, ParseMailPath, ParseHeloHostname, EhloLines, DeclaredTooLarge;
    CallsKeepChain(s.sm);
    if cmd.verb == DATA {
      DataKeepsChain(cfg, s, o);
    }
  }

  lemma StepKeepsChain(cfg: Config, s: Sess, o: Oracle)
    requires Chain(s.sm)
    ensures Chain(Step(cfg, s, o).sm)
  {
    hide Say, Apply, Chain, Handle, ParseCommand, NextLine, Bytes, Passed;
    CallsKeepChain(s.sm);
    match NextLine(s.input)
    case Failed(_, _) =>
    case Line(line, rest) =>
      var parsed := ParseCommand(MaxCommandLength(cfg), line);
      if parsed.Ok? {
        HandleKeepsChain(cfg, TakeLine(s, line, rest), parsed.value, o);
      }
  }

  /** In every run the observer of the machine sees a chain of legal edges from Disconnected to
      the present state. */
  lemma {:induction false} RunKeepsChain(cfg: Config, input: Stream, w: nat -> Oracle, n: nat)
    ensures Chain(Run(cfg, input, w, n).sm)
  {
    hide Step, Bytes, Passed, Say;
    if n != 0 {
      RunKeepsChain(cfg, input, w, n - 1);
      StepKeepsChain(cfg, Run(cfg, input, w, n - 1), w(n));
    }
  }
}
