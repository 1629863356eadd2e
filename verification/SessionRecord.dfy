/** What an iteration records: one exchange, whose lines are those that were read. */
module SessionRecord {
  import opened Text
  import opened Conn
  import opened Protocol
  import opened StateMachine
  import opened Parser
  import opened DataCodec
  import opened Phrases
  import opened Reply
  import opened Envelopes
  import opened Session
  import opened SessionStates
  import opened SessionLog

  /** A handler leaves TLS alone and takes from the input at most a DATA phase. */
  lemma HandleInput(cfg: Config, s: Sess, cmd: Command, o: Oracle)
    ensures var h := Handle(cfg, s, cmd, o);
            && h.s.tls == s.tls
            && ((h.s.input == s.input && h.body == [])
                || (h.s.input == Phase(cfg, s).rest && h.body == Phase(cfg, s).lines))
  {
    hide HandleHELO, HandleEHLO, HandleMAIL, HandleRCPT, HandleDATA, HandleHELP, HandleVRFY, Phase, Say, Apply;
    match cmd.verb
    case DATA => DataInput(cfg, s, o);
    case MAIL => MailInput(cfg, s, cmd, o);
    case RCPT => RcptInput(cfg, s, cmd, o);
    case HELO | EHLO | HELP | VRFY => TextInput(cfg, s, cmd);
    case _ =>
  }

  lemma MailInput(cfg: Config, s: Sess, cmd: Command, o: Oracle)
    ensures var h := HandleMAIL(cfg, s, cmd, o); h.s.tls == s.tls && h.s.input == s.input && h.body == []
  {
    hide Say, Apply, ParseMailPath, DeclaredTooLarge, MetadataOf;
  }

  lemma RcptInput(cfg: Config, s: Sess, cmd: Command, o: Oracle)
    ensures var h := HandleRCPT(cfg, s, cmd, o); h.s.tls == s.tls && h.s.input == s.input && h.body == []
  {
    hide Say, Apply, ParseMailPath;
  }

  lemma TextInput(cfg: Config, s: Sess, cmd: Command)
    ensures var h := HandleHELO(cfg, s, cmd); h.s.tls == s.tls && h.s.input == s.input && h.body == []
    ensures var h := HandleEHLO(cfg, s, cmd); h.s.tls == s.tls && h.s.input == s.input && h.body == []
    ensures var h := HandleHELP(cfg, s); h.s == s && h.body == []
    ensures var h := HandleVRFY(cfg, s); h.s == s && h.body == []
  {
    hide Say, Apply, ParseHeloHostname, EhloLines;
  }

  lemma DataInput(cfg: Config, s: Sess, o: Oracle)
    ensures var h := HandleDATA(cfg, s, o);
            && h.s.tls == s.tls
            && ((h.s.input == s.input && h.body == [])
                || (h.s.input == Phase(cfg, s).rest && h.body == Phase(cfg, s).lines))
  {
    hide Say, Apply, StreamData, Bytes, Passed, Concat;
  }

  lemma HandleKeepsLog(cfg: Config, s: Sess, cmd: Command, o: Oracle)
    ensures Handle(cfg, s, cmd, o).s.log == s.log
  {
    hide Say, Apply, ParseMailPath, ParseHeloHostname, EhloLines, DeclaredTooLarge, HandleDATA;
    if cmd.verb == DATA {
      DataKeepsLog(cfg, s, o);
    }
  }

  lemma DataKeepsLog(cfg: Config, s: Sess, o: Oracle)
    ensures HandleDATA(cfg, s, o).s.log == s.log
  {
    hide Say, Apply, StreamData, Bytes, Passed, Concat;
  }

  lemma BodyIsLines(cfg: Config, s: Sess, cmd: Command, o: Oracle)
    ensures forall l :: l in Handle(cfg, s, cmd, o).body ==> IsLine(l)
  {
    hide Handle, StreamData, IsLine;
    HandleInput(cfg, s, cmd, o);
    LinesEndInLF(cfg.limits.maxLineLength, cfg.limits.maxMessageSize, 0, s.input);
  }

  /** What a session that reads a line records: the line, what it parses to, and the lines that its
      handler took. */
  predicate Records(s: Sess, t: Sess, line: string, parsed: Result<Command>) {
    && |t.log| == |s.log| + 1 && s.log <= t.log
    && var e := t.log[|s.log|];
       && e.Exchange? && e.line == line
       && parsed == (if e.how.Unparsed? then Err else Ok(e.how.cmd))
       && (forall l :: l in e.body ==> IsLine(l))
  }

  lemma DispatchRecords(cfg: Config, s: Sess, line: string, parsed: Result<Command>, o: Oracle)
    requires Shape(s) && s.exit.None? && !s.sm.state.IsTerminal() && s.state != StartTLS
    ensures Records(s, Dispatch(cfg, s, line, parsed, o).s, line, parsed)
  {
    hide Say, Apply, Handle, Bytes, Passed, TooManyErrors, IsLine, Shape, IsCommandAllowed;
    if parsed.Ok? && IsCommandAllowed(s.sm.state, parsed.value.verb) {
      HandleKeepsShape(cfg, s, parsed.value, o);
      HandleKeepsLog(cfg, s, parsed.value, o);
      BodyIsLines(cfg, s, parsed.value, o);
    }
  }

  /** An event as an observer would write it down: one command line with what it parses to, and
      single lines after it. */
  predicate Genuine(cfg: Config, e: Event) {
    e.Exchange? ==>
      && IsLine(e.line) && (forall l :: l in e.body ==> IsLine(l))
      && ParseCommand(MaxCommandLength(cfg), e.line) == (if e.how.Unparsed? then Err else Ok(e.how.cmd))
  }

  lemma StepRecords(cfg: Config, s: Sess, o: Oracle)
    requires Shape(s)
    ensures var t := Step(cfg, s, o);
            && s.log <= t.log && |t.log| <= |s.log| + 1
            && (|s.log| < |t.log| ==> Genuine(cfg, t.log[|s.log|]))
  {
    hide Say, Apply, Dispatch, ParseCommand, NextLine, IsLine, Shape;
    if s.exit.None? && !s.sm.state.IsTerminal() && s.state != StartTLS {
      NextLineFacts(s.input);
      match NextLine(s.input)
      case Failed(_, _) =>
      case Line(line, rest) =>
        var s' := TakeLine(s, line, rest);
        ShapeOfTaken(s, line, rest);
        DispatchRecords(cfg, s', line, ParseCommand(MaxCommandLength(cfg), line), o);
    }
  }

  lemma ShapeOfTaken(s: Sess, line: string, rest: Stream)
    requires Shape(s)
    ensures Shape(TakeLine(s, line, rest))
  {
  }

  /** Every log of every run, whatever the oracles do. */
  lemma {:induction false} RunRecords(cfg: Config, input: Stream, w: nat -> Oracle, n: nat)
    ensures forall e :: e in Run(cfg, input, w, n).log ==> Genuine(cfg, e)
  {
    hide Step, Genuine, Say, Bytes, Passed, Apply;
    if n != 0 {
      hide Start;
      var s := Run(cfg, input, w, n - 1);
      RunRecords(cfg, input, w, n - 1);
      ReachableStates(cfg, input, w, n - 1);
      StepRecords(cfg, s, w(n));
      var t := Step(cfg, s, w(n));
      assert t.log == s.log + t.log[|s.log|..];
    }
  }

  /** Nothing recorded is ever taken back. */
  lemma {:induction false} LogGrows(cfg: Config, input: Stream, w: nat -> Oracle, m: nat, n: nat)
    requires m <= n
    ensures Run(cfg, input, w, m).log <= Run(cfg, input, w, n).log
    decreases n - m
  {
    hide Step, Start, Genuine;
    if m < n {
      LogGrows(cfg, input, w, m, n - 1);
      ReachableStates(cfg, input, w, n - 1);
      StepRecords(cfg, Run(cfg, input, w, n - 1), w(n));
    }
  }
}
