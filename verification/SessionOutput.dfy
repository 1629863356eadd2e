/** What a client reads: every run's output is its greeting and replies, framed. */
module SessionOutput {
  import opened Text
  import opened Conn
  import opened Protocol
  import opened StateMachine
  import opened Parser
  import opened DataCodec
  import opened Decimal
  import opened Phrases
  import opened Reply
  import opened Envelopes
  import opened Session
  import opened SessionStates
  import opened SessionLog
  import opened SessionEffects
  import opened SessionHistory
  import opened SessionFailure

  /** No oracle brings an LF or an odd code into a reply, and every write gets through. */
  ghost predicate Plain(o: Oracle) {
    && Honest(o) && '\n' !in o.id && o.first.None? && o.final.None?
    && (o.sender.Some? ==> WellFormed(o.sender.value))
    && (o.mailbox.Some? ==> WellFormed(o.mailbox.value))
  }

  ghost predicate PlainWorld(w: nat -> Oracle) {
    forall k: nat :: Plain(w(k))
  }

  predicate PlainId(s: Sess) {
    s.envelope.Some? ==> '\n' !in s.envelope.value.id
  }

  lemma PlainResponse(code: nat, text: string)
    requires 100 <= code <= 999 && '\n' !in text
    ensures WellFormed(NewResponse(code, text))
  {
  }

  lemma HelloIsPlain(cfg: Config, s: Sess, cmd: Command)
    requires '\n' !in cfg.serverHostname && '\n' !in cmd.argument
    ensures WellFormed(HandleHELO(cfg, s, cmd).reply) && WellFormed(HandleEHLO(cfg, s, cmd).reply)
  {
    hide Say, ParseHeloHostname, EhloLines;
    var r := ParseHeloHostname(cmd.argument);
    if r.Ok? {
      assert '\n' !in cfg.serverHostname + Say(HelloText) + r.value;
      OffersArePlain(cfg, r.value, s.tls);
    }
  }

  lemma OffersArePlain(cfg: Config, host: string, tls: bool)
    requires '\n' !in cfg.serverHostname + Say(HelloText) + host
    ensures forall l :: l in EhloLines(cfg, host, tls) ==> '\n' !in l
  {
    hide Say, Integer;
    NumberHasNoLF(cfg.limits.maxMessageSize);
    assert '\n' !in Say(SizeOffer) + Integer(cfg.limits.maxMessageSize);
  }

  lemma MailIsPlain(cfg: Config, s: Sess, cmd: Command, o: Oracle)
    requires Plain(o) && PlainId(s)
    ensures var h := HandleMAIL(cfg, s, cmd, o); WellFormed(h.reply) && PlainId(h.s)
  {
    hide Say, Apply, ParseMailPath, DeclaredTooLarge, MetadataOf;
  }

  lemma RcptIsPlain(cfg: Config, s: Sess, cmd: Command, o: Oracle)
    requires Plain(o) && PlainId(s)
    ensures var h := HandleRCPT(cfg, s, cmd, o); WellFormed(h.reply) && PlainId(h.s)
  {
    hide Say, Apply, ParseMailPath;
  }

  lemma DataIsPlain(cfg: Config, s: Sess, o: Oracle)
    requires Plain(o) && PlainId(s)
    ensures var h := HandleDATA(cfg, s, o); WellFormed(h.reply) && PlainId(h.s)
  {
    hide Say, Apply, Bytes, ReceiveData;
    var t := Emit(s.(sm := Apply(s.sm, CallForCommand(DATA, true)), state := Data), START_MAIL_INPUT, o.first);
    if t.envelope.Some? && t.envelope.value.OpenWriter().Ok? {
      ReceiveIsPlain(cfg, t, t.envelope.value.OpenWriter().value, o);
    }
  }

  lemma ReceiveIsPlain(cfg: Config, s: Sess, d: Draft, o: Oracle)
    requires '\n' !in d.id
    ensures var h := ReceiveData(cfg, s, d, o); WellFormed(h.reply) && PlainId(h.s)
  {
    hide Say, Apply, StreamData, Concat;
    assert '\n' !in Say(OkMessage) + d.id + Say(AcceptedText);
  }

  lemma OthersArePlain(cfg: Config, s: Sess)
    requires PlainId(s)
    ensures WellFormed(HandleHELP(cfg, s).reply) && WellFormed(HandleVRFY(cfg, s).reply)
    ensures WellFormed(HandleSTARTTLS(cfg, s).reply) && PlainId(HandleSTARTTLS(cfg, s).s)
    ensures WellFormed(HandleRSET(s).reply) && PlainId(HandleRSET(s).s)
    ensures WellFormed(HandleQUIT(s).reply) && PlainId(HandleQUIT(s).s)
    ensures WellFormed(OK) && WellFormed(NOT_IMPLEMENTED)
  {
    hide Say, Apply;
  }

  lemma HandleIsPlain(cfg: Config, s: Sess, cmd: Command, o: Oracle)
    requires '\n' !in cfg.serverHostname && '\n' !in cmd.argument && Plain(o) && PlainId(s)
    ensures var h := Handle(cfg, s, cmd, o); WellFormed(h.reply) && PlainId(h.s)
  {
    OthersArePlain(cfg, s);
    hide Say, Apply, Plain, WellFormed, HandleMAIL, HandleRCPT, HandleDATA, HandleSTARTTLS;
    hide HandleRSET, HandleQUIT, ParseHeloHostname, EhloLines;
    match cmd.verb
    case HELO | EHLO => HelloIsPlain(cfg, s, cmd);
    case MAIL => MailIsPlain(cfg, s, cmd, o);
    case RCPT => RcptIsPlain(cfg, s, cmd, o);
    case DATA => DataIsPlain(cfg, s, o);
    case _ =>
  }

  /** The replies of a log, and the name of the builder, bring no LF. */
  ghost predicate PlainLog(s: Sess) {
    && PlainId(s) && AllSent(s.log)
    && forall r :: r in RepliesIn(s.log) ==> WellFormed(r)
  }

  predicate AllSent(log: seq<Event>) {
    forall k :: 0 <= k < |log| && log[k].Exchange? ==> log[k].sent
  }

  lemma RepliesSnoc(log: seq<Event>, e: Event)
    ensures RepliesIn(log + [e]) == RepliesIn(log) + if e.Exchange? then e.replies else []
  {
    LogSnoc(log, e);
  }

  lemma OnHandledIsPlain(cfg: Config, s: Sess, line: string, rest: Stream, cmd: Command, o: Oracle)
    requires InStep(s) && s.exit.None? && IsCommandAllowed(s.state, cmd.verb)
    requires '\n' !in cfg.serverHostname && '\n' !in cmd.argument && Plain(o) && PlainLog(s)
    ensures PlainLog(OnHandled(cfg, TakeLine(s, line, rest), line, cmd, o).s)
  {
    hide Say, HandledEffect, Handle, Bytes, RepliesIn, WellFormed, InStep;
    assert s.sm.state == s.state by { StatesOf(s); }
    var s' := TakeLine(s, line, rest);
    InStepByView(s, s');
    HandleKeepsShape(cfg, s', cmd, o);
    HandleHasEffect(cfg, s', line, cmd, o);
    HandleIsPlain(cfg, s', cmd, o);
    var h := Handle(cfg, s', cmd, o);
    var e := EventOf(line, cmd, h, o);
    RepliesOf(cfg, s', h.s, e);
    RepliesSnoc(s.log, e);
    PlainResponse(354, Say(StartInput));
    assert forall r :: r in e.replies ==> r == h.reply || r == START_MAIL_INPUT;
  }

  lemma UnhandledIsPlain(cfg: Config, s: Sess, line: string, rest: Stream, parsed: Result<Command>, o: Oracle)
    requires parsed.Ok? ==> o.hook.Some? || !IsCommandAllowed(s.sm.state, parsed.value.verb)
    requires PlainLog(s) && o.final.None?
    ensures PlainLog(Dispatch(cfg, TakeLine(s, line, rest), line, parsed, o).s)
  {
    hide Say, Bytes, RepliesIn, Passed, OnHandled, Apply, WellFormed;
    PlainResponse(421, Say(TooManyErrorsText));
    PlainResponse(500, Say(Unrecognized));
    PlainResponse(503, Say(BadSequence));
    PlainResponse(554, Say(TransactionFailed));
    var t := Dispatch(cfg, TakeLine(s, line, rest), line, parsed, o).s;
    var e := t.log[|t.log| - 1];
    assert t.log == s.log + [e];
    RepliesSnoc(s.log, e);
  }

  lemma PlainByView(s: Sess, t: Sess)
    requires PlainLog(s) && t.log == s.log && t.envelope == s.envelope
    ensures PlainLog(t)
  {
    hide RepliesIn, WellFormed;
  }

  /** The output is the greeting and the replies recorded, in order. */
  ghost predicate Reported(cfg: Config, s: Sess) {
    PlainLog(s) && s.output == AllBytes([Greeting(cfg)] + RepliesIn(s.log))
  }

  lemma {:induction false} AllBytesAppend(a: seq<Response>, b: seq<Response>)
    ensures AllBytes(a + b) == AllBytes(a) + AllBytes(b)
    decreases |b|
  {
    hide Bytes;
    if b == [] {
      assert a + b == a;
    } else {
      var n := |b| - 1;
      AllBytesAppend(a, b[..n]);
      assert (a + b)[..|a| + n] == a + b[..n];
      assert AllBytes(a) + (AllBytes(b[..n]) + Bytes(b[n])) == (AllBytes(a) + AllBytes(b[..n])) + Bytes(b[n]);
    }
  }

  lemma StepIsPlain(cfg: Config, s: Sess, o: Oracle)
    requires Shape(s) && '\n' !in cfg.serverHostname && Plain(o) && PlainLog(s)
    ensures PlainLog(Step(cfg, s, o))
  {
    hide Say, Dispatch, ParseCommand, NextLine, InStep, RepliesIn, WellFormed;
    if s.exit.None? && !s.sm.state.IsTerminal() {
      StatesOf(s);
      if s.state == StartTLS {
        RepliesSnoc(s.log, Upgraded);
      } else {
        match NextLine(s.input)
        case Failed(_, rest) => PlainByView(s, s.(input := rest));
        case Line(line, rest) =>
          NextLineFacts(s.input);
          var parsed := ParseCommand(MaxCommandLength(cfg), line);
          if parsed.Ok? && o.hook.None? && IsCommandAllowed(s.sm.state, parsed.value.verb) {
            ArgumentIsOneLine(MaxCommandLength(cfg), line);
            OnHandledIsPlain(cfg, s, line, rest, parsed.value, o);
            DispatchHandled(cfg, TakeLine(s, line, rest), line, parsed, o);
          } else {
            UnhandledIsPlain(cfg, s, line, rest, parsed, o);
          }
          PlainByView(ProcessOneCommand(cfg, s, o).s, Step(cfg, s, o));
      }
    }
  }

  lemma DispatchHandled(cfg: Config, s: Sess, line: string, parsed: Result<Command>, o: Oracle)
    requires parsed.Ok? && o.hook.None? && IsCommandAllowed(s.sm.state, parsed.value.verb)
    ensures Dispatch(cfg, s, line, parsed, o) == OnHandled(cfg, s, line, parsed.value, o)
  {
    hide OnHandled;
  }

  lemma ReportedStep(cfg: Config, s: Sess, o: Oracle)
    requires Shape(s) && '\n' !in cfg.serverHostname && Plain(o) && Reported(cfg, s)
    ensures Reported(cfg, Step(cfg, s, o))
  {
    hide Step, RepliesIn, WellFormed, Advances, AllBytes, Say, Effect, PlainLog;
    var t := Step(cfg, s, o);
    StepIsPlain(cfg, s, o);
    StepAdvances(cfg, s, o);
    if Advances(cfg, s, t) {
      AdvanceOutput(cfg, s, t);
    }
  }

  lemma AdvanceOutput(cfg: Config, s: Sess, t: Sess)
    requires Advances(cfg, s, t) && PlainLog(t) && s.output == AllBytes([Greeting(cfg)] + RepliesIn(s.log))
    ensures t.output == AllBytes([Greeting(cfg)] + RepliesIn(t.log))
  {
    hide RepliesIn, AllBytes, Say, HandledEffect, UnhandledEffect, ParseCommand, InStep;
    var e := t.log[|t.log| - 1];
    RepliesSnoc(s.log, e);
    if e.Exchange? {
      assert FinalReply(e) in RepliesIn(t.log);
      AllBytesAppend([Greeting(cfg)] + RepliesIn(s.log), e.replies);
      assert [Greeting(cfg)] + RepliesIn(s.log) + e.replies == [Greeting(cfg)] + RepliesIn(t.log);
    } else {
      assert RepliesIn(t.log) == RepliesIn(s.log);
    }
  }

  lemma StartReported(cfg: Config, input: Stream, o: Oracle)
    requires o.final.None?
    ensures Reported(cfg, Start(cfg, input, o))
  {
    hide Say, Bytes, Apply;
    AllBytesOfFew(Greeting(cfg), Greeting(cfg));
    assert [Greeting(cfg)] + [] == [Greeting(cfg)];
  }

  lemma {:induction false} RunReported(cfg: Config, input: Stream, w: nat -> Oracle, n: nat)
    requires PlainWorld(w) && '\n' !in cfg.serverHostname
    ensures Reported(cfg, Run(cfg, input, w, n))
  {
    hide Step, Start, Reported, Plain;
    if n == 0 {
      assert w(0).final.None? by { PlainWrites(w(0)); }
      StartReported(cfg, input, w(0));
    } else {
      RunReported(cfg, input, w, n - 1);
      ReachableStates(cfg, input, w, n - 1);
      ReportedStep(cfg, Run(cfg, input, w, n - 1), w(n));
    }
  }

  lemma PlainWrites(o: Oracle)
    requires Plain(o)
    ensures o.final.None? && Honest(o)
  {
  }

  /** What a client reads from any run whose writes get through: the greeting and then, in the
      order of the log, exactly the replies recorded, each with its own lines and nothing left
      over. */
  lemma ClientReadsReplies(cfg: Config, input: Stream, w: nat -> Oracle, n: nat)
    requires PlainWorld(w) && '\n' !in cfg.serverHostname
    ensures var s := Run(cfg, input, w, n);
            var rs := [Greeting(cfg)] + RepliesIn(s.log);
            ReadReplies(s.output, |rs|) == Some((AllPrinted(rs), ""))
  {
    hide Run, ReadReplies, AllBytes, RepliesIn, Say;
    RunReported(cfg, input, w, n);
    var s := Run(cfg, input, w, n);
    var rs := [Greeting(cfg)] + RepliesIn(s.log);
    assert '\n' !in cfg.serverHostname + Say(Banner);
    PlainResponse(220, cfg.serverHostname + Say(Banner));
    FramingOfAll(rs, "");
    assert s.output + "" == s.output;
  }

  /** One final reply for every command line, and one 354 before it exactly for the DATA
      commands that were handled. */
  predicate Accounted(e: Event) {
    e.Exchange? ==>
      if IsHandled(e, DATA) then |e.replies| == 2 && e.replies[0] == START_MAIL_INPUT
      else |e.replies| == 1
  }

  lemma EffectAccounted(cfg: Config, s: Sess, t: Sess, e: Event)
    requires Effect(cfg, s, t, e)
    ensures Accounted(e)
  {
    hide Say, ParseMailPath, ParseHeloHostname, ParseCommand, DeclaredTooLarge, MetadataOf;
    hide EndsAtTerminator, Unstuffed, SizeFits, AllBytes, InStep;
  }

  ghost predicate Balanced(s: Sess) {
    && (forall k :: 0 <= k < |s.log| ==> Accounted(s.log[k]))
    && |RepliesIn(s.log)| == CommandsIn(s.log) + DataPhasesIn(s.log)
  }

  lemma AdvanceBalanced(cfg: Config, s: Sess, t: Sess)
    requires Balanced(s) && Advances(cfg, s, t)
    ensures Balanced(t)
  {
    hide Effect, Say;
    var e := t.log[|t.log| - 1];
    EffectExtends(cfg, s, t, e);
    EffectAccounted(cfg, s, t, e);
    LogSnoc(s.log, e);
    forall k | 0 <= k < |t.log|
      ensures Accounted(t.log[k])
    {
      assert t.log[k] == if k < |s.log| then s.log[k] else e;
    }
  }

  /** Every command line taken is answered by one final reply in its own exchange, with one 354
      before it for DATA; so the replies of a run are as many as its commands and DATA phases. */
  lemma {:induction false} RunBalanced(cfg: Config, input: Stream, w: nat -> Oracle, n: nat)
    requires HonestWorld(w)
    ensures var s := Run(cfg, input, w, n);
            && Balanced(s)
            && |RepliesIn(s.log)| == s.stats.commands + DataPhasesIn(s.log)
  {
    hide Run, Step, Advances, Balanced, Start, Kept;
    RunKeeps(cfg, input, w, n);
    CommandsRecorded(cfg, Run(cfg, input, w, n));
    if n == 0 {
      StartBalanced(cfg, input, w);
      BalancedCount(Run(cfg, input, w, 0));
    } else {
      RunStep(cfg, input, w, n);
      var s := Run(cfg, input, w, n - 1);
      RunBalanced(cfg, input, w, n - 1);
      ReachableStates(cfg, input, w, n - 1);
      StepAdvances(cfg, s, w(n));
      var t := Step(cfg, s, w(n));
      if Advances(cfg, s, t) {
        AdvanceBalanced(cfg, s, t);
      } else {
        BalancedByLog(s, t);
      }
      BalancedCount(t);
    }
  }

  lemma StartBalanced(cfg: Config, input: Stream, w: nat -> Oracle)
    ensures Balanced(Run(cfg, input, w, 0))
  {
    hide Say, Bytes, Passed, Apply;
  }

  lemma CommandsRecorded(cfg: Config, s: Sess)
    requires Kept(cfg, s)
    ensures s.stats.commands == CommandsIn(s.log)
  {
    hide Shape, Tracked, Ledger, HostOf, HasUpgrade, ErrorsIn, BytesIn;
  }

  lemma BalancedByLog(s: Sess, t: Sess)
    requires Balanced(s) && t.log == s.log
    ensures Balanced(t)
  {
  }

  lemma BalancedCount(s: Sess)
    requires Balanced(s)
    ensures |RepliesIn(s.log)| == CommandsIn(s.log) + DataPhasesIn(s.log)
  {
  }

  // ----- What was written -----

  /** All octets passed on, those of failed writes included, are counted. */
  predicate WritesCounted(s: Sess) { s.stats.bytesWritten == |s.output| }

  lemma HandleCounts(cfg: Config, s: Sess, cmd: Command, o: Oracle)
    requires WritesCounted(s)
    ensures WritesCounted(Handle(cfg, s, cmd, o).s)
  {
    hide Say, Apply, ParseMailPath, ParseHeloHostname, EhloLines, DeclaredTooLarge, HandleDATA;
    if cmd.verb == DATA {
      DataCounts(cfg, s, o);
    }
  }

  lemma DataCounts(cfg: Config, s: Sess, o: Oracle)
    requires WritesCounted(s)
    ensures WritesCounted(HandleDATA(cfg, s, o).s)
  {
    hide Say, Apply, StreamData, Bytes, Passed, Concat;
  }

  lemma StepCounts(cfg: Config, s: Sess, o: Oracle)
    requires WritesCounted(s)
    ensures WritesCounted(Step(cfg, s, o))
  {
    hide Say, Apply, Dispatch, ParseCommand, NextLine;
    match NextLine(s.input)
    case Failed(_, _) =>
    case Line(line, rest) =>
      DispatchCounts(cfg, TakeLine(s, line, rest), line, ParseCommand(MaxCommandLength(cfg), line), o);
  }

  lemma DispatchCounts(cfg: Config, s: Sess, line: string, parsed: Result<Command>, o: Oracle)
    requires WritesCounted(s)
    ensures WritesCounted(Dispatch(cfg, s, line, parsed, o).s)
  {
    hide Say, Apply, Handle, Bytes, Passed;
    if parsed.Ok? {
      HandleCounts(cfg, s, parsed.value, o);
    }
  }

  lemma {:induction false} RunCountsWrites(cfg: Config, input: Stream, w: nat -> Oracle, n: nat)
    ensures WritesCounted(Run(cfg, input, w, n))
  {
    hide Step, Say, Bytes, Passed, Apply;
    if n != 0 {
      RunCountsWrites(cfg, input, w, n - 1);
      StepCounts(cfg, Run(cfg, input, w, n - 1), w(n));
    }
  }

  /** A session begins with 220 and the name of the server; if that does not get through it is over. */
  lemma BeginsWithGreeting(cfg: Config, input: Stream, o: Oracle)
    ensures var s := Start(cfg, input, o);
            && Greeting(cfg).code == 220 && |Greeting(cfg).lines| == 1 && cfg.serverHostname <= Greeting(cfg).lines[0]
            && s.output == Passed(Bytes(Greeting(cfg)), o.final) && s.input == input
            && (if o.final.None? then s.exit.None? && s.sm.state == s.state == Greeted
                else s.exit == Some(IoFailed) && s.sm.state == Connected)
  {
    hide Say, Bytes, Passed;
  }
}
