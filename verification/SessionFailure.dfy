/** Failed DATA phases, TLS upgrades and error limits over whole runs. */
module SessionFailure {
  import opened Text
  import opened Conn
  import opened Protocol
  import opened StateMachine
  import opened Parser
  import opened DataCodec
  import opened Phrases
  import opened Reply
  import opened Envelopes
  import opened Session
  import opened SessionStates
  import opened SessionLog
  import opened SessionRecord
  import opened SessionEffects
  import opened SessionHistory
  import opened SessionSafety

  predicate HasFailure(log: seq<Event>) {
    exists k :: 0 <= k < |log| && FailsData(log[k])
  }

  lemma FailureSnoc(log: seq<Event>, e: Event)
    ensures HasFailure(log + [e]) <==> HasFailure(log) || FailsData(e)
  {
    hide FailsData;
    if HasFailure(log) {
      var k :| 0 <= k < |log| && FailsData(log[k]);
      assert FailsData((log + [e])[k]);
    }
    assert (log + [e])[|log|] == e;
  }

  /** The session is stuck exactly from a failed DATA phase on. */
  predicate Marked(s: Sess) {
    && (HasFailure(s.log) ==> IsStuck(s) || s.sm.state == Aborted)
    && (IsStuck(s) ==> HasFailure(s.log))
  }

  predicate OneUpgrade(log: seq<Event>) {
    forall i, j :: 0 <= i < j < |log| ==> !(log[i].Upgraded? && log[j].Upgraded?)
  }

  /** Before an accepted DATA there is an accepted MAIL with nothing in between that ends a
      transaction; and its lines end at their first terminator. */
  predicate Explained(log: seq<Event>) {
    forall j :: 0 <= j < |log| && Accepts(log[j], DATA) ==> ExplainedAt(log, j)
  }

  predicate ExplainedAt(log: seq<Event>, j: nat)
    requires j < |log|
  {
    var i := LastMail(log[..j]);
    && 0 <= i && (forall k :: i < k < j ==> !EndsTransaction(log[k]))
    && log[j].Exchange? && EndsAtTerminator(log[j].body)
  }

  /** An unparseable line is answered 421 and is the last one if it reaches the limit, and is
      answered 500 otherwise. */
  predicate LimitKept(cfg: Config, s: Sess) {
    forall k :: 0 <= k < |s.log| && IsUnparsed(s.log[k]) ==> LimitKeptAt(cfg, s, k)
  }

  predicate IsUnparsed(e: Event) { e.Exchange? && e.how.Unparsed? }

  predicate LimitKeptAt(cfg: Config, s: Sess, k: nat)
    requires k < |s.log| && IsUnparsed(s.log[k])
  {
    if cfg.limits.maxErrors > 0 && ErrorsIn(s.log[..k + 1]) >= cfg.limits.maxErrors then
      s.log[k].replies == [TOO_MANY_ERRORS] && k == |s.log| - 1 && s.sm.state == Aborted
    else s.log[k].replies == [SYNTAX_ERROR]
  }

  ghost predicate Traced(cfg: Config, s: Sess) {
    OneUpgrade(s.log) && Explained(s.log) && LimitKept(cfg, s)
  }

  lemma EffectFrom(cfg: Config, s: Sess, t: Sess, e: Event)
    requires Effect(cfg, s, t, e)
    ensures InStep(s) || IsStuck(s)
    ensures e.Upgraded? ==> !s.tls
    ensures s.sm.state != Aborted
  {
    hide HandledEffect, UnhandledEffect, ParseCommand, AllBytes;
  }

  lemma AdvanceUpgrades(cfg: Config, s: Sess, t: Sess)
    requires Recorded(s) && OneUpgrade(s.log) && Advances(cfg, s, t)
    ensures OneUpgrade(t.log)
  {
    hide Effect, HostOf, ErrorsIn, BytesIn;
    var e := t.log[|t.log| - 1];
    EffectExtends(cfg, s, t, e);
    EffectFrom(cfg, s, t, e);
    if e.Upgraded? {
      forall i | 0 <= i < |s.log|
        ensures !t.log[i].Upgraded?
      {
        assert t.log[i] == s.log[i];
      }
    }
  }

  lemma AdvanceExplained(cfg: Config, s: Sess, t: Sess)
    requires Tracked(cfg, s) && Explained(s.log) && Advances(cfg, s, t)
    ensures Explained(t.log)
  {
    hide Effect, InTransaction, PathIn, AcceptedRecipients, HostOf, HasUpgrade, Accepts, EndsTransaction;
    hide EndsAtTerminator, Unstuffed, SizeFits;
    var e := t.log[|t.log| - 1];
    EffectExtends(cfg, s, t, e);
    forall j | 0 <= j < |t.log| && Accepts(t.log[j], DATA)
      ensures ExplainedAt(t.log, j)
    {
      if j < |s.log| {
        assert s.log[j] == t.log[j] && t.log[..j] == s.log[..j];
        assert ExplainedAt(s.log, j);
        forall k | LastMail(t.log[..j]) < k < j
          ensures !EndsTransaction(t.log[k])
        {
          assert t.log[k] == s.log[k];
        }
      } else {
        AcceptedDelivers(cfg, s, t, e);
        assert t.log[..j] == s.log;
        forall k | LastMail(s.log) < k < j
          ensures !EndsTransaction(t.log[k])
        {
          assert t.log[k] == s.log[k];
        }
      }
    }
  }

  lemma UnparsedAnswer(cfg: Config, s: Sess, t: Sess, e: Event)
    requires Effect(cfg, s, t, e) && IsUnparsed(e)
    ensures t.errors == s.errors + 1
    ensures if TooManyErrors(cfg, t.errors) then e.replies == [TOO_MANY_ERRORS] && t.sm.state == Aborted
            else e.replies == [SYNTAX_ERROR]
  {
    hide Say, ParseCommand, AllBytes, InStep, HandledEffect;
  }

  lemma AdvanceLimit(cfg: Config, s: Sess, t: Sess)
    requires Recorded(t) && LimitKept(cfg, s) && Advances(cfg, s, t)
    ensures LimitKept(cfg, t)
  {
    hide Effect, HostOf, ErrorsIn, BytesIn, HasUpgrade, Say;
    var e := t.log[|t.log| - 1];
    EffectExtends(cfg, s, t, e);
    EffectFrom(cfg, s, t, e);
    forall k | 0 <= k < |t.log| && IsUnparsed(t.log[k])
      ensures LimitKeptAt(cfg, t, k)
    {
      if k < |s.log| {
        assert s.log[k] == t.log[k] && t.log[..k + 1] == s.log[..k + 1];
        assert LimitKeptAt(cfg, s, k);
      } else {
        assert t.log[..k + 1] == t.log;
        UnparsedAnswer(cfg, s, t, e);
      }
    }
  }

  lemma QuietTraced(cfg: Config, s: Sess, t: Sess)
    requires Quiet(s, t) && Traced(cfg, s)
    ensures Traced(cfg, t)
  {
    hide ExplainedAt, Accepts, ErrorsIn, Say, EndsAtTerminator;
    forall k | 0 <= k < |t.log| && IsUnparsed(t.log[k])
      ensures LimitKeptAt(cfg, t, k)
    {
      assert LimitKeptAt(cfg, s, k);
    }
  }

  lemma StartTraced(cfg: Config, input: Stream, o: Oracle)
    ensures Traced(cfg, Start(cfg, input, o))
  {
    hide Say, Bytes, Passed, Apply;
    assert Apply(INITIAL, CallConnect).state == Connected by { FirstMoves(); }
    assert Apply(Apply(INITIAL, CallConnect), CallGreet).state == Greeted by { FirstMoves(); }
  }

  lemma FirstMoves()
    ensures Apply(INITIAL, CallConnect).state == Connected
    ensures Apply(Apply(INITIAL, CallConnect), CallGreet).state == Greeted
  {
  }

  lemma StepTraced(cfg: Config, s: Sess, o: Oracle)
    requires Kept(cfg, s) && Traced(cfg, s) && Honest(o)
    ensures Traced(cfg, Step(cfg, s, o))
  {
    hide Step, Advances, Tracked, Kept, OneUpgrade, Explained, LimitKept, Recorded;
    var t := Step(cfg, s, o);
    StepKeeps(cfg, s, o);
    KeptParts(cfg, s);
    KeptParts(cfg, t);
    StepAdvances(cfg, s, o);
    if Advances(cfg, s, t) {
      AdvanceUpgrades(cfg, s, t);
      AdvanceExplained(cfg, s, t);
      AdvanceLimit(cfg, s, t);
    } else {
      QuietTraced(cfg, s, t);
    }
  }

  lemma {:induction false} RunTraced(cfg: Config, input: Stream, w: nat -> Oracle, n: nat)
    requires HonestWorld(w)
    ensures Traced(cfg, Run(cfg, input, w, n))
  {
    hide Step, Start, Kept, Traced;
    if n == 0 {
      StartTraced(cfg, input, w(0));
    } else {
      RunTraced(cfg, input, w, n - 1);
      RunKeeps(cfg, input, w, n - 1);
      StepTraced(cfg, Run(cfg, input, w, n - 1), w(n));
    }
  }

  // ----- Failed DATA phases -----

  lemma OthersNeverStick(cfg: Config, s: Sess, cmd: Command, o: Oracle)
    requires InStep(s) && s.exit.None? && IsCommandAllowed(s.state, cmd.verb) && cmd.verb != DATA
    ensures !IsStuck(Handle(cfg, s, cmd, o).s)
  {
    assert IsStateValidForCommand(s.state, cmd.verb) by { TablesAgree(s.state, cmd.verb); }
    hide Say, HandleHELO, HandleEHLO, HandleMAIL, HandleRCPT, HandleDATA, HandleRSET, HandleQUIT;
    hide HandleSTARTTLS, InStep;
    InStepStates(s);
    match cmd.verb
    case HELO | EHLO => HeloKeepsShape(cfg, s, cmd);
    case MAIL => MailKeepsShape(cfg, s, cmd, o);
    case RCPT => RcptKeepsShape(cfg, s, cmd, o);
    case QUIT => QuitTerminates(s);
    case _ => OtherKeepsShape(cfg, s);
    var h := Handle(cfg, s, cmd, o).s;
    if InStep(h) {
      InStepStates(h);
    }
  }

  /** Of the handlers only DATA can leave the session stuck, and it does exactly when it fails. */
  lemma HandleSticks(cfg: Config, s: Sess, line: string, cmd: Command, o: Oracle)
    requires InStep(s) && s.exit.None? && IsCommandAllowed(s.state, cmd.verb)
    ensures var h := Handle(cfg, s, cmd, o); IsStuck(h.s) <==> FailsData(EventOf(line, cmd, h, o))
  {
    hide Say, HandleHELO, HandleEHLO, HandleMAIL, HandleRCPT, HandleDATA, HandleRSET, HandleQUIT;
    hide HandleSTARTTLS, InStep;
    if cmd.verb == DATA {
      InStepStates(s);
      DataOutcome(cfg, s, o);
      var h := HandleDATA(cfg, s, o);
      assert FinalReply(EventOf(line, cmd, h, o)) == h.reply;
      if InStep(h.s) {
        InStepStates(h.s);
      }
    } else {
      OthersNeverStick(cfg, s, cmd, o);
    }
  }

  lemma DispatchSticks(cfg: Config, s: Sess, line: string, parsed: Result<Command>, o: Oracle)
    requires InStep(s) && s.exit.None? && s.state != StartTLS
    ensures var t := Dispatch(cfg, s, line, parsed, o).s;
            && Records(s, t, line, parsed) && t.exit.None?
            && (IsStuck(t) <==> FailsData(t.log[|s.log|]))
  {
    hide Say, Handle, Bytes, Passed, TooManyErrors, IsLine, IsCommandAllowed, InStep, Apply, FailsData;
    UnhandledFailsNothing();
    InStepStates(s);
    DispatchRecords(cfg, s, line, parsed, o);
    DispatchKeepsShape(cfg, s, line, parsed, o);
    CallMoves(s.sm);
    if parsed.Ok? && IsCommandAllowed(s.sm.state, parsed.value.verb) {
      HandleKeepsShape(cfg, s, parsed.value, o);
      HandleKeepsLog(cfg, s, parsed.value, o);
      HandleSticks(cfg, s, line, parsed.value, o);
    }
  }

  /** An iteration leaves a session stuck exactly if it records a DATA that had its 354 and was not
      answered 250. */
  lemma StuckOnlyByFailure(cfg: Config, s: Sess, o: Oracle)
    requires InStep(s)
    ensures var t := Step(cfg, s, o);
            && s.log <= t.log && |t.log| <= |s.log| + 1
            && (IsStuck(t) <==> |s.log| < |t.log| && FailsData(t.log[|s.log|]))
  {
    hide Say, Dispatch, ParseCommand, NextLine, FailsData, Apply;
    CallMoves(s.sm);
    if s.exit.None? && s.state == StartTLS {
      assert !FailsData(Upgraded) by { UpgradeFailsNothing(); }
    } else if s.exit.None? && NextLine(s.input).Line? {
      var n := NextLine(s.input);
      var s' := TakeLine(s, n.line, n.rest);
      DispatchSticks(cfg, s', n.line, ParseCommand(MaxCommandLength(cfg), n.line), o);
    }
  }

  lemma UpgradeFailsNothing()
    ensures !FailsData(Upgraded)
  {
  }

  lemma UnhandledFailsNothing()
    ensures forall e: Event :: e.Exchange? && !e.how.Handled? ==> !FailsData(e)
  {
  }

  /** What becomes of a stuck session in one iteration. */
  predicate StaysStuck(s: Sess, t: Sess) {
    && (IsStuck(t) || t.sm.state == Aborted) && t.stored == s.stored && t.envelope.None?
    && s.log <= t.log && |t.log| <= |s.log| + 1
    && (|s.log| < |t.log| ==>
          var e := t.log[|s.log|];
          && e.Exchange? && !e.how.Handled?
          && (e.how.OutOfSequence? ==> e.replies == [BAD_SEQUENCE]))
  }

  lemma StuckDispatch(cfg: Config, s: Sess, line: string, parsed: Result<Command>, o: Oracle)
    requires IsStuck(s)
    ensures StaysStuck(s, Dispatch(cfg, s, line, parsed, o).s)
  {
    hide Say, Bytes, Passed, Apply, OnHandled, TooManyErrors;
    CallMoves(s.sm);
  }

  /** A stuck session hands nothing to a handler. */
  lemma StuckStep(cfg: Config, s: Sess, o: Oracle)
    requires IsStuck(s)
    ensures StaysStuck(s, Step(cfg, s, o))
  {
    hide Say, ParseCommand, NextLine, Dispatch, Apply;
    match NextLine(s.input)
    case Failed(_, _) =>
    case Line(line, rest) =>
      StuckDispatch(cfg, TakeLine(s, line, rest), line, ParseCommand(MaxCommandLength(cfg), line), o);
  }

  lemma StepMarked(cfg: Config, s: Sess, o: Oracle)
    requires Shape(s) && Marked(s)
    ensures Marked(Step(cfg, s, o))
  {
    hide Step, HasFailure, FailsData, InStep;
    var t := Step(cfg, s, o);
    if IsStuck(s) {
      StuckStep(cfg, s, o);
      GrownFailure(s.log, t.log);
      assert |s.log| < |t.log| ==> !FailsData(t.log[|s.log|]) by { UnhandledFailsNothing(); }
    } else if InStep(s) {
      InStepStates(s);
      StuckOnlyByFailure(cfg, s, o);
      GrownFailure(s.log, t.log);
    } else {
      OverIsOver(cfg, s, o);
    }
  }

  lemma GrownFailure(a: seq<Event>, b: seq<Event>)
    requires a <= b && |b| <= |a| + 1
    ensures HasFailure(b) <==> HasFailure(a) || (|a| < |b| && FailsData(b[|a|]))
  {
    hide HasFailure, FailsData;
    if |a| < |b| {
      assert b == a + [b[|a|]];
      FailureSnoc(a, b[|a|]);
    } else {
      assert a == b;
    }
  }

  lemma InStepStates(s: Sess)
    requires InStep(s)
    ensures !IsStuck(s) && !s.sm.state.IsTerminal() && s.sm.state == s.state
  {
  }

  /** A session in a terminal state, or that was never greeted, only ends. */
  lemma OverIsOver(cfg: Config, s: Sess, o: Oracle)
    requires s.sm.state.IsTerminal() || NeverGreeted(s)
    ensures var t := Step(cfg, s, o); t == s.(exit := t.exit)
  {
    hide ProcessOneCommand, PerformUpgrade;
  }

  lemma {:induction false} RunMarked(cfg: Config, input: Stream, w: nat -> Oracle, n: nat)
    ensures Marked(Run(cfg, input, w, n))
  {
    hide Step, Start, Marked;
    if n == 0 {
      StartMarked(cfg, input, w(0));
    } else {
      RunMarked(cfg, input, w, n - 1);
      ReachableStates(cfg, input, w, n - 1);
      StepMarked(cfg, Run(cfg, input, w, n - 1), w(n));
    }
  }

  lemma StartMarked(cfg: Config, input: Stream, o: Oracle)
    ensures Marked(Start(cfg, input, o))
  {
    hide Say, Bytes, Passed, Apply;
    FirstMoves();
  }

  /** In a greeted session that has not come to a terminal state the two copies of the state
      agree if and only if no DATA phase has failed, whatever the oracles do. */
  lemma CopiesAgreeIff(cfg: Config, input: Stream, w: nat -> Oracle, n: nat)
    ensures var s := Run(cfg, input, w, n);
            !s.sm.state.IsTerminal() && !NeverGreeted(s) ==>
              (s.sm.state == s.state <==> !HasFailure(s.log))
  {
    hide Run, HasFailure;
    RunMarked(cfg, input, w, n);
    ReachableStates(cfg, input, w, n);
  }

  /** The session k iterations after state s of iteration n. */
  function RunFrom(cfg: Config, s: Sess, w: nat -> Oracle, n: nat, k: nat): Sess {
    if k == 0 then s else Step(cfg, RunFrom(cfg, s, w, n, k - 1), w(n + k))
  }

  lemma {:induction false} RunSplits(cfg: Config, input: Stream, w: nat -> Oracle, n: nat, k: nat)
    ensures Run(cfg, input, w, n + k) == RunFrom(cfg, Run(cfg, input, w, n), w, n, k)
  {
    hide Step, Start;
    if k != 0 {
      RunSplits(cfg, input, w, n, k - 1);
    }
  }

  /** The exchange of a stuck session that takes a line. */
  function StuckExchange(cfg: Config, s: Sess, line: string, o: Oracle): Event {
    match ParseCommand(MaxCommandLength(cfg), line)
    case Err =>
      Exchange(line, Unparsed, [], [if cfg.limits.maxErrors > 0 && s.errors + 1 >= cfg.limits.maxErrors then TOO_MANY_ERRORS
                                   else SYNTAX_ERROR], o.final.None?)
    case Ok(cmd) =>
      if o.hook.Some? then Exchange(line, Refused(cmd), [], [TRANSACTION_FAILED], o.final.None?)
      else Exchange(line, OutOfSequence(cmd), [], [BAD_SEQUENCE], o.final.None?)
  }

  /** Whatever line a stuck session reads, it answers 503 if the line parses and passes the hook,
      554 if the hook refuses it, and 500 or 421 if it does not parse. */
  lemma StuckAnswers(cfg: Config, s: Sess, o: Oracle)
    requires IsStuck(s) && s.exit.None?
    ensures var n := NextLine(s.input);
            var t := Step(cfg, s, o);
            if n.Failed? then t.log == s.log && t.output == s.output
            else
              var e := StuckExchange(cfg, s, n.line, o);
              t.log == s.log + [e] && t.output == s.output + Passed(Bytes(e.replies[0]), o.final)
  {
    hide Say, ParseCommand, NextLine, Bytes, Passed, Apply, OnHandled;
    assert forall v :: !IsCommandAllowed(Data, v);
  }

  /** After a failed DATA phase, whatever the oracles do, every continuation stays in Data or Aborted, stores nothing, has
      no builder, hands no command to a handler, and answers the next line as a stuck session
      does: 503 to every line that parses and passes the hook. */
  lemma {:induction false} FailureIsForever(cfg: Config, input: Stream, w: nat -> Oracle, n: nat, k: nat)
    requires IsStuck(Run(cfg, input, w, n))
    ensures var s := Run(cfg, input, w, n);
            var t := Run(cfg, input, w, n + k);
            && (IsStuck(t) || t.sm.state == Aborted)
            && t.stored == s.stored && t.envelope.None? && s.log <= t.log
            && (forall j :: |s.log| <= j < |t.log| ==>
                  && t.log[j].Exchange? && !t.log[j].how.Handled?
                  && (t.log[j].how.OutOfSequence? ==> t.log[j].replies == [BAD_SEQUENCE]))
            && (t.exit.None? && IsStuck(t) && NextLine(t.input).Line? ==>
                  var u := Run(cfg, input, w, n + k + 1);
                  var e := StuckExchange(cfg, t, NextLine(t.input).line, w(n + k + 1));
                  u.log == t.log + [e] && u.output == t.output + Passed(Bytes(e.replies[0]), w(n + k + 1).final))
  {
    hide Step, Run, Say, StuckExchange, NextLine, Bytes, Passed, FailsData;
    RunStep(cfg, input, w, n + k + 1);
    if IsStuck(Run(cfg, input, w, n + k)) && Run(cfg, input, w, n + k).exit.None? {
      StuckAnswers(cfg, Run(cfg, input, w, n + k), w(n + k + 1));
    }
    if k != 0 {
      FailureIsForever(cfg, input, w, n, k - 1);
      var t := Run(cfg, input, w, n + k - 1);
      RunStep(cfg, input, w, n + k);
      if IsStuck(t) {
        StuckStep(cfg, t, w(n + k));
      } else {
        OverIsOver(cfg, t, w(n + k));
      }
    }
  }

  lemma RunStep(cfg: Config, input: Stream, w: nat -> Oracle, n: nat)
    requires n != 0
    ensures Run(cfg, input, w, n) == Step(cfg, Run(cfg, input, w, n - 1), w(n))
  {
    hide Step;
  }

  // ----- TLS -----

  /** The client name in a log is that of some HELO or EHLO after which there is neither an
      upgrade nor another one. */
  lemma {:induction false} HostOrigin(log: seq<Event>) returns (h: nat)
    requires HostOf(log) != ""
    ensures h < |log| && Identifies(log[h]) && HostIn(log[h]) == HostOf(log)
    ensures forall k :: h < k < |log| ==> !log[k].Upgraded? && !Identifies(log[k])
  {
    hide Identifies, HostIn;
    var n := |log| - 1;
    if Identifies(log[n]) {
      h := n;
    } else {
      h := HostOrigin(log[..n]);
    }
  }

  /** At most one upgrade in a run; and every message delivered names its client by a HELO or
      EHLO after which there was no upgrade, and says truly whether TLS was on. */
  lemma TLSPhases(cfg: Config, input: Stream, w: nat -> Oracle, n: nat, j: nat) returns (h: nat)
    requires HonestWorld(w)
    ensures var log := Run(cfg, input, w, n).log;
            && OneUpgrade(log)
            && (j < |log| && Accepts(log[j], DATA) ==>
                  && LastMail(log[..j]) >= 0
                  && var m := MessageAt(cfg, log[..j], log[j]).metadata;
                     && h < LastMail(log[..j]) && Identifies(log[h]) && HostIn(log[h]) == m.clientHostname
                     && (forall k :: h < k < j ==> !log[k].Upgraded?)
                     && m.tlsActive == HasUpgrade(log[..j]))
  {
    hide Run, LimitKept, Delivered, EndsAtTerminator;
    RunTraced(cfg, input, w, n);
    RunBounded(cfg, input, w, n);
    var s := Run(cfg, input, w, n);
    var log := s.log;
    h := 0;
    if !(j < |log| && Accepts(log[j], DATA)) {
      return;
    }
    assert ExplainedAt(log, j);
    var before := log[..j];
    var i := LastMail(before);
    assert before[i] == log[i] && log[i].Exchange?;
    var c := MessageAt(cfg, before, log[j]);
    DeliveredContains(cfg, log, j);
    assert HostOf(before[..i]) != "" by { assert GoodMessage(cfg, c); }
    hide HostOf, Identifies, HostIn, Bounded, EndsTransaction, Accepts;
    h := HostOrigin(before[..i]);
    NoUpgradeFrom(log, h, i, j);
  }

  lemma NoUpgradeFrom(log: seq<Event>, h: nat, i: nat, j: nat)
    requires h < i < j <= |log| && log[i].Exchange?
    requires forall k :: h < k < i ==> !log[..j][..i][k].Upgraded?
    requires forall k :: i < k < j ==> !EndsTransaction(log[k])
    ensures forall k :: h < k < j ==> !log[k].Upgraded?
    ensures HasUpgrade(log[..j]) == HasUpgrade(log[..j][..i])
  {
    assert forall k :: 0 <= k < i ==> log[..j][..i][k] == log[k];
    forall k | h < k < j
      ensures !log[k].Upgraded?
    {
      if k < i {
        assert log[..j][..i][k] == log[k];
      }
    }
    if HasUpgrade(log[..j]) {
      var k :| 0 <= k < j && log[..j][k].Upgraded?;
      assert log[..j][..i][k].Upgraded?;
    }
  }

  lemma {:induction false} DeliveredContains(cfg: Config, log: seq<Event>, j: nat)
    requires j < |log| && Accepts(log[j], DATA) && LastMail(log[..j]) >= 0
    ensures MessageAt(cfg, log[..j], log[j]) in Delivered(cfg, log)
  {
    hide MessageAt, Accepts;
    var n := |log| - 1;
    if j < n {
      assert log[..n][..j] == log[..j];
      DeliveredContains(cfg, log[..n], j);
    }
  }

  /** Nothing unread at the time of an upgrade has any influence on what follows it. */
  lemma {:induction false} UpgradeForgetsInput(cfg: Config, s: Sess, w: nat -> Oracle, n: nat, k: nat, junk: Stream)
    requires s.exit.None? && !s.sm.state.IsTerminal() && s.state == StartTLS
    requires w(n + 1).upgrade.Some? && 0 < k
    ensures RunFrom(cfg, s, w, n, k) == RunFrom(cfg, s.(input := junk), w, n, k)
    ensures RunFrom(cfg, s, w, n, 1).input == w(n + 1).upgrade.value
  {
    if k == 1 {
      assert RunFrom(cfg, s, w, n, 1) == Step(cfg, s, w(n + 1));
      assert RunFrom(cfg, s.(input := junk), w, n, 1) == Step(cfg, s.(input := junk), w(n + 1));
    } else {
      hide Step;
      UpgradeForgetsInput(cfg, s, w, n, k - 1, junk);
    }
  }

  // ----- Errors -----

  function Unparseable(log: seq<Event>): nat {
    if log == [] then 0
    else Unparseable(log[..|log| - 1]) + if IsUnparsed(log[|log| - 1]) then 1 else 0
  }

  lemma {:induction false} ErrorsCount(log: seq<Event>, i: nat)
    requires i <= |log|
    requires forall k :: i <= k < |log| ==> !IsSuccess(log[k])
    ensures Unparseable(log[i..]) <= ErrorsIn(log)
    decreases |log|
  {
    hide IsSuccess;
    if i < |log| {
      var n := |log| - 1;
      ErrorsCount(log[..n], i);
      assert log[i..][..|log[i..]| - 1] == log[..n][i..];
    }
  }

  /** The last unparseable line of a stretch that has one. */
  lemma {:induction false} LastUnparsed(log: seq<Event>, i: nat) returns (k: nat)
    requires i <= |log| && Unparseable(log[i..]) > 0
    ensures i <= k < |log| && IsUnparsed(log[k])
    ensures Unparseable(log[..k + 1][i..]) == Unparseable(log[i..])
    decreases |log|
  {
    hide IsUnparsed;
    var n := |log| - 1;
    assert log[i..][..|log[i..]| - 1] == log[..n][i..];
    if IsUnparsed(log[n]) {
      k := n;
      assert log[..n + 1] == log;
    } else {
      k := LastUnparsed(log[..n], i);
      assert log[..n][..k + 1] == log[..k + 1];
    }
  }

  /** With a limit of MaxErrors, no run contains that many unparseable lines without a success
      between them unless the last of them was answered 421 and the session is aborted. */
  lemma ErrorStreakAborts(cfg: Config, input: Stream, w: nat -> Oracle, n: nat, i: nat)
    requires HonestWorld(w) && cfg.limits.maxErrors > 0
    requires i <= |Run(cfg, input, w, n).log|
    requires forall k :: i <= k < |Run(cfg, input, w, n).log| ==> !IsSuccess(Run(cfg, input, w, n).log[k])
    requires Unparseable(Run(cfg, input, w, n).log[i..]) >= cfg.limits.maxErrors
    ensures var s := Run(cfg, input, w, n);
            s.sm.state == Aborted && s.log != [] && s.log[|s.log| - 1].Exchange?
            && s.log[|s.log| - 1].replies == [TOO_MANY_ERRORS]
            && (forall e :: e in s.log && e.Exchange? ==>
                  (IsUnparsed(e) <==> ParseCommand(MaxCommandLength(cfg), e.line).Err?))
  {
    hide Run, OneUpgrade, Explained, IsSuccess, Say, Unparseable, ErrorsIn, ParseCommand, IsLine;
    RunTraced(cfg, input, w, n);
    RunRecords(cfg, input, w, n);
    var s := Run(cfg, input, w, n);
    var k := LastUnparsed(s.log, i);
    assert forall m :: i <= m < k + 1 ==> s.log[..k + 1][m] == s.log[m];
    ErrorsCount(s.log[..k + 1], i);
    assert LimitKeptAt(cfg, s, k);
  }
}
