/** Who has agreed: every sender, recipient and upgrade of a run goes back to a turn in which the
    sender policy, the mailbox or the configuration admitted it, whatever was replied. */
module SessionConsent {
  import opened Text
  import opened Conn
  import opened Protocol
  import opened StateMachine
  import opened Parser
  import opened DataCodec
  import opened Phrases
  import opened Reply
  import opened Envelopes
  import opened Session
  import opened SessionStates
  import opened SessionRecord
  import opened SessionFailure

  /** The command that the next turn reads, if its line is complete and parses. */
  function CommandAt(cfg: Config, s: Sess): Result<Command> {
    match NextLine(s.input)
    case Line(line, _) => ParseCommand(MaxCommandLength(cfg), line)
    case Failed(_, _) => Err
  }

  /** In this turn hook and sender policy admit the sender of a MAIL. */
  predicate AdmitsSender(cfg: Config, s: Sess, o: Oracle, from: MailPath, params: Params) {
    var cmd := CommandAt(cfg, s);
    && o.hook.None? && o.sender.None?
    && cmd.Ok? && cmd.value.verb == MAIL && cmd.value.params == params
    && ParseMailPath(cmd.value.argument, "FROM") == Ok(from)
  }

  /** In this turn hook and mailbox admit the recipient of a RCPT. */
  predicate AdmitsRecipient(cfg: Config, s: Sess, o: Oracle, to: MailPath) {
    var cmd := CommandAt(cfg, s);
    && o.hook.None? && o.mailbox.None?
    && cmd.Ok? && cmd.value.verb == RCPT && ParseMailPath(cmd.value.argument, "TO") == Ok(to)
  }

  /** How a builder may change: not at all, by one recipient, or into a new one. */
  ghost predicate DraftMoves(before: Option<Draft>, after: Option<Draft>, sender: (MailPath, Params) -> bool,
                             recipient: MailPath -> bool) {
    after.Some? ==>
      var t := after.value;
      || (before.Some? && t.mailFrom == before.value.mailFrom && t.params == before.value.params
          && (t.recipients == before.value.recipients
              || (exists r :: recipient(r) && t.recipients == before.value.recipients + [r])))
      || (t.recipients == [] && t.mailFrom.Some? && sender(t.mailFrom.value, t.params))
  }

  predicate IsOf(c: Content, d: Draft) {
    d.mailFrom == Some(c.mailFrom) && c.params == d.params && c.recipients == d.recipients
  }

  /** What may be stored: nothing, or the message of the builder. */
  ghost predicate StoreMoves(s: Sess, t: Sess) {
    || t.stored == s.stored
    || (s.envelope.Some? && exists e: Envelope :: t.stored == s.stored + [e] && IsOf(e.content, s.envelope.value))
  }

  /** The two conditions as far as a handler sees them. */
  ghost predicate Consents(s: Sess, t: Sess, cmd: Command, o: Oracle) {
    && StoreMoves(s, t)
    && DraftMoves(s.envelope, t.envelope,
                  (from, params) => cmd.verb == MAIL && o.sender.None? && cmd.params == params
                                    && ParseMailPath(cmd.argument, "FROM") == Ok(from),
                  to => cmd.verb == RCPT && o.mailbox.None? && ParseMailPath(cmd.argument, "TO") == Ok(to))
  }

  lemma MailConsents(cfg: Config, s: Sess, cmd: Command, o: Oracle)
    requires cmd.verb == MAIL
    ensures Consents(s, HandleMAIL(cfg, s, cmd, o).s, cmd, o)
  {
    hide Say, Apply, ParseMailPath, DeclaredTooLarge, MetadataOf;
  }

  lemma RcptConsents(cfg: Config, s: Sess, cmd: Command, o: Oracle)
    requires cmd.verb == RCPT
    ensures Consents(s, HandleRCPT(cfg, s, cmd, o).s, cmd, o)
  {
    hide Say, Apply, ParseMailPath;
  }

  lemma DataConsents(cfg: Config, s: Sess, cmd: Command, o: Oracle)
    ensures Consents(s, HandleDATA(cfg, s, o).s, cmd, o)
  {
    hide Say, Apply, StreamData, Bytes, Passed, Concat, ParseMailPath;
  }

  lemma HandleConsents(cfg: Config, s: Sess, cmd: Command, o: Oracle)
    ensures Consents(s, Handle(cfg, s, cmd, o).s, cmd, o)
  {
    hide Say, Apply, ParseMailPath, ParseHeloHostname, EhloLines, HandleDATA, HandleMAIL, HandleRCPT;
    match cmd.verb
    case MAIL => MailConsents(cfg, s, cmd, o);
    case RCPT => RcptConsents(cfg, s, cmd, o);
    case DATA => DataConsents(cfg, s, cmd, o);
    case _ =>
  }

  ghost predicate TurnConsents(cfg: Config, s: Sess, t: Sess, o: Oracle) {
    && StoreMoves(s, t)
    && DraftMoves(s.envelope, t.envelope, (from, params) => AdmitsSender(cfg, s, o, from, params),
                  to => AdmitsRecipient(cfg, s, o, to))
  }

  lemma SameConsents(cfg: Config, s: Sess, t: Sess, o: Oracle)
    requires t.stored == s.stored && (t.envelope == s.envelope || t.envelope.None?)
    ensures TurnConsents(cfg, s, t, o)
  {
  }

  lemma DispatchConsents(cfg: Config, s: Sess, line: string, rest: Stream, o: Oracle)
    requires NextLine(s.input) == Line(line, rest)
    ensures TurnConsents(cfg, s, Dispatch(cfg, TakeLine(s, line, rest), line,
                                          ParseCommand(MaxCommandLength(cfg), line), o).s, o)
  {
    hide Say, Apply, Handle, Bytes, Passed, ParseCommand, NextLine, TurnConsents, ParseMailPath;
    var s' := TakeLine(s, line, rest);
    var parsed := ParseCommand(MaxCommandLength(cfg), line);
    var t := Dispatch(cfg, s', line, parsed, o).s;
    if parsed.Ok? && o.hook.None? && IsCommandAllowed(s'.sm.state, parsed.value.verb) {
      HandleConsents(cfg, s', parsed.value, o);
      ConsentsByTurn(cfg, s, s', Handle(cfg, s', parsed.value, o).s, t, parsed.value, o);
    } else {
      SameConsents(cfg, s, t, o);
    }
  }

  lemma ConsentsByTurn(cfg: Config, s: Sess, s': Sess, t: Sess, t': Sess, cmd: Command, o: Oracle)
    requires Consents(s', t, cmd, o) && CommandAt(cfg, s) == Ok(cmd) && o.hook.None?
    requires s'.envelope == s.envelope && s'.stored == s.stored
    requires t'.envelope == t.envelope && t'.stored == t.stored
    ensures TurnConsents(cfg, s, t', o)
  {
    hide CommandAt, ParseMailPath;
  }

  lemma StepConsents(cfg: Config, s: Sess, o: Oracle)
    ensures TurnConsents(cfg, s, Step(cfg, s, o), o)
  {
    hide Say, Apply, Dispatch, ParseCommand, NextLine, TurnConsents;
    var t := Step(cfg, s, o);
    if s.exit.None? && !s.sm.state.IsTerminal() && s.state != StartTLS && NextLine(s.input).Line? {
      var n := NextLine(s.input);
      DispatchConsents(cfg, s, n.line, n.rest, o);
      ViewConsents(cfg, s, ProcessOneCommand(cfg, s, o).s, t, o);
    } else {
      SameConsents(cfg, s, t, o);
    }
  }

  lemma ViewConsents(cfg: Config, s: Sess, t: Sess, u: Sess, o: Oracle)
    requires TurnConsents(cfg, s, t, o) && u.envelope == t.envelope && u.stored == t.stored
    ensures TurnConsents(cfg, s, u, o)
  {
    hide AdmitsSender, AdmitsRecipient;
  }

  // ----- Whole runs -----

  ghost predicate SenderAdmitted(cfg: Config, input: Stream, w: nat -> Oracle, n: nat, from: MailPath, params: Params) {
    exists m: nat :: m < n && AdmitsSender(cfg, Run(cfg, input, w, m), w(m + 1), from, params)
  }

  ghost predicate RecipientAdmitted(cfg: Config, input: Stream, w: nat -> Oracle, n: nat, to: MailPath) {
    exists m: nat :: m < n && AdmitsRecipient(cfg, Run(cfg, input, w, m), w(m + 1), to)
  }

  ghost predicate AllAdmitted(cfg: Config, input: Stream, w: nat -> Oracle, n: nat, rs: seq<MailPath>) {
    forall r :: r in rs ==> RecipientAdmitted(cfg, input, w, n, r)
  }

  /** Every stored message, and the open builder, have a sender that the policy admitted and only
      recipients that the mailbox admitted. */
  ghost predicate Admitted(cfg: Config, input: Stream, w: nat -> Oracle, n: nat, s: Sess) {
    && (forall i :: 0 <= i < |s.stored| ==>
          && SenderAdmitted(cfg, input, w, n, s.stored[i].content.mailFrom, s.stored[i].content.params)
          && AllAdmitted(cfg, input, w, n, s.stored[i].content.recipients))
    && (s.envelope.Some? ==>
          && s.envelope.value.mailFrom.Some?
          && SenderAdmitted(cfg, input, w, n, s.envelope.value.mailFrom.value, s.envelope.value.params)
          && AllAdmitted(cfg, input, w, n, s.envelope.value.recipients))
  }

  lemma AdmittedLater(cfg: Config, input: Stream, w: nat -> Oracle, n: nat, s: Sess, o: Oracle)
    requires s == Run(cfg, input, w, n) && o == w(n + 1)
    ensures forall from, params :: SenderAdmitted(cfg, input, w, n, from, params) ==>
              SenderAdmitted(cfg, input, w, n + 1, from, params)
    ensures forall to :: RecipientAdmitted(cfg, input, w, n, to) ==> RecipientAdmitted(cfg, input, w, n + 1, to)
    ensures forall from, params :: AdmitsSender(cfg, s, o, from, params) ==>
              SenderAdmitted(cfg, input, w, n + 1, from, params)
    ensures forall to :: AdmitsRecipient(cfg, s, o, to) ==>
              RecipientAdmitted(cfg, input, w, n + 1, to)
  {
    hide AdmitsSender, AdmitsRecipient, Run;
  }

  lemma TurnAdmits(cfg: Config, input: Stream, w: nat -> Oracle, n: nat, t: Sess)
    requires var s := Run(cfg, input, w, n);
             Admitted(cfg, input, w, n, s) && TurnConsents(cfg, s, t, w(n + 1))
    ensures Admitted(cfg, input, w, n + 1, t)
  {
    hide AdmitsSender, AdmitsRecipient, Run, SenderAdmitted, RecipientAdmitted;
    AdmittedLater(cfg, input, w, n, Run(cfg, input, w, n), w(n + 1));
  }

  /** In every run, whatever was replied: every sender of a stored message was admitted by hook and
      sender policy in some turn, and every recipient by hook and mailbox. */
  lemma {:induction false} StoredByConsent(cfg: Config, input: Stream, w: nat -> Oracle, n: nat)
    ensures Admitted(cfg, input, w, n, Run(cfg, input, w, n))
  {
    hide Step, Start, Run, Admitted, TurnConsents;
    if n == 0 {
      StartAdmitted(cfg, input, w);
    } else {
      StoredByConsent(cfg, input, w, n - 1);
      StepConsents(cfg, Run(cfg, input, w, n - 1), w(n));
      RunStep(cfg, input, w, n);
      TurnAdmits(cfg, input, w, n - 1, Run(cfg, input, w, n));
    }
  }

  lemma StartAdmitted(cfg: Config, input: Stream, w: nat -> Oracle)
    ensures Admitted(cfg, input, w, 0, Run(cfg, input, w, 0))
  {
    hide SenderAdmitted, AllAdmitted;
    StartHoldsNothing(cfg, input, w);
  }

  lemma StartHoldsNothing(cfg: Config, input: Stream, w: nat -> Oracle)
    ensures var s := Run(cfg, input, w, 0); s.stored == [] && s.envelope.None? && NoTLS(s)
  {
    hide Say, Bytes, Passed, Apply;
  }

  // ----- Upgrades -----

  predicate CanUpgrade(cfg: Config) { cfg.tlsPolicy != TLSDisabled && cfg.tlsProvider }

  lemma HandleNeverStartsTLS(cfg: Config, s: Sess, cmd: Command, o: Oracle)
    requires !CanUpgrade(cfg) && s.state != StartTLS
    ensures Handle(cfg, s, cmd, o).s.state != StartTLS
  {
    hide Say, Apply, ParseMailPath, ParseHeloHostname, EhloLines, DeclaredTooLarge, HandleDATA;
    if cmd.verb == DATA {
      DataNeverStartsTLS(cfg, s, o);
    }
  }

  lemma DataNeverStartsTLS(cfg: Config, s: Sess, o: Oracle)
    ensures HandleDATA(cfg, s, o).s.state != StartTLS
  {
    hide Say, Apply, StreamData, Bytes, Passed, Concat;
  }

  predicate NoTLS(s: Sess) {
    s.state != StartTLS && !s.tls && forall k :: 0 <= k < |s.log| ==> s.log[k].Exchange?
  }

  lemma StepNoTLS(cfg: Config, s: Sess, o: Oracle)
    requires !CanUpgrade(cfg) && Shape(s) && NoTLS(s)
    ensures NoTLS(Step(cfg, s, o))
  {
    hide Say, Apply, Dispatch, ParseCommand, NextLine, Shape, IsLine;
    if s.exit.None? && !s.sm.state.IsTerminal() && NextLine(s.input).Line? {
      var n := NextLine(s.input);
      var s' := TakeLine(s, n.line, n.rest);
      ShapeOfTaken(s, n.line, n.rest);
      DispatchNoTLS(cfg, s', n.line, ParseCommand(MaxCommandLength(cfg), n.line), o);
    }
  }

  lemma DispatchNoTLS(cfg: Config, s: Sess, line: string, parsed: Result<Command>, o: Oracle)
    requires !CanUpgrade(cfg) && Shape(s) && NoTLS(s) && s.state != StartTLS
    requires s.exit.None? && !s.sm.state.IsTerminal()
    ensures NoTLS(Dispatch(cfg, s, line, parsed, o).s)
  {
    hide NoTLS, Shape, Dispatch, IsLine, CanUpgrade;
    DispatchRecords(cfg, s, line, parsed, o);
    DispatchStays(cfg, s, line, parsed, o);
    OneMoreExchange(s, Dispatch(cfg, s, line, parsed, o).s);
  }

  lemma DispatchStays(cfg: Config, s: Sess, line: string, parsed: Result<Command>, o: Oracle)
    requires !CanUpgrade(cfg) && NoTLS(s)
    ensures var t := Dispatch(cfg, s, line, parsed, o).s; t.state != StartTLS && t.tls == s.tls
  {
    hide Say, Apply, Handle, Bytes, Passed, CanUpgrade, Phase;
    if parsed.Ok? {
      HandleNeverStartsTLS(cfg, s, parsed.value, o);
      HandleInput(cfg, s, parsed.value, o);
    }
  }

  lemma OneMoreExchange(s: Sess, t: Sess)
    requires NoTLS(s) && t.state != StartTLS && t.tls == s.tls
    requires s.log <= t.log && |t.log| == |s.log| + 1 && t.log[|s.log|].Exchange?
    ensures NoTLS(t)
  {
    assert forall k :: 0 <= k < |s.log| ==> t.log[k] == s.log[k];
  }

  /** With TLS disabled or no provider there is no upgrade in any run. */
  lemma {:induction false} NeverUpgrades(cfg: Config, input: Stream, w: nat -> Oracle, n: nat)
    requires !CanUpgrade(cfg)
    ensures NoTLS(Run(cfg, input, w, n))
  {
    hide Run, Step, Start, NoTLS, CanUpgrade;
    if n == 0 {
      StartHoldsNothing(cfg, input, w);
    } else {
      RunStep(cfg, input, w, n);
      NeverUpgrades(cfg, input, w, n - 1);
      ReachableStates(cfg, input, w, n - 1);
      StepNoTLS(cfg, Run(cfg, input, w, n - 1), w(n));
    }
  }
}
