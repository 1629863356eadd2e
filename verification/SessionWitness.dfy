/** Concrete runs: every state that a session can be in is reached, a message is delivered over
    TLS, and the two copies of the state part. */
module SessionWitness {
  import opened Text
  import opened Conn
  import opened Protocol
  import opened StateMachine
  import opened Parser
  import opened CommandLines
  import opened DataCodec
  import opened Phrases
  import opened Reply
  import opened Envelopes
  import opened Session
  import opened SessionStates
  import opened SessionLog
  import opened SessionEffects
  import opened SessionFailure
  import opened SessionRecord
  import opened SessionAnswers

  const HELO_LINE := PrintLine("HELO", "a")
  const MAIL_LINE := PrintLine("MAIL", "FROM:<a@b>")
  const RCPT_LINE := PrintLine("RCPT", "TO:<a@b>")
  const DATA_LINE := PrintLine("DATA", "")
  const STARTTLS_LINE := PrintLine("STARTTLS", "")
  const QUIT_LINE := PrintLine("QUIT", "")
  const TEXT_LINE := "hi\r\n"
  const END_LINE := ".\r\n"

  /** Four commands, and the end of the input where the message should begin. */
  const SCRIPT := HELO_LINE + (MAIL_LINE + (RCPT_LINE + (DATA_LINE + "")))

  /** A client that asks for TLS and sends on without waiting. */
  const CLEAR_SCRIPT := HELO_LINE + (STARTTLS_LINE + (QUIT_LINE + ""))

  /** The same client on the new stream, with one message. */
  const SECURE_SCRIPT :=
    HELO_LINE + (MAIL_LINE + (RCPT_LINE + (DATA_LINE + (TEXT_LINE + END_LINE + (QUIT_LINE + "")))))

  /** Everything is accepted and every write gets through. */
  const YES := Oracle(None, None, None, true, "id", Some(Last(SECURE_SCRIPT, IoError)), None, None, 0)

  predicate Lenient(cfg: Config) {
    && cfg.limits.maxTransactions <= 0 && cfg.limits.maxRecipients <= 0 && cfg.limits.maxMessageSize <= 0
    && cfg.limits.maxCommandLength == 0
  }

  lemma HeloParses()
    ensures IsLine(HELO_LINE)
    ensures var r := ParseCommand(512, HELO_LINE); r.Ok? && r.value.verb == HELO && r.value.argument == "a"
  {
    hide ParseCommand, IsLine, ParamsOf;
    CommandLineRoundTrip(512, "HELO", "a", HELO);
  }

  lemma MailParses()
    ensures IsLine(MAIL_LINE)
    ensures var r := ParseCommand(512, MAIL_LINE); r.Ok? && r.value.verb == MAIL && r.value.argument == "FROM:<a@b>"
  {
    hide ParseCommand, IsLine, ParamsOf;
    CommandLineRoundTrip(512, "MAIL", "FROM:<a@b>", MAIL);
  }

  lemma RcptParses()
    ensures IsLine(RCPT_LINE)
    ensures var r := ParseCommand(512, RCPT_LINE); r.Ok? && r.value.verb == RCPT && r.value.argument == "TO:<a@b>"
  {
    hide ParseCommand, IsLine, ParamsOf;
    CommandLineRoundTrip(512, "RCPT", "TO:<a@b>", RCPT);
  }

  lemma DataParses()
    ensures IsLine(DATA_LINE)
    ensures var r := ParseCommand(512, DATA_LINE); r.Ok? && r.value.verb == DATA && r.value.argument == ""
  {
    hide ParseCommand, IsLine, ParamsOf;
    CommandLineRoundTrip(512, "DATA", "", DATA);
  }

  lemma QuitParses()
    ensures IsLine(QUIT_LINE)
    ensures var r := ParseCommand(512, QUIT_LINE); r.Ok? && r.value.verb == QUIT && r.value.argument == ""
  {
    hide ParseCommand, IsLine, ParamsOf;
    CommandLineRoundTrip(512, "QUIT", "", QUIT);
  }

  lemma StartTLSParses()
    ensures IsLine(STARTTLS_LINE)
    ensures var r := ParseCommand(512, STARTTLS_LINE); r.Ok? && r.value.verb == STARTTLS && r.value.argument == ""
  {
    hide ParseCommand, IsLine, ParamsOf;
    CommandLineRoundTrip(512, "STARTTLS", "", STARTTLS);
  }

  lemma AddressParses()
    ensures ParseInner("a@b").Ok?
  {
    var a := "a@b";
    assert a[|a| - 1] != '@' && a[..2] == "a@";
    assert LastIndexOf("a@", '@') == 1;
    assert LastIndexOf(a, '@') == 1;
    assert a[0 ..] == a;
  }

  lemma ArgumentsParse()
    ensures ParseMailPath("FROM:<a@b>", "FROM").Ok?
    ensures ParseMailPath("TO:<a@b>", "TO").Ok?
  {
    hide ParseMailPath, ParseInner, Trim;
    AddressParses();
    assert ToUpper("FROM:") == "FROM:" && ToUpper("TO:") == "TO:";
    assert "FROM:<a@b>" == "FROM:" + "" + "<" + "a@b" + ">" + "";
    assert "TO:<a@b>" == "TO:" + "" + "<" + "a@b" + ">" + "";
    PathFromShape("FROM:<a@b>", "FROM", "FROM:", "", "a@b", "");
    PathFromShape("TO:<a@b>", "TO", "TO:", "", "a@b", "");
  }

  lemma HostParses()
    ensures ParseHeloHostname("a") == Ok("a")
  {
    hide Trim;
    TrimFixed("a");
    assert SplitOn("a", '.') == ["a"];
  }

  predicate At(s: Sess, st: State, bytes: string) {
    InStep(s) && s.state == st && s.exit.None? && s.input == Last(bytes, IoError)
  }

  /** One accepted command. */
  lemma OneCommand(cfg: Config, s: Sess, line: string, rest: string, st: State, cmd: Command)
    requires At(s, st, line + rest) && st != StartTLS && IsLine(line) && Lenient(cfg)
    requires ParseCommand(512, line) == Ok(cmd) && IsCommandAllowed(st, cmd.verb)
    ensures var s' := TakeLine(s, line, Last(rest, IoError));
            var t := Step(cfg, s, YES);
            var h := Handle(cfg, s', cmd, YES);
            && At(s', st, rest)
            && t.sm == h.s.sm && t.state == h.s.state && t.envelope == h.s.envelope && t.input == h.s.input
            && t.exit == h.s.exit && t.tls == h.s.tls && t.stored == h.s.stored
            && t.log == h.s.log + [EventOf(line, cmd, h, YES)]
  {
    hide ParseCommand, Handle, Bytes, Passed, Say, NextLine, IsCommandAllowed;
    NextLineOf(s.input, line, rest);
    var s' := TakeLine(s, line, Last(rest, IoError));
    HandleKeepsShape(cfg, s', cmd, YES);
  }

  /** The session has gone on by one exchange in which nothing was stored. */
  predicate OneMore(s: Sess, t: Sess) {
    |t.log| == |s.log| + 1 && s.log <= t.log && t.stored == s.stored && t.tls == s.tls
  }

  lemma HeloStep(cfg: Config, s: Sess, rest: string)
    requires At(s, Greeted, HELO_LINE + rest) && Lenient(cfg)
    ensures var t := Step(cfg, s, YES); At(t, Identified, rest) && OneMore(s, t)
  {
    hide ParseCommand, Step, Say, Apply, ParseHeloHostname, EhloLines, IsLine;
    HeloParses();
    HostParses();
    var cmd := ParseCommand(512, HELO_LINE).value;
    OneCommand(cfg, s, HELO_LINE, rest, Greeted, cmd);
    CallMoves(s.sm);
  }

  lemma MailStep(cfg: Config, s: Sess, rest: string)
    requires At(s, Identified, MAIL_LINE + rest) && Lenient(cfg)
    requires cfg.tlsPolicy == TLSRequired ==> s.tls
    ensures var t := Step(cfg, s, YES); At(t, MailFrom, rest) && OneMore(s, t)
  {
    hide ParseCommand, Step, Say, Apply, ParseMailPath;
    MailParses();
    ArgumentsParse();
    var cmd := ParseCommand(512, MAIL_LINE).value;
    OneCommand(cfg, s, MAIL_LINE, rest, Identified, cmd);
    CallMoves(s.sm);
  }

  lemma RcptStep(cfg: Config, s: Sess, rest: string)
    requires At(s, MailFrom, RCPT_LINE + rest) && Lenient(cfg)
    ensures var t := Step(cfg, s, YES); At(t, RcptTo, rest) && OneMore(s, t)
  {
    hide ParseCommand, Step, Say, Apply, ParseMailPath;
    RcptParses();
    ArgumentsParse();
    var cmd := ParseCommand(512, RCPT_LINE).value;
    OneCommand(cfg, s, RCPT_LINE, rest, MailFrom, cmd);
    CallMoves(s.sm);
  }

  lemma StartTLSStep(cfg: Config, s: Sess, rest: string)
    requires At(s, Identified, STARTTLS_LINE + rest) && Lenient(cfg)
    requires cfg.tlsPolicy != TLSDisabled && cfg.tlsProvider && !s.tls
    ensures var t := Step(cfg, s, YES); At(t, StartTLS, rest) && OneMore(s, t)
  {
    hide ParseCommand, Step, Say, Apply;
    StartTLSParses();
    var cmd := ParseCommand(512, STARTTLS_LINE).value;
    OneCommand(cfg, s, STARTTLS_LINE, rest, Identified, cmd);
    CallMoves(s.sm);
  }

  lemma UpgradeStep(cfg: Config, s: Sess, rest: string)
    requires At(s, StartTLS, rest)
    ensures var t := Step(cfg, s, YES);
            && At(t, Greeted, SECURE_SCRIPT) && t.tls && t.stored == s.stored
            && t.log == s.log + [Upgraded]
  {
    hide Apply, ProcessOneCommand;
    CallMoves(s.sm);
  }

  lemma QuitStep(cfg: Config, s: Sess, rest: string)
    requires At(s, Identified, QUIT_LINE + rest) && Lenient(cfg)
    ensures Step(cfg, s, YES).sm.state == Terminated
  {
    hide ParseCommand, Step, Say, HandleQUIT;
    QuitParses();
    var cmd := ParseCommand(512, QUIT_LINE).value;
    OneCommand(cfg, s, QUIT_LINE, rest, Identified, cmd);
    QuitTerminates(TakeLine(s, QUIT_LINE, Last(rest, IoError)));
  }

  lemma DataStep(cfg: Config, s: Sess)
    requires At(s, RcptTo, DATA_LINE + "") && Lenient(cfg)
    ensures IsStuck(Step(cfg, s, YES))
  {
    hide ParseCommand, Step, Say, HandleDATA;
    DataParses();
    var cmd := ParseCommand(512, DATA_LINE).value;
    OneCommand(cfg, s, DATA_LINE, "", RcptTo, cmd);
    var s' := TakeLine(s, DATA_LINE, Last("", IoError));
    DataOutcome(cfg, s', YES);
    NextLineFacts(s'.input);
  }

  /** The text comes through the phase. */
  lemma TextPhase(cfg: Config, s: Sess, rest: string)
    requires Lenient(cfg) && cfg.limits.maxLineLength <= 0 && s.input == Last(TEXT_LINE + END_LINE + rest, IoError)
    ensures var ph := Phase(cfg, s);
            ph.end == AtTerminator && ph.written == TEXT_LINE && ph.rest == Last(rest, IoError)
  {
    hide StreamData;
    var ls := [TEXT_LINE];
    assert IsLine(TEXT_LINE);
    assert StuffAll(ls) == ls;
    assert Concat(ls[1..]) == "";
    assert Concat(ls) == TEXT_LINE;
    LinesTransparent(cfg.limits.maxLineLength, cfg.limits.maxMessageSize, 0, ls, rest, s.input);
  }

  lemma DeliveryStep(cfg: Config, s: Sess, rest: string)
    requires At(s, RcptTo, DATA_LINE + (TEXT_LINE + END_LINE + rest)) && Lenient(cfg) && cfg.storage
    requires cfg.limits.maxLineLength <= 0
    ensures var t := Step(cfg, s, YES);
            && At(t, Identified, rest) && |t.log| == |s.log| + 1 && Accepts(t.log[|s.log|], DATA)
            && |t.stored| == |s.stored| + 1 && t.stored[|s.stored|].content.data == TEXT_LINE
  {
    hide ParseCommand, Step, Say, HandleDATA, StreamData, InStep, IsLine;
    DataParses();
    var cmd := ParseCommand(512, DATA_LINE).value;
    OneCommand(cfg, s, DATA_LINE, TEXT_LINE + END_LINE + rest, RcptTo, cmd);
    var s' := TakeLine(s, DATA_LINE, Last(TEXT_LINE + END_LINE + rest, IoError));
    DeliveryHandled(cfg, s', rest, cmd);
    HandleKeepsLog(cfg, s', cmd, YES);
    SameInStep(HandleDATA(cfg, s', YES).s, Step(cfg, s, YES));
  }

  lemma DeliveryHandled(cfg: Config, s: Sess, rest: string, cmd: Command)
    requires At(s, RcptTo, TEXT_LINE + END_LINE + rest) && Lenient(cfg) && cfg.storage
    requires cfg.limits.maxLineLength <= 0 && cmd.verb == DATA
    ensures var h := HandleDATA(cfg, s, YES);
            && InStep(h.s) && h.s.state == Identified && h.s.exit.None? && h.s.input == Last(rest, IoError)
            && Accepts(EventOf(DATA_LINE, cmd, h, YES), DATA)
            && |h.s.stored| == |s.stored| + 1 && h.s.stored[|s.stored|].content.data == TEXT_LINE
  {
    hide Say, HandleDATA, StreamData, Bytes, Passed, InStep, Unstuffed, IsTerminator, IsLine;
    TextPhase(cfg, s, rest);
    DataOutcome(cfg, s, YES);
    DataHasEffect(cfg, s, DATA_LINE, cmd, YES);
    DataBody(cfg, s, YES);
    PhaseFacts(cfg, s);
  }

  lemma SameInStep(s: Sess, t: Sess)
    requires t.sm == s.sm && t.state == s.state && t.envelope == s.envelope && t.tls == s.tls
    ensures InStep(t) == InStep(s)
  {
  }

  /** The script comes through every phase of a transaction; then the copies disagree: the
      machine is in Data, the engine's copy says Identified. */
  lemma CopiesDisagree(cfg: Config)
    requires Lenient(cfg) && cfg.tlsPolicy != TLSRequired
    ensures var w: nat -> Oracle := _ => YES;
            var input := Last(SCRIPT, IoError);
            && Run(cfg, input, w, 0).state == Greeted && Run(cfg, input, w, 1).state == Identified
            && Run(cfg, input, w, 2).state == MailFrom && Run(cfg, input, w, 3).state == RcptTo
            && Run(cfg, input, w, 4).sm.state == Data && Run(cfg, input, w, 4).state == Identified
  {
    hide Run, Step, Start, InStep;
    var w: nat -> Oracle := _ => YES;
    var input := Last(SCRIPT, IoError);
    GreetedFirst(cfg, input, w);
    HeloStep(cfg, Run(cfg, input, w, 0), MAIL_LINE + (RCPT_LINE + (DATA_LINE + "")));
    RunStep(cfg, input, w, 1);
    MailStep(cfg, Run(cfg, input, w, 1), RCPT_LINE + (DATA_LINE + ""));
    RunStep(cfg, input, w, 2);
    RcptStep(cfg, Run(cfg, input, w, 2), DATA_LINE + "");
    RunStep(cfg, input, w, 3);
    DataStep(cfg, Run(cfg, input, w, 3));
    RunStep(cfg, input, w, 4);
  }

  /** A session that is upgraded, drops what was sent ahead of the upgrade, stores one message
      that came over TLS, and ends. */
  lemma DeliveredOverTLS(cfg: Config)
    requires Lenient(cfg) && cfg.tlsPolicy != TLSDisabled && cfg.tlsProvider && cfg.storage
    requires cfg.limits.maxLineLength <= 0
    ensures var w: nat -> Oracle := _ => YES;
            var input := Last(CLEAR_SCRIPT, IoError);
            && Run(cfg, input, w, 2).sm.state == StartTLS && Run(cfg, input, w, 2).input.bytes == QUIT_LINE + ""
            && Run(cfg, input, w, 3).sm.state == Greeted && Run(cfg, input, w, 3).tls
            && |Run(cfg, input, w, 3).log| == 3 && Run(cfg, input, w, 3).log[2].Upgraded?
            && |Run(cfg, input, w, 7).log| == 7 && Accepts(Run(cfg, input, w, 7).log[6], DATA)
            && |Run(cfg, input, w, 7).stored| == 1 && Run(cfg, input, w, 7).stored[0].content.data == TEXT_LINE
            && Run(cfg, input, w, 8).sm.state == Terminated
  {
    hide Run, Step, Start, InStep, Accepts;
    var w: nat -> Oracle := _ => YES;
    var input := Last(CLEAR_SCRIPT, IoError);
    GreetedFirst(cfg, input, w);
    HeloStep(cfg, Run(cfg, input, w, 0), STARTTLS_LINE + (QUIT_LINE + ""));
    RunStep(cfg, input, w, 1);
    StartTLSStep(cfg, Run(cfg, input, w, 1), QUIT_LINE + "");
    RunStep(cfg, input, w, 2);
    AtState(Run(cfg, input, w, 2), StartTLS, QUIT_LINE + "");
    UpgradeStep(cfg, Run(cfg, input, w, 2), QUIT_LINE + "");
    RunStep(cfg, input, w, 3);
    AtState(Run(cfg, input, w, 3), Greeted, SECURE_SCRIPT);
    SecurePart(cfg, input, w);
  }

  lemma AtState(s: Sess, st: State, bytes: string)
    requires At(s, st, bytes)
    ensures s.sm.state == st
  {
  }

  lemma SecurePart(cfg: Config, input: Stream, w: nat -> Oracle)
    requires Lenient(cfg) && cfg.limits.maxLineLength <= 0 && cfg.storage && forall k: nat :: w(k) == YES
    requires var s := Run(cfg, input, w, 3);
             At(s, Greeted, SECURE_SCRIPT) && s.tls && |s.log| == 3 && s.stored == []
    ensures var s := Run(cfg, input, w, 7);
            && |s.log| == 7 && Accepts(s.log[6], DATA)
            && |s.stored| == 1 && s.stored[0].content.data == TEXT_LINE
    ensures Run(cfg, input, w, 8).sm.state == Terminated
  {
    hide Run, Step, Accepts, InStep;
    var last := QUIT_LINE + "";
    var text := TEXT_LINE + END_LINE + last;
    HeloStep(cfg, Run(cfg, input, w, 3), MAIL_LINE + (RCPT_LINE + (DATA_LINE + text)));
    RunStep(cfg, input, w, 4);
    MailStep(cfg, Run(cfg, input, w, 4), RCPT_LINE + (DATA_LINE + text));
    RunStep(cfg, input, w, 5);
    RcptStep(cfg, Run(cfg, input, w, 5), DATA_LINE + text);
    RunStep(cfg, input, w, 6);
    DeliveryStep(cfg, Run(cfg, input, w, 6), last);
    RunStep(cfg, input, w, 7);
    QuitStep(cfg, Run(cfg, input, w, 7), "");
    RunStep(cfg, input, w, 8);
  }

  /** An empty line, where one error is too many. */
  lemma EmptyLineAborts(cfg: Config, w: nat -> Oracle)
    requires w(0) == YES && cfg.limits.maxErrors == 1
    ensures Run(cfg, Last(CRLF, IoError), w, 1).sm.state == Aborted
  {
    hide Run, Start, Say, Bytes, Passed, Apply, InStep;
    var input := Last(CRLF, IoError);
    GreetedFirst(cfg, input, w);
    var s := Run(cfg, input, w, 0);
    StatesOf(s);
    NextLineOf(input, CRLF, "");
    EmptyFails(MaxCommandLength(cfg));
    CallMoves(s.sm);
    RunStep(cfg, input, w, 1);
  }

  lemma EmptyFails(max: int)
    ensures ParseCommand(max, CRLF).Err?
  {
    ChompLine(CRLF);
  }

  lemma GreetedFirst(cfg: Config, input: Stream, w: nat -> Oracle)
    requires w(0) == YES
    ensures var s := Run(cfg, input, w, 0);
            && InStep(s) && s.state == Greeted && s.exit.None? && s.input == input
            && !s.tls && s.log == [] && s.stored == [] && s.errors == 0
  {
    hide Say, Bytes, Passed;
  }
}
