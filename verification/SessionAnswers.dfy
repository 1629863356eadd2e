/** What every command is answered, and exactly when: reply codes over the configuration, the state
    of the session and the answers of policy, mailbox, storage and hook. */
module SessionAnswers {
  import opened Text
  import opened Conn
  import opened Protocol
  import opened StateMachine
  import opened Parser
  import opened DataCodec
  import opened Decimal
  import opened Phrases
  import opened Reply
  import opened Envelopes
  import opened Session
  import opened SessionStates
  import opened SessionLog
  import opened SessionRecord

  /** The command is answered with this code and a single line, and nothing has changed. */
  predicate Answered(s: Sess, h: Outcome, code: nat) {
    h.s == s && h.body == [] && h.earlier == [] && h.reply.code == code && |h.reply.lines| == 1
  }

  /** The same with a reply that somebody else has chosen. */
  predicate AnsweredWith(s: Sess, h: Outcome, reply: Response) {
    h.s == s && h.body == [] && h.earlier == [] && h.reply == reply
  }

  predicate IsFull(cfg: Config, d: Draft) {
    cfg.limits.maxRecipients > 0 && |d.recipients| >= cfg.limits.maxRecipients
  }

  /** RCPT is accepted exactly if its path parses, there is room, and the mailbox takes it; a
      mailbox that rejects decides the reply. */
  lemma RcptAnswer(cfg: Config, s: Sess, cmd: Command, o: Oracle)
    requires InStep(s) && (s.state == MailFrom || s.state == RcptTo)
    ensures var h := HandleRCPT(cfg, s, cmd, o);
            var path := ParseMailPath(cmd.argument, "TO");
            var d := s.envelope.value;
            if path.Err? then Answered(s, h, 501)
            else if IsFull(cfg, d) then Answered(s, h, 452)
            else if o.mailbox.Some? then AnsweredWith(s, h, o.mailbox.value)
            else
              && h.reply.code == 250 && Both(h.s, RcptTo)
              && h.s == s.(envelope := Some(d.(recipients := d.recipients + [path.value])),
                           sm := h.s.sm, state := RcptTo)
  {
    hide Say, ParseMailPath, Apply;
    CallMoves(s.sm);
  }

  /** With honest oracles 250 means just that. */
  lemma RcptAcceptedIff(cfg: Config, s: Sess, cmd: Command, o: Oracle)
    requires InStep(s) && (s.state == MailFrom || s.state == RcptTo)
    requires o.mailbox.Some? ==> 400 <= o.mailbox.value.code
    ensures HandleRCPT(cfg, s, cmd, o).reply.code == 250 <==>
            ParseMailPath(cmd.argument, "TO").Ok? && !IsFull(cfg, s.envelope.value) && o.mailbox.None?
  {
    hide HandleRCPT, ParseMailPath, InStep;
    RcptAnswer(cfg, s, cmd, o);
  }

  /** A size was declared, the server offers to check it, and it is over the limit. */
  predicate DeclaresTooMuch(cfg: Config, params: Params) {
    cfg.ext.size && 0 < cfg.limits.maxMessageSize
    && "SIZE" in params && cfg.limits.maxMessageSize < cfg.scanSize(params["SIZE"])
  }

  predicate IsSpent(cfg: Config, s: Sess) {
    0 < cfg.limits.maxTransactions <= s.stats.transactions
  }

  /** MAIL is accepted exactly if TLS is on where it is required, transactions are left, the path
      parses, the declared size is admitted and the sender policy takes it; then a new builder
      has the sender and the parameters and nothing else. */
  lemma MailAnswer(cfg: Config, s: Sess, cmd: Command, o: Oracle)
    requires InStep(s) && s.state == Identified
    ensures var h := HandleMAIL(cfg, s, cmd, o);
            var path := ParseMailPath(cmd.argument, "FROM");
            if cfg.tlsPolicy == TLSRequired && !s.tls then Answered(s, h, 530)
            else if IsSpent(cfg, s) then Answered(s, h, 421)
            else if path.Err? then Answered(s, h, 501)
            else if DeclaresTooMuch(cfg, cmd.params) then Answered(s, h, 552)
            else if o.sender.Some? then AnsweredWith(s, h, o.sender.value)
            else
              && h.reply.code == 250 && Both(h.s, MailFrom)
              && h.s == s.(sm := h.s.sm, state := MailFrom,
                           envelope := Some(Draft(o.id, Some(path.value), cmd.params, [], "", NoWriter, false,
                                                  Metadata(s.host, cfg.serverHostname, s.tls))))
  {
    hide Say, ParseMailPath, Apply;
    CallMoves(s.sm);
  }

  lemma MailAcceptedIff(cfg: Config, s: Sess, cmd: Command, o: Oracle)
    requires InStep(s) && s.state == Identified
    requires o.sender.Some? ==> 400 <= o.sender.value.code
    ensures HandleMAIL(cfg, s, cmd, o).reply.code == 250 <==>
            && (cfg.tlsPolicy == TLSRequired ==> s.tls) && !IsSpent(cfg, s)
            && ParseMailPath(cmd.argument, "FROM").Ok? && !DeclaresTooMuch(cfg, cmd.params) && o.sender.None?
  {
    hide HandleMAIL, ParseMailPath, InStep, DeclaresTooMuch;
    MailAnswer(cfg, s, cmd, o);
  }

  /** STARTTLS is answered 220 and leads to StartTLS exactly if TLS is not disabled, not yet on and
      there is a provider; otherwise 502, 503 and 454, in that order. */
  lemma StartTLSAnswer(cfg: Config, s: Sess)
    requires InStep(s) && s.state == Identified
    ensures var h := HandleSTARTTLS(cfg, s);
            if cfg.tlsPolicy == TLSDisabled then Answered(s, h, 502)
            else if s.tls then Answered(s, h, 503)
            else if !cfg.tlsProvider then Answered(s, h, 454)
            else h.reply.code == 220 && Both(h.s, StartTLS) && h.s == s.(sm := h.s.sm, state := StartTLS)
  {
    hide Say, Apply;
    CallMoves(s.sm);
  }

  /** HELO and EHLO are accepted exactly if the trimmed argument is a host name or is bracketed; that
      is then the client's name and no builder is left. */
  lemma HeloAnswer(cfg: Config, s: Sess, cmd: Command)
    requires InStep(s) && (s.state == Greeted || s.state == Identified)
    ensures var host := Trim(cmd.argument);
            var good := host != "" && if host[0] == '[' then host[|host| - 1] == ']' else IsValidHostname(host);
            forall h :: h == HandleHELO(cfg, s, cmd) || h == HandleEHLO(cfg, s, cmd) ==>
              if good then
                && h.reply.code == 250 && Both(h.s, Identified)
                && h.s == s.(host := host, sm := h.s.sm, state := Identified, envelope := None)
              else Answered(s, h, 501)
  {
    hide Say, Apply, ParseHeloHostname, EhloLines, Trim, IsValidHostname;
    CallMoves(s.sm);
    HeloHostnameIff(cmd.argument, Trim(cmd.argument));
    var r := ParseHeloHostname(cmd.argument);
    if r.Ok? {
      HeloHostnameIff(cmd.argument, r.value);
    }
  }

  /** HELP names STARTTLS exactly while it can be used. */
  predicate HelpIsRight(cfg: Config, s: Sess, r: Response) {
    cfg.ext.help ==>
      && |r.lines| == 4
      && r.lines[2] == Say(HelpMore) + (if cfg.ext.starttls && CanStart(cfg, s) then Say(HelpTLS) else "")
  }

  /** What STARTTLS needs. */
  predicate CanStart(cfg: Config, s: Sess) {
    cfg.tlsPolicy != TLSDisabled && !s.tls && cfg.tlsProvider
  }

  /** The remaining commands. RSET and NOOP are always accepted, QUIT ends the session, VRFY and HELP
      depend on the configuration, and EXPN and AUTH are never implemented. */
  lemma OtherAnswers(cfg: Config, s: Sess, cmd: Command, o: Oracle)
    requires InStep(s) && IsCommandAllowed(s.state, cmd.verb)
    ensures var h := Handle(cfg, s, cmd, o);
            match cmd.verb
            case RSET =>
              var st := if s.state == Greeted then Greeted else Identified;
              && h.reply.code == 250 && Both(h.s, st)
              && h.s == s.(sm := h.s.sm, state := st, envelope := None)
            case NOOP => Answered(s, h, 250)
            case QUIT =>
              h.reply.code == 221 && h.s.sm.state == Terminated && h.s == s.(sm := h.s.sm)
            case VRFY => Answered(s, h, if cfg.ext.vrfy then 252 else 502)
            case HELP => h.s == s && h.reply.code == (if cfg.ext.help then 214 else 502) && HelpIsRight(cfg, s, h.reply)
            case EXPN => Answered(s, h, 502)
            case AUTH => Answered(s, h, 502)
            case _ => true
  {
    hide Say, Apply, HandleHELO, HandleEHLO, HandleMAIL, HandleRCPT, HandleDATA, HandleSTARTTLS;
    CallMoves(s.sm);
    CallMoves(Apply(s.sm, CallForCommand(QUIT, true)));
  }

  // ----- What EHLO offers -----

  /** The announced extensions: the texts, and that no two are the same. */
  lemma OfferTexts()
    ensures Say(OfferTLS) == "STARTTLS" && Say(Offer8Bit) == "8BITMIME" && Say(OfferPipelining) == "PIPELINING"
    ensures Say(OfferEnhanced) == "ENHANCEDSTATUSCODES" && Say(OfferUtf8) == "SMTPUTF8" && Say(OfferHelp) == "HELP"
    ensures Say(SizeOffer) == "SIZE "
  {
    hide SayNotice, SayRefusal, SayPolicy, SayDataText, SayHelpText, Say;
    FeatureSaid(OfferTLS);
    FeatureSaid(Offer8Bit);
    FeatureSaid(OfferPipelining);
    FeatureSaid(OfferEnhanced);
    FeatureSaid(OfferUtf8);
    FeatureSaid(OfferHelp);
    FeatureSaid(SizeOffer);
  }

  lemma FeatureSaid(p: Phrase)
    requires p.SizeOffer? || p.OfferTLS? || p.Offer8Bit? || p.OfferPipelining? || p.OfferEnhanced? || p.OfferUtf8?
             || p.OfferHelp?
    ensures Say(p) == SayFeature(p)
  {
    hide SayNotice, SayRefusal, SayPolicy, SayDataText, SayHelpText, SayFeature;
  }

  predicate IsSizeOffer(l: string, max: int) {
    5 <= |l| && l[..5] == "SIZE " && ReadSigned(l[5..]) == Ok(max)
  }

  lemma SizeOfferReads(max: int)
    ensures IsSizeOffer("SIZE " + Integer(max), max)
  {
    hide Integer, ReadSigned, IsCanonical;
    IntegerReadsBack(max);
    var l := "SIZE " + Integer(max);
    assert l[..5] == "SIZE " && l[5..] == Integer(max);
  }

  /** EHLO announces an extension exactly if it is configured; STARTTLS only while it can be used, and
      SIZE with the limit in force. */
  lemma EhloOffers(cfg: Config, s: Sess, cmd: Command)
    requires HandleEHLO(cfg, s, cmd).reply.code == 250
    ensures var ls := HandleEHLO(cfg, s, cmd).reply.lines;
            && ls != []
            && var offers := ls[1..];
               && ("STARTTLS" in offers <==> cfg.ext.starttls && cfg.tlsPolicy != TLSDisabled && !s.tls)
               && ("8BITMIME" in offers <==> cfg.ext.eightBitMime)
               && ("PIPELINING" in offers <==> cfg.ext.pipelining)
               && ("ENHANCEDSTATUSCODES" in offers <==> cfg.ext.enhancedStatusCodes)
               && ("SMTPUTF8" in offers <==> cfg.ext.smtpUtf8)
               && ("HELP" in offers <==> cfg.ext.help)
               && ((exists l :: l in offers && IsSizeOffer(l, cfg.limits.maxMessageSize)) <==>
                   cfg.ext.size && cfg.limits.maxMessageSize > 0)
  {
    hide Say, ParseHeloHostname, Apply, EhloLines, ReadSigned;
    OffersIff(cfg, ParseHeloHostname(cmd.argument).value, s.tls);
  }

  lemma OffersIff(cfg: Config, host: string, tls: bool)
    ensures var ls := EhloLines(cfg, host, tls);
            && ls != []
            && var offers := ls[1..];
               && ("STARTTLS" in offers <==> cfg.ext.starttls && cfg.tlsPolicy != TLSDisabled && !tls)
               && ("8BITMIME" in offers <==> cfg.ext.eightBitMime)
               && ("PIPELINING" in offers <==> cfg.ext.pipelining)
               && ("ENHANCEDSTATUSCODES" in offers <==> cfg.ext.enhancedStatusCodes)
               && ("SMTPUTF8" in offers <==> cfg.ext.smtpUtf8)
               && ("HELP" in offers <==> cfg.ext.help)
               && ((exists l :: l in offers && IsSizeOffer(l, cfg.limits.maxMessageSize)) <==>
                   cfg.ext.size && cfg.limits.maxMessageSize > 0)
  {
    hide Say, Integer, ReadSigned;
    OfferTexts();
    var max := cfg.limits.maxMessageSize;
    SizeOfferReads(max);
    var ls := EhloLines(cfg, host, tls);
    var offers := ls[1..];
    var size := "SIZE " + Integer(max);
    forall l
      ensures l in offers <==>
              || (cfg.ext.size && max > 0 && l == size)
              || (cfg.ext.starttls && cfg.tlsPolicy != TLSDisabled && !tls && l == "STARTTLS")
              || (cfg.ext.eightBitMime && l == "8BITMIME")
              || (cfg.ext.pipelining && l == "PIPELINING")
              || (cfg.ext.enhancedStatusCodes && l == "ENHANCEDSTATUSCODES")
              || (cfg.ext.smtpUtf8 && l == "SMTPUTF8")
              || (cfg.ext.help && l == "HELP")
    {
      OfferMembers(cfg, host, tls, l);
    }
    hide EhloLines;
    OffersDiffer(size);
  }

  lemma OffersDiffer(size: string)
    requires 5 <= |size| && size[..5] == "SIZE "
    ensures size != "STARTTLS" && size != "8BITMIME" && size != "PIPELINING" && size != "ENHANCEDSTATUSCODES"
    ensures size != "SMTPUTF8" && size != "HELP"
    ensures forall l, max :: IsSizeOffer(l, max) ==>
              l !in {"STARTTLS", "8BITMIME", "PIPELINING", "ENHANCEDSTATUSCODES", "SMTPUTF8", "HELP"}
  {
    hide ReadSigned;
    assert size[1] == 'I' && size[4] == ' ';
    forall l, max | IsSizeOffer(l, max)
      ensures l !in {"STARTTLS", "8BITMIME", "PIPELINING", "ENHANCEDSTATUSCODES", "SMTPUTF8", "HELP"}
    {
      assert l[..5][1] == 'I' && l[..5][4] == ' ' && l[..5][0] == 'S';
      assert l[0] == 'S' && l[1] == 'I';
    }
  }

  lemma OfferMembers(cfg: Config, host: string, tls: bool, l: string)
    ensures var max := cfg.limits.maxMessageSize;
            EhloLines(cfg, host, tls) != [] &&
            (l in EhloLines(cfg, host, tls)[1..] <==>
              || (cfg.ext.size && max > 0 && l == Say(SizeOffer) + Integer(max))
              || (cfg.ext.starttls && cfg.tlsPolicy != TLSDisabled && !tls && l == Say(OfferTLS))
              || (cfg.ext.eightBitMime && l == Say(Offer8Bit))
              || (cfg.ext.pipelining && l == Say(OfferPipelining))
              || (cfg.ext.enhancedStatusCodes && l == Say(OfferEnhanced))
              || (cfg.ext.smtpUtf8 && l == Say(OfferUtf8))
              || (cfg.ext.help && l == Say(OfferHelp)))
  {
    hide Say, Integer, Offer, EhloLines;
    EhloIsSum(cfg, host, tls);
    var first := cfg.serverHostname + Say(HelloText) + host;
    var max := cfg.limits.maxMessageSize;
    var a := Offer(cfg.ext.size && max > 0, Say(SizeOffer) + Integer(max));
    var b := Offer(cfg.ext.starttls && cfg.tlsPolicy != TLSDisabled && !tls, Say(OfferTLS));
    var c, d := Offer(cfg.ext.eightBitMime, Say(Offer8Bit)), Offer(cfg.ext.pipelining, Say(OfferPipelining));
    var e, f := Offer(cfg.ext.enhancedStatusCodes, Say(OfferEnhanced)), Offer(cfg.ext.smtpUtf8, Say(OfferUtf8));
    var g := Offer(cfg.ext.help, Say(OfferHelp));
    InSum(first, a, b, c, d, e, f, g, l);
    InOffer(l, cfg.ext.size && max > 0, Say(SizeOffer) + Integer(max));
    InOffer(l, cfg.ext.starttls && cfg.tlsPolicy != TLSDisabled && !tls, Say(OfferTLS));
    InOffer(l, cfg.ext.eightBitMime, Say(Offer8Bit));
    InOffer(l, cfg.ext.pipelining, Say(OfferPipelining));
    InOffer(l, cfg.ext.enhancedStatusCodes, Say(OfferEnhanced));
    InOffer(l, cfg.ext.smtpUtf8, Say(OfferUtf8));
    InOffer(l, cfg.ext.help, Say(OfferHelp));
  }

  lemma EhloIsSum(cfg: Config, host: string, tls: bool)
    ensures EhloLines(cfg, host, tls) ==
            [cfg.serverHostname + Say(HelloText) + host]
            + Offer(cfg.ext.size && cfg.limits.maxMessageSize > 0,
                    Say(SizeOffer) + Integer(cfg.limits.maxMessageSize))
            + Offer(cfg.ext.starttls && cfg.tlsPolicy != TLSDisabled && !tls, Say(OfferTLS))
            + Offer(cfg.ext.eightBitMime, Say(Offer8Bit)) + Offer(cfg.ext.pipelining, Say(OfferPipelining))
            + Offer(cfg.ext.enhancedStatusCodes, Say(OfferEnhanced)) + Offer(cfg.ext.smtpUtf8, Say(OfferUtf8))
            + Offer(cfg.ext.help, Say(OfferHelp))
    ensures EhloLines(cfg, host, tls) != []
  {
    hide Say, Integer, Offer;
  }

  lemma InOffer(l: string, on: bool, text: string)
    ensures l in Offer(on, text) <==> on && l == text
  {
  }

  lemma InSum(first: string, a: seq<string>, b: seq<string>, c: seq<string>, d: seq<string>, e: seq<string>,
              f: seq<string>, g: seq<string>, l: string)
    ensures var ls := [first] + a + b + c + d + e + f + g;
            l in ls[1..] <==> l in a || l in b || l in c || l in d || l in e || l in f || l in g
  {
    var x := a + b + c + d;
    var y := e + f + g;
    assert [first] + a + b + c + d + e + f + g == [first] + (x + y);
    assert ([first] + (x + y))[1..] == x + y;
    assert l in x <==> l in a || l in b || l in c || l in d;
    assert l in y <==> l in e || l in f || l in g;
  }

  // ----- DATA -----

  /** After its 354 a DATA command takes exactly a phase from the input. */
  lemma DataBody(cfg: Config, s: Sess, o: Oracle)
    requires InStep(s) && s.state == RcptTo && o.first.None?
    ensures var h := HandleDATA(cfg, s, o); h.body == Phase(cfg, s).lines && h.s.input == Phase(cfg, s).rest
  {
    hide Say, Apply, StreamData, Bytes, Passed, Concat;
  }

  /** The answer to a message, by the first line that ends it: at the terminator 250, or 451 if the
      storage refuses; at a line that is too long 500; at a line that makes it too large 552. */
  lemma DataAnswer(cfg: Config, s: Sess, o: Oracle, i: nat)
    requires InStep(s) && s.state == RcptTo && o.first.None?
    requires var ls := Lines(s.input.bytes);
             && i < |ls| && StopsAt(cfg.limits.maxLineLength, cfg.limits.maxMessageSize, 0, ls, i)
             && forall k: nat :: k < i ==>
                  !StopsAt(cfg.limits.maxLineLength, cfg.limits.maxMessageSize, 0, ls, k)
    ensures var h := HandleDATA(cfg, s, o);
            var ls := Lines(s.input.bytes);
            && h.body == ls[..i + 1]
            && h.reply.code == (if IsEnd(ls[i]) then (if cfg.storage && !o.stores then 451 else 250)
                                else if IsTooLong(cfg.limits.maxLineLength, ls[i]) then 500 else 552)
            && (if h.reply.code == 250 then InStep(h.s) && h.s.state == Identified else IsStuck(h.s))
  {
    hide HandleDATA, StreamData, StopsAt, IsEnd, IsTooLong, Lines, InStep;
    DataBody(cfg, s, o);
    DataOutcome(cfg, s, o);
    PhaseEndsAt(cfg.limits.maxLineLength, cfg.limits.maxMessageSize, 0, s.input, i);
  }

  /** A message that no line ends is answered 451. */
  lemma DataRunsOut(cfg: Config, s: Sess, o: Oracle)
    requires InStep(s) && s.state == RcptTo && o.first.None?
    requires var ls := Lines(s.input.bytes);
             forall k: nat :: k < |ls| ==>
               !StopsAt(cfg.limits.maxLineLength, cfg.limits.maxMessageSize, 0, ls, k)
    ensures var h := HandleDATA(cfg, s, o);
            && h.reply == NewResponse(451, Say(if s.input.err == Timeout then DataTimeout else DataError))
            && IsStuck(h.s) && h.body == Lines(s.input.bytes)
  {
    hide HandleDATA, StreamData, StopsAt, Lines, InStep, Say;
    DataFaultText(cfg, s, o) by { PhaseRunsOut(cfg.limits.maxLineLength, cfg.limits.maxMessageSize, 0, s.input); }
    DataBody(cfg, s, o);
    DataOutcome(cfg, s, o);
    PhaseRunsOut(cfg.limits.maxLineLength, cfg.limits.maxMessageSize, 0, s.input);
  }

  /** A stuffed message that breaks a limit first with line i is answered 500 or 552; nothing that
      follows that line matters. */
  lemma LongMessageAnswer(cfg: Config, s: Sess, o: Oracle, lines: seq<string>, tail: string, i: nat)
    requires InStep(s) && s.state == RcptTo && o.first.None?
    requires (forall l :: l in lines ==> IsLine(l)) && s.input.bytes == Concat(StuffAll(lines)) + tail
    requires i < |lines| && BreaksAt(cfg.limits.maxLineLength, cfg.limits.maxMessageSize, lines, i)
    requires forall k: nat :: k < i ==> !BreaksAt(cfg.limits.maxLineLength, cfg.limits.maxMessageSize, lines, k)
    ensures HandleDATA(cfg, s, o).reply.code ==
            if IsTooLong(cfg.limits.maxLineLength, StuffLine(lines[i])) then 500 else 552
  {
    hide HandleDATA, StreamData, BreaksAt, IsTooLong, InStep, IsLine, StuffLine;
    DataOutcome(cfg, s, o);
    StuffedEndsAt(cfg.limits.maxLineLength, cfg.limits.maxMessageSize, lines, tail, s.input, i);
  }

  /** What is said when the stream fails inside a message: a timeout is told from other errors. */
  lemma DataFaultText(cfg: Config, s: Sess, o: Oracle)
    requires InStep(s) && s.state == RcptTo && o.first.None? && Phase(cfg, s).end.ReadFault?
    ensures HandleDATA(cfg, s, o).reply ==
            NewResponse(451, Say(if Phase(cfg, s).end.err == Timeout then DataTimeout else DataError))
  {
    hide Say, Apply, StreamData, Bytes, Passed, Concat;
  }

  // ----- One turn of the loop -----

  predicate SameSession(s: Sess, t: Sess) {
    && t.sm == s.sm && t.state == s.state && t.host == s.host && t.tls == s.tls
    && t.envelope == s.envelope && t.stored == s.stored && t.input == s.input
  }

  /** How a turn that met this error ends the session, if it does. */
  predicate EndsBy(t: Sess, err: Option<ErrKind>) {
    if err.Some? && t.sm.state.IsTerminal() then t.exit == Some(Normal)
    else if err == Some(Timeout) then t.exit == Some(TimedOut)
    else if err == Some(IoError) then t.exit == Some(IoFailed)
    else t.exit.None?
  }

  function ErrorOf(f: Option<Fault>): Option<ErrKind> {
    if f.Some? then Some(f.value.err) else None
  }

  /** The exchange by which t is ahead of s. */
  predicate Exchanged(s: Sess, t: Sess, line: string, o: Oracle) {
    && |t.log| == |s.log| + 1 && s.log <= t.log
    && t.log[|s.log|].Exchange? && t.log[|s.log|].line == line && t.log[|s.log|].sent == o.final.None?
    && HasReply(t.log[|s.log|])
  }

  /** A line that does not parse: 421 and Aborted when it reaches the limit, 500 otherwise. */
  lemma UnparsedTurn(cfg: Config, s: Sess, o: Oracle, line: string, rest: Stream)
    requires (InStep(s) || IsStuck(s)) && s.exit.None? && s.state != StartTLS
    requires NextLine(s.input) == Line(line, rest) && ParseCommand(MaxCommandLength(cfg), line).Err?
    ensures var t := Step(cfg, s, o);
            var last := cfg.limits.maxErrors > 0 && s.errors + 1 >= cfg.limits.maxErrors;
            && Exchanged(s, t, line, o) && t.errors == s.errors + 1
            && FinalReply(t.log[|s.log|]).code == (if last then 421 else 500)
            && (if last then t.sm.state == Aborted && t.exit == Some(Normal)
                else SameSession(s.(input := rest), t) && t.exit.None?)
  {
    hide Say, ParseCommand, NextLine, Bytes, Passed, Apply, OnHandled;
    CallMoves(s.sm);
  }

  /** A line that parses but is refused: by the hook with 554, or with 503 exactly if the table of
      command order does not have it in this state. Nothing else changes. */
  lemma RefusedTurn(cfg: Config, s: Sess, o: Oracle, line: string, rest: Stream, cmd: Command)
    requires (InStep(s) || IsStuck(s)) && s.exit.None? && s.state != StartTLS
    requires NextLine(s.input) == Line(line, rest) && ParseCommand(MaxCommandLength(cfg), line) == Ok(cmd)
    requires o.hook.Some? || !IsStateValidForCommand(s.sm.state, cmd.verb)
    ensures var t := Step(cfg, s, o);
            && Exchanged(s, t, line, o) && SameSession(s.(input := rest), t)
            && (if o.hook.Some? then
                  FinalReply(t.log[|s.log|]).code == 554 && t.errors == s.errors && EndsBy(t, o.hook)
                else FinalReply(t.log[|s.log|]).code == 503 && t.errors == s.errors + 1 && t.exit.None?)
  {
    TablesAgree(s.sm.state, cmd.verb);
    hide Say, ParseCommand, NextLine, Bytes, Passed, Apply, OnHandled, IsCommandAllowed, IsStateValidForCommand;
    hide InStep, IsStuck, Dispatch;
    NotOver(s);
    var s' := TakeLine(s, line, rest);
    RefusedDispatch(cfg, s', o, line, cmd);
  }

  lemma NotOver(s: Sess)
    requires InStep(s) || IsStuck(s)
    ensures !s.sm.state.IsTerminal() && (InStep(s) ==> s.sm.state == s.state)
  {
  }

  lemma RefusedDispatch(cfg: Config, s: Sess, o: Oracle, line: string, cmd: Command)
    requires o.hook.Some? || !IsCommandAllowed(s.sm.state, cmd.verb)
    ensures var p := Dispatch(cfg, s, line, Ok(cmd), o);
            && Exchanged(s, p.s, line, o) && SameSession(s, p.s) && p.s.exit == s.exit
            && (if o.hook.Some? then
                  FinalReply(p.s.log[|s.log|]).code == 554 && p.s.errors == s.errors && p.err == o.hook
                else FinalReply(p.s.log[|s.log|]).code == 503 && p.s.errors == s.errors + 1 && p.err.None?)
  {
    hide Say, Bytes, Passed, OnHandled, IsCommandAllowed;
  }

  /** Every other line is handed to its handler and answered as that says; the error count is cleared
      exactly by a final reply from 200 to 399 that got through. */
  lemma HandledTurn(cfg: Config, s: Sess, o: Oracle, line: string, rest: Stream, cmd: Command)
    requires InStep(s) && s.exit.None? && s.state != StartTLS
    requires NextLine(s.input) == Line(line, rest) && ParseCommand(MaxCommandLength(cfg), line) == Ok(cmd)
    requires o.hook.None? && IsStateValidForCommand(s.state, cmd.verb)
    ensures var t := Step(cfg, s, o);
            var h := Handle(cfg, TakeLine(s, line, rest), cmd, o);
            && Exchanged(s, t, line, o) && SameSession(h.s, t)
            && t.log[|s.log|].how == Handled(cmd) && t.log[|s.log|].replies == h.earlier + [h.reply]
            && t.errors == (if o.final.None? && 200 <= h.reply.code <= 399 then 0 else s.errors)
            && EndsBy(t, ErrorOf(o.final))
  {
    TablesAgree(s.state, cmd.verb);
    hide Say, ParseCommand, NextLine, Bytes, Passed, Apply, Handle, IsCommandAllowed, IsStateValidForCommand;
    hide InStep;
    NotOver(s);
    var s' := TakeLine(s, line, rest);
    assert Shape(s') by { ShapeOfTaken(s, line, rest); }
    HandleKeepsShape(cfg, s', cmd, o);
    HandleKeepsLog(cfg, s', cmd, o);
    HandleKeepsErrors(cfg, s', cmd, o);
  }

  /** No handler touches the error count. */
  lemma HandleKeepsErrors(cfg: Config, s: Sess, cmd: Command, o: Oracle)
    ensures Handle(cfg, s, cmd, o).s.errors == s.errors
  {
    hide Say, Apply, ParseMailPath, ParseHeloHostname, EhloLines, DeclaredTooLarge, HandleDATA;
    if cmd.verb == DATA {
      DataKeepsErrors(cfg, s, o);
    }
  }

  lemma DataKeepsErrors(cfg: Config, s: Sess, o: Oracle)
    ensures HandleDATA(cfg, s, o).s.errors == s.errors
  {
    hide Say, Apply, StreamData, Bytes, Passed, Concat;
  }

  /** A session in a terminal state ends normally. A failed read ends it by the kind of its error, and a
      failed handshake ends it as well. */
  lemma OtherTurns(cfg: Config, s: Sess, o: Oracle)
    requires Shape(s) && s.exit.None?
    ensures s.sm.state.IsTerminal() ==> Step(cfg, s, o) == s.(exit := Some(Normal))
    ensures !s.sm.state.IsTerminal() && s.state != StartTLS && NextLine(s.input).Failed? ==>
              var t := Step(cfg, s, o);
              && t == s.(input := NextLine(s.input).rest, exit := t.exit)
              && EndsBy(t, Some(NextLine(s.input).err))
    ensures !s.sm.state.IsTerminal() && s.state == StartTLS && o.upgrade.None? ==> Step(cfg, s, o) == s.(exit := Some(TlsFailed))
  {
    hide Dispatch, ParseCommand, NextLine, Apply;
  }

  /** The error count falls only to zero, and only by a handled command with a final reply from 200 to
      399 that got through: no reply of 400 or more ever lowers it. */
  lemma ErrorsFallBySuccess(cfg: Config, s: Sess, o: Oracle)
    requires Shape(s)
    ensures var t := Step(cfg, s, o);
            t.errors < s.errors ==>
              t.errors == 0 && |t.log| == |s.log| + 1 && s.log <= t.log && IsSuccess(t.log[|s.log|])
  {
    hide Step, ParseCommand, Handle, NextLine, InStep, IsCommandAllowed, IsStateValidForCommand;
    if s.exit.Some? || s.sm.state.IsTerminal() || s.state == StartTLS || NextLine(s.input).Failed? {
      OthersKeepErrors(cfg, s, o);
    } else {
      var n := NextLine(s.input);
      var parsed := ParseCommand(MaxCommandLength(cfg), n.line);
      if parsed.Err? {
        UnparsedTurn(cfg, s, o, n.line, n.rest);
      } else if o.hook.Some? || !IsStateValidForCommand(s.sm.state, parsed.value.verb) {
        RefusedTurn(cfg, s, o, n.line, n.rest, parsed.value);
      } else {
        InStepByTable(s, parsed.value.verb);
        HandledTurn(cfg, s, o, n.line, n.rest, parsed.value);
      }
    }
  }

  lemma OthersKeepErrors(cfg: Config, s: Sess, o: Oracle)
    requires s.exit.Some? || s.sm.state.IsTerminal() || s.state == StartTLS || NextLine(s.input).Failed?
    ensures Step(cfg, s, o).errors == s.errors
  {
    hide Dispatch, ParseCommand, NextLine, Apply;
  }

  lemma InStepByTable(s: Sess, v: Verb)
    requires (InStep(s) || IsStuck(s)) && IsStateValidForCommand(s.sm.state, v)
    ensures InStep(s) && s.sm.state == s.state
  {
  }

  /** The order of commands, read off the builder: RCPT needs an open transaction and DATA one with a
      recipient; HELO and EHLO need that none is open; MAIL and the commands that ask something of the
      server need moreover that the client has introduced itself; the rest is always in order. */
  lemma CommandOrder(s: Sess, v: Verb)
    requires InStep(s) && s.state != StartTLS
    ensures IsCommandAllowed(s.sm.state, v) <==>
            match v
            case RCPT => s.envelope.Some?
            case DATA => s.envelope.Some? && s.envelope.value.recipients != []
            case HELO => s.envelope.None?
            case EHLO => s.envelope.None?
            case MAIL => s.envelope.None? && s.state != Greeted
            case VRFY => s.envelope.None? && s.state != Greeted
            case EXPN => s.envelope.None? && s.state != Greeted
            case AUTH => s.envelope.None? && s.state != Greeted
            case STARTTLS => s.envelope.None? && s.state != Greeted
            case _ => true
  {
  }

  /** A command line may have 512 octets unless another limit is configured; a negative one means none. */
  lemma LengthLimit(cfg: Config, line: string)
    ensures var max := cfg.limits.maxCommandLength;
            (max == 0 && |line| > 512) || 0 < max < |line| ==> ParseCommand(MaxCommandLength(cfg), line).Err?
    ensures var max := cfg.limits.maxCommandLength;
            (max == 0 && |line| <= 512) || max < 0 || |line| <= max ==>
              ParseCommand(MaxCommandLength(cfg), line) == ParseCommand(-1, line)
  {
    hide Chomp, SplitCommand, ParseCommandVerb, Trim, ParamsOf;
  }
}
