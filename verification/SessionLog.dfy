/** What can be read off the log of a session without knowing how the engine works, and the
    abstract transaction system that the engine implements. */
module SessionLog {
  import opened Text
  import opened Conn
  import opened Protocol
  import opened StateMachine
  import opened Parser
  import opened DataCodec
  import opened Reply
  import opened Envelopes
  import opened Session
  import opened SessionStates

  // ----- Reading one event -----

  predicate HasReply(e: Event) { e.Exchange? && e.replies != [] }

  function FinalReply(e: Event): Response
    requires HasReply(e)
  {
    e.replies[|e.replies| - 1]
  }

  predicate IsHandled(e: Event, v: Verb) {
    HasReply(e) && e.how.Handled? && e.how.cmd.verb == v
  }

  /** The command was answered 250. */
  predicate Accepts(e: Event, v: Verb) {
    IsHandled(e, v) && FinalReply(e).code == 250
  }

  predicate Identifies(e: Event) { Accepts(e, HELO) || Accepts(e, EHLO) }

  /** A DATA command whose 354 went out but which was not answered 250. */
  predicate FailsData(e: Event) {
    IsHandled(e, DATA) && FinalReply(e).code != 250 && FinalReply(e).code != 0
  }

  /** The 354 of a DATA command was lost. */
  predicate LosesData(e: Event) {
    IsHandled(e, DATA) && FinalReply(e).code == 0
  }

  /** The transaction that may be under way is over. */
  predicate EndsTransaction(e: Event) {
    e.Upgraded? || Identifies(e) || Accepts(e, RSET) || IsHandled(e, DATA)
  }

  /** A handled command with a final reply from 200 to 399 that got through. */
  predicate IsSuccess(e: Event) {
    HasReply(e) && e.how.Handled? && e.sent && 200 <= FinalReply(e).code <= 399
  }

  predicate IsError(e: Event) {
    e.Exchange? && (e.how.Unparsed? || e.how.OutOfSequence?)
  }

  function PathIn(e: Event, prefix: string): MailPath {
    if e.Exchange? && e.how.Handled? && ParseMailPath(e.how.cmd.argument, prefix).Ok?
    then ParseMailPath(e.how.cmd.argument, prefix).value
    else MailPath("", "", true)
  }

  function HostIn(e: Event): string {
    if e.Exchange? && e.how.Handled? && ParseHeloHostname(e.how.cmd.argument).Ok?
    then ParseHeloHostname(e.how.cmd.argument).value
    else ""
  }

  function DataIn(e: Event): string {
    if e.Exchange? && e.body != [] then Unstuffed(e.body[..|e.body| - 1]) else ""
  }

  /** Single lines, of which the last and only the last is a terminator. */
  predicate EndsAtTerminator(body: seq<string>) {
    && body != [] && (forall l :: l in body ==> IsLine(l))
    && forall i :: 0 <= i < |body| ==> (IsTerminator(body[i]) <==> i == |body| - 1)
  }

  // ----- Reading a log -----

  /** The latest accepted MAIL, or -1. */
  function LastMail(log: seq<Event>): (r: int)
    ensures -1 <= r < |log|
    ensures 0 <= r ==> Accepts(log[r], MAIL)
    ensures forall k :: r < k < |log| ==> !Accepts(log[k], MAIL)
  {
    if log == [] then -1
    else if Accepts(log[|log| - 1], MAIL) then |log| - 1
    else LastMail(log[..|log| - 1])
  }

  /** The recipients accepted in a stretch of log, in order. */
  function AcceptedRecipients(log: seq<Event>): seq<MailPath> {
    if log == [] then []
    else
      var e := log[|log| - 1];
      AcceptedRecipients(log[..|log| - 1]) + (if Accepts(e, RCPT) then [PathIn(e, "TO")] else [])
  }

  /** The name given by the latest accepted HELO or EHLO since the last upgrade. */
  function HostOf(log: seq<Event>): string {
    if log == [] then ""
    else
      var e := log[|log| - 1];
      if e.Upgraded? then ""
      else if Identifies(e) then HostIn(e)
      else HostOf(log[..|log| - 1])
  }

  predicate HasUpgrade(log: seq<Event>) {
    exists k :: 0 <= k < |log| && log[k].Upgraded?
  }

  /** The message that an accepted DATA command completes, given the log before it. */
  function MessageAt(cfg: Config, before: seq<Event>, e: Event): Content
    requires LastMail(before) >= 0
  {
    var i := LastMail(before);
    var mail := before[i];
    Content(PathIn(mail, "FROM"), mail.how.cmd.params, AcceptedRecipients(before[i + 1..]), DataIn(e),
            Metadata(HostOf(before[..i]), cfg.serverHostname, HasUpgrade(before[..i])))
  }

  /** The messages that the client was told were accepted, in order. */
  function Delivered(cfg: Config, log: seq<Event>): seq<Content> {
    if log == [] then []
    else
      var before, e := log[..|log| - 1], log[|log| - 1];
      Delivered(cfg, before) +
      if Accepts(e, DATA) && LastMail(before) >= 0 then [MessageAt(cfg, before, e)] else []
  }

  /** Errors since the last success. */
  function ErrorsIn(log: seq<Event>): nat {
    if log == [] then 0
    else
      var e := log[|log| - 1];
      if IsSuccess(e) then 0
      else ErrorsIn(log[..|log| - 1]) + if IsError(e) then 1 else 0
  }

  function EventBytes(e: Event): nat {
    match e
    case Exchange(line, _, body, _, _) => |line| + |Concat(body)|
    case Upgraded => 0
  }

  /** The octets of all complete lines taken. */
  function BytesIn(log: seq<Event>): nat {
    if log == [] then 0 else BytesIn(log[..|log| - 1]) + EventBytes(log[|log| - 1])
  }

  /** The number of command lines taken. */
  function CommandsIn(log: seq<Event>): nat {
    if log == [] then 0
    else CommandsIn(log[..|log| - 1]) + if log[|log| - 1].Exchange? then 1 else 0
  }

  /** The number of DATA commands that were handled. */
  function DataPhasesIn(log: seq<Event>): nat {
    if log == [] then 0
    else DataPhasesIn(log[..|log| - 1]) + if IsHandled(log[|log| - 1], DATA) then 1 else 0
  }

  function RepliesIn(log: seq<Event>): seq<Response> {
    if log == [] then []
    else
      var e := log[|log| - 1];
      RepliesIn(log[..|log| - 1]) + if e.Exchange? then e.replies else []
  }

  // ----- The abstract transaction system -----

  /** Nothing of the transaction or the session changes. */
  predicate SameTransaction(s: Sess, t: Sess) {
    t.envelope == s.envelope && t.host == s.host && SameMessages(s, t)
  }

  predicate SameMessages(s: Sess, t: Sess) {
    && t.stored == s.stored && t.stats.messages == s.stats.messages
    && t.stats.transactions == s.stats.transactions && t.stats.recipients == s.stats.recipients
  }

  predicate Both(t: Sess, st: State) { t.sm.state == st && t.state == st }

  predicate IdentifyEffect(s: Sess, t: Sess, cmd: Command) {
    && ParseHeloHostname(cmd.argument) == Ok(t.host)
    && t.envelope.None? && Both(t, Identified) && SameMessages(s, t)
  }

  predicate MailEffect(cfg: Config, s: Sess, t: Sess, cmd: Command) {
    && (cfg.tlsPolicy == TLSRequired ==> s.tls)
    && (cfg.limits.maxTransactions > 0 ==> s.stats.transactions < cfg.limits.maxTransactions)
    && ParseMailPath(cmd.argument, "FROM").Ok?
    && !DeclaredTooLarge(cfg, cmd.params)
    && t.envelope.Some?
    && t.envelope.value == Draft(t.envelope.value.id, Some(ParseMailPath(cmd.argument, "FROM").value), cmd.params,
                                 [], "", NoWriter, false, MetadataOf(cfg, s))
    && t.host == s.host && Both(t, MailFrom) && SameMessages(s, t)
  }

  predicate RcptEffect(cfg: Config, s: Sess, t: Sess, cmd: Command) {
    && s.envelope.Some?
    && (cfg.limits.maxRecipients > 0 ==> |s.envelope.value.recipients| < cfg.limits.maxRecipients)
    && ParseMailPath(cmd.argument, "TO").Ok?
    && t.envelope == Some(s.envelope.value.(recipients := s.envelope.value.recipients
                                                          + [ParseMailPath(cmd.argument, "TO").value]))
    && t.host == s.host && Both(t, RcptTo) && SameMessages(s, t)
  }

  /** The lines of the phase, the last and only the last a terminator, become the message. */
  predicate DeliverEffect(cfg: Config, s: Sess, t: Sess, body: seq<string>) {
    && s.envelope.Some? && s.envelope.value.mailFrom.Some? && EndsAtTerminator(body)
    && var d := s.envelope.value;
       var data := Unstuffed(body[..|body| - 1]);
       && SizeFits(cfg.limits.maxMessageSize, |data|)
       && t.stored == s.stored +
          (if cfg.storage
           then [Envelope(d.id, Content(d.mailFrom.value, d.params, d.recipients, data, d.metadata))] else [])
       && t.stats.messages == s.stats.messages + 1
       && t.stats.transactions == s.stats.transactions + 1
       && t.stats.recipients == s.stats.recipients + |d.recipients|
       && t.envelope.None? && t.host == s.host && Both(t, Identified)
  }

  predicate HandledEffect(cfg: Config, s: Sess, t: Sess, e: Event)
    requires HasReply(e) && e.how.Handled?
  {
    var cmd := e.how.cmd;
    && IsCommandAllowed(s.sm.state, cmd.verb)
    && (cmd.verb != DATA ==> e.body == [])
    && |e.replies| == (if cmd.verb == DATA then 2 else 1)
    && (cmd.verb == DATA ==> e.replies[0] == START_MAIL_INPUT)
    && if Identifies(e) then IdentifyEffect(s, t, cmd)
       else if Accepts(e, MAIL) then MailEffect(cfg, s, t, cmd)
       else if Accepts(e, RCPT) then RcptEffect(cfg, s, t, cmd)
       else if Accepts(e, DATA) then DeliverEffect(cfg, s, t, e.body)
       else if Accepts(e, RSET) then
         t.envelope.None? && t.host == s.host && Both(t, if s.state == Greeted then Greeted else Identified)
         && SameMessages(s, t)
       else if FailsData(e) then IsStuck(t) && t.host == s.host && SameMessages(s, t)
       else if LosesData(e) then t.sm.state == Aborted && SameTransaction(s, t)
       else
         && SameTransaction(s, t)
         && if cmd.verb == QUIT then t.sm.state == State.Terminated && t.state == s.state
            else if cmd.verb == STARTTLS && FinalReply(e).code == 220 then Both(t, StartTLS)
            else t.sm.state == s.sm.state && t.state == s.state
  }

  predicate UnhandledEffect(cfg: Config, s: Sess, t: Sess, e: Event)
    requires e.Exchange? && !e.how.Handled?
  {
    && e.body == [] && t.state == s.state && SameTransaction(s, t)
    && match e.how
       case Unparsed =>
         if TooManyErrors(cfg, s.errors + 1) then e.replies == [TOO_MANY_ERRORS] && t.sm.state == Aborted
         else e.replies == [SYNTAX_ERROR] && t.sm.state == s.sm.state
       case Refused(_) => e.replies == [TRANSACTION_FAILED] && t.sm.state == s.sm.state
       case OutOfSequence(cmd) =>
         && !IsCommandAllowed(s.sm.state, cmd.verb)
         && e.replies == [BAD_SEQUENCE] && t.sm.state == s.sm.state
  }

  /** One iteration as the event it records. */
  predicate Effect(cfg: Config, s: Sess, t: Sess, e: Event) {
    && t.log == s.log + [e]
    && t.stats.bytesRead == s.stats.bytesRead + EventBytes(e)
    && t.stats.commands == s.stats.commands + (if e.Exchange? then 1 else 0)
    && match e
       case Upgraded =>
         && InStep(s) && s.state == StartTLS && t.tls && t.host == "" && t.envelope.None? && Both(t, Greeted)
         && SameMessages(s, t) && t.errors == s.errors && t.output == s.output
       case Exchange(line, how, _, replies, sent) =>
         && (InStep(s) || IsStuck(s)) && s.state != StartTLS
         && IsLine(line) && t.tls == s.tls && HasReply(e)
         && ParseCommand(MaxCommandLength(cfg), line) == (if how.Unparsed? then Err else Ok(how.cmd))
         && (sent && FinalReply(e).code != 0 ==> t.output == s.output + AllBytes(replies))
         && t.errors == (if IsSuccess(e) then 0 else if IsError(e) then s.errors + 1 else s.errors)
         && if how.Handled? then HandledEffect(cfg, s, t, e) else UnhandledEffect(cfg, s, t, e)
  }

  /** One iteration that recorded an event. */
  predicate Advances(cfg: Config, s: Sess, t: Sess) {
    t.log != [] && Effect(cfg, s, t, t.log[|t.log| - 1])
  }

  /** An iteration that records nothing only consumes input or ends the session. */
  predicate Quiet(s: Sess, t: Sess) {
    t == s.(input := t.input, exit := t.exit)
  }
}
