/** Protocol states, command verbs and the tables that relate them. */
module Protocol {
  datatype State =
    | Disconnected | Connected | Greeted | Identified | MailFrom | RcptTo | Data | DataDone
    | StartTLS | Terminating | Terminated | Aborted
  {
    predicate IsTerminal() { this == Terminated || this == Aborted }

    predicate InTransaction() { this == MailFrom || this == RcptTo || this == Data }
  }

  datatype Verb =
    | HELO | EHLO | MAIL | RCPT | DATA | RSET | NOOP | QUIT | VRFY | EXPN | HELP | STARTTLS | AUTH

  predicate IsValidTransition(s: State, to: State) {
    match s
    case Disconnected => to.Connected?
    case Connected => to.Greeted? || to.Terminated? || to.Aborted?
    case Greeted => to.Identified? || to.Terminating? || to.Aborted?
    case Identified => to.Identified? || to.MailFrom? || to.StartTLS? || to.Terminating? || to.Aborted?
    case MailFrom => to.RcptTo? || to.Identified? || to.Terminating? || to.Aborted?
    case RcptTo => to.RcptTo? || to.Data? || to.Identified? || to.Terminating? || to.Aborted?
    case Data => to.DataDone? || to.Aborted?
    case DataDone => to.Identified? || to.Terminating? || to.Aborted?
    case StartTLS => to.Greeted? || to.Aborted?
    case Terminating => to.Terminated?
    case Terminated => false
    case Aborted => false
  }

  predicate IsCommandAllowed(s: State, v: Verb) {
    match s
    case Greeted => v.HELO? || v.EHLO? || v.QUIT? || v.NOOP? || v.HELP? || v.RSET?
    case Identified =>
      v.HELO? || v.EHLO? || v.MAIL? || v.QUIT? || v.NOOP? || v.HELP? || v.RSET? || v.VRFY? || v.EXPN?
      || v.STARTTLS? || v.AUTH?
    case MailFrom => v.RCPT? || v.RSET? || v.QUIT? || v.NOOP? || v.HELP?
    case RcptTo => v.RCPT? || v.DATA? || v.RSET? || v.QUIT? || v.NOOP? || v.HELP?
    case _ => false
  }

  predicate IsStateValidForCommand(s: State, v: Verb) {
    match v
    case HELO | EHLO => s.Greeted? || s.Identified?
    case MAIL => s.Identified?
    case RCPT => s.MailFrom? || s.RcptTo?
    case DATA => s.RcptTo?
    case RSET | NOOP | QUIT | HELP => s.Greeted? || s.Identified? || s.MailFrom? || s.RcptTo?
    case VRFY | EXPN | STARTTLS | AUTH => s.Identified?
  }

  /** The two tables of command order say the same. */
  lemma TablesAgree(s: State, v: Verb)
    ensures IsStateValidForCommand(s, v) <==> IsCommandAllowed(s, v)
  {
  }

  function NextState(s: State, v: Verb): State {
    match v
    case HELO | EHLO => Identified
    case MAIL => MailFrom
    case RCPT => RcptTo
    case DATA => Data
    case RSET => if s.InTransaction() then Identified else s
    case QUIT => Terminating
    case STARTTLS => StartTLS
    case _ => s
  }

  predicate MovesOn(s: State, v: Verb) {
    v in {HELO, EHLO, MAIL, RCPT, DATA, QUIT, STARTTLS} || (v == RSET && s.InTransaction())
  }

  /** The edges of the machine. Between the greeting and the end they are those that commands need;
      every state after the first can be aborted until the session is terminating; and the others
      belong to the greeting, the end of DATA, the end of the handshake and the end. */
  lemma EdgesIff(s: State, to: State)
    ensures IsValidTransition(s, to) <==>
            || (to == Aborted && s != Disconnected && s != Terminating && !s.IsTerminal())
            || (exists v :: IsCommandAllowed(s, v) && MovesOn(s, v) && NextState(s, v) == to)
            || (s == Disconnected && to == Connected) || (s == Connected && (to == Greeted || to == Terminated))
            || (s == Data && to == DataDone) || (s == DataDone && (to == Identified || to == Terminating))
            || (s == StartTLS && to == Greeted) || (s == Terminating && to == Terminated)
  {
    if IsValidTransition(s, to) {
      assert IsCommandAllowed(s, HELO) ==> NextState(s, HELO) == Identified;
      assert IsCommandAllowed(s, RSET) && s.InTransaction() ==> NextState(s, RSET) == Identified;
      assert IsCommandAllowed(s, MAIL) ==> NextState(s, MAIL) == MailFrom;
      assert IsCommandAllowed(s, RCPT) ==> NextState(s, RCPT) == RcptTo;
      assert IsCommandAllowed(s, DATA) ==> NextState(s, DATA) == Data;
      assert IsCommandAllowed(s, QUIT) ==> NextState(s, QUIT) == Terminating;
      assert IsCommandAllowed(s, STARTTLS) ==> NextState(s, STARTTLS) == StartTLS;
    }
  }

  /** The result of a transition that the engine ignores is always a success: the target of an
      allowed command is the present state or a legal edge, and after QUIT the machine can
      terminate. */
  lemma IgnoredTransitionsSucceed(s: State, v: Verb)
    requires IsCommandAllowed(s, v)
    ensures NextState(s, v) == s || IsValidTransition(s, NextState(s, v))
    ensures v == QUIT ==> IsValidTransition(NextState(s, v), Terminated)
  {
  }
}
