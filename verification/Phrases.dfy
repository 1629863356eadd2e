/** The fixed texts of replies, each a single line. A text of more than twenty octets is written
    in parts, which keeps the proof that it holds no LF short. */
module Phrases {
  datatype Phrase =
    | Okay | Bye | StartInput | HelloText | OkMessage | AcceptedText | Banner | ReadyForTLS |
      TooManyErrorsText
    | Unrecognized | BadArguments | NotImplemented | BadSequence | TransactionFailed
    | NeedsTLS | TooManyTransactions | DeclaredSizeTooLarge | TooManyRecipients | TLSAlready |
      TLSUnavailable
    | SizeExceeded | LongLine | DataTimeout | DataError | CannotFinalize | CannotStore |
      CannotAccept
    | SizeOffer | OfferTLS | Offer8Bit | OfferPipelining | OfferEnhanced | OfferUtf8 | OfferHelp |
      CannotVerify
    | HelpHeader | HelpBasic | HelpMore | HelpTLS | HelpFooter

  function Say(p: Phrase): (r: string)
    ensures '\n' !in r
  {
    match p
    case Okay | Bye | StartInput | HelloText | OkMessage | AcceptedText | Banner | ReadyForTLS |
       TooManyErrorsText => SayNotice(p)
    case Unrecognized | BadArguments | NotImplemented | BadSequence | TransactionFailed =>
       SayRefusal(p)
    case NeedsTLS | TooManyTransactions | DeclaredSizeTooLarge | TooManyRecipients | TLSAlready |
       TLSUnavailable => SayPolicy(p)
    case SizeExceeded | LongLine | DataTimeout | DataError | CannotFinalize | CannotStore |
       CannotAccept => SayDataText(p)
    case SizeOffer | OfferTLS | Offer8Bit | OfferPipelining | OfferEnhanced | OfferUtf8 | OfferHelp
       | CannotVerify => SayFeature(p)
    case HelpHeader | HelpBasic | HelpMore | HelpTLS | HelpFooter => SayHelpText(p)
  }

  function Join(a: string, b: string): (r: string)
    requires '\n' !in a && '\n' !in b
    ensures '\n' !in r
  {
    a + b
  }

  function SayNotice(p: Phrase): (r: string)
    requires p.Okay? || p.Bye? || p.StartInput? || p.HelloText? || p.OkMessage? || p.AcceptedText? ||
             p.Banner? || p.ReadyForTLS? || p.TooManyErrorsText?
    ensures '\n' !in r
  {
    match p
    case Okay => "OK"
    case Bye => "Bye"
    case StartInput => Join("Start mail input; ", Join("end with ", "<CRLF>.<CRLF>"))
    case HelloText => " Hello "
    case OkMessage => "OK, message "
    case AcceptedText => " accepted"
    case Banner => " ESMTP icesmtp"
    case ReadyForTLS => "Ready to start TLS"
    case TooManyErrorsText => Join("Too many errors, ", "closing connection")
  }

  function SayRefusal(p: Phrase): (r: string)
    requires p.Unrecognized? || p.BadArguments? || p.NotImplemented? || p.BadSequence? ||
             p.TransactionFailed?
    ensures '\n' !in r
  {
    match p
    case Unrecognized => Join("Syntax error, ", Join("command ", "unrecognized"))
    case BadArguments => Join("Syntax error in ", Join("parameters or ", "arguments"))
    case NotImplemented => Join("Command not ", "implemented")
    case BadSequence => Join("Bad sequence of ", "commands")
    case TransactionFailed => "Transaction failed"
  }

  function SayPolicy(p: Phrase): (r: string)
    requires p.NeedsTLS? || p.TooManyTransactions? || p.DeclaredSizeTooLarge? || p.TooManyRecipients? ||
             p.TLSAlready? || p.TLSUnavailable?
    ensures '\n' !in r
  {
    match p
    case NeedsTLS => Join("Must issue ", "STARTTLS first")
    case TooManyTransactions => Join("Too many ", "transactions")
    case DeclaredSizeTooLarge => Join("Message size ", Join("exceeds fixed ", Join("maximum message ", "size")))
    case TooManyRecipients => "Too many recipients"
    case TLSAlready => "TLS already active"
    case TLSUnavailable => "TLS not available"
  }

  function SayDataText(p: Phrase): (r: string)
    requires p.SizeExceeded? || p.LongLine? || p.DataTimeout? || p.DataError? || p.CannotFinalize? ||
             p.CannotStore? || p.CannotAccept?
    ensures '\n' !in r
  {
    match p
    case SizeExceeded => Join("Message size ", "exceeds limit")
    case LongLine => "Line too long"
    case DataTimeout => Join("Timeout receiving ", "message data")
    case DataError => Join("Error receiving ", "message data")
    case CannotFinalize => Join("Unable to ", "finalize message")
    case CannotStore => Join("Unable to store ", "message")
    case CannotAccept => Join("Unable to accept ", "message")
  }

  function SayFeature(p: Phrase): (r: string)
    requires p.SizeOffer? || p.OfferTLS? || p.Offer8Bit? || p.OfferPipelining? || p.OfferEnhanced? ||
             p.OfferUtf8? || p.OfferHelp? || p.CannotVerify?
    ensures '\n' !in r
  {
    match p
    case SizeOffer => "SIZE "
    case OfferTLS => "STARTTLS"
    case Offer8Bit => "8BITMIME"
    case OfferPipelining => "PIPELINING"
    case OfferEnhanced => "ENHANCEDSTATUSCODES"
    case OfferUtf8 => "SMTPUTF8"
    case OfferHelp => "HELP"
    case CannotVerify => Join("Cannot VRFY user; ", Join("try RCPT to ", "attempt delivery"))
  }

  function SayHelpText(p: Phrase): (r: string)
    requires p.HelpHeader? || p.HelpBasic? || p.HelpMore? || p.HelpTLS? || p.HelpFooter?
    ensures '\n' !in r
  {
    match p
    case HelpHeader => "Supported commands:"
    case HelpBasic => Join("HELO EHLO MAIL ", "RCPT DATA")
    case HelpMore => "RSET NOOP QUIT HELP"
    case HelpTLS => " STARTTLS"
    case HelpFooter => Join("For more ", Join("information, ", "consult RFC 5321"))
  }
}
