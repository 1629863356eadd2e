/** Replies (section 4.2.1 of RFC 5321): how they are printed and how a client reads them. */
module Reply {
  import opened Text
  import opened Conn
  import opened Decimal

  datatype EnhancedCode = EnhancedCode(class_: int, subject: int, detail: int)

  datatype Response = Response(code: nat, enhanced: Option<EnhancedCode>, lines: seq<string>)

  predicate IsPositive(code: nat) { 200 <= code < 400 }

  function NewResponse(code: nat, text: string): Response {
    Response(code, None, [text])
  }

  function EnhancedText(e: EnhancedCode): string {
    Integer(e.class_) + "." + Integer(e.subject) + "." + Integer(e.detail)
  }

  /** The text between the separator and CRLF. */
  function Body(r: Response, line: string): string {
    if r.enhanced.Some? then EnhancedText(r.enhanced.value) + " " + line else line
  }

  function PrintedLine(r: Response, i: nat): string
    requires i < |r.lines|
  {
    Natural(r.code) + (if i == |r.lines| - 1 then " " else "-") + Body(r, r.lines[i]) + CRLF
  }

  /** The physical lines of a reply. */
  function Printed(r: Response): (ls: seq<string>)
    ensures ls != []
  {
    if r.lines == [] then
      [Natural(r.code) + (if r.enhanced.Some? then " " + EnhancedText(r.enhanced.value) else "") + CRLF]
    else
      seq(|r.lines|, i requires 0 <= i < |r.lines| => PrintedLine(r, i))
  }

  function Bytes(r: Response): string {
    Concat(Printed(r))
  }

  method Format(r: Response) returns (s: string)
    ensures s == Bytes(r)
  {
    var code := Natural(r.code);
    if |r.lines| == 0 {
      if r.enhanced.Some? {
        s := code + " " + EnhancedText(r.enhanced.value) + CRLF;
      } else {
        s := code + CRLF;
      }
      SingleLine(r, s);
      return;
    }
    s := "";
    for i := 0 to |r.lines|
      invariant s == Concat(Printed(r)[..i])
    {
      var sep := if i == |r.lines| - 1 then " " else "-";
      var line: string;
      if r.enhanced.Some? {
        line := code + sep + EnhancedText(r.enhanced.value) + " " + r.lines[i] + CRLF;
      } else {
        line := code + sep + r.lines[i] + CRLF;
      }
      LineText(r, i, line);
      ConcatSnoc(Printed(r), i);
      s := s + line;
    }
    assert Printed(r)[..|r.lines|] == Printed(r);
  }

  lemma SingleLine(r: Response, s: string)
    requires r.lines == []
    requires s == if r.enhanced.Some? then Natural(r.code) + " " + EnhancedText(r.enhanced.value) + CRLF
                  else Natural(r.code) + CRLF
    ensures s == Bytes(r)
  {
    hide EnhancedText, Natural;
    assert s == Printed(r)[0];
    assert Concat([s]) == s;
  }

  lemma LineText(r: Response, i: nat, line: string)
    requires i < |r.lines|
    requires var sep := if i == |r.lines| - 1 then " " else "-";
             line == if r.enhanced.Some?
                     then Natural(r.code) + sep + EnhancedText(r.enhanced.value) + " " + r.lines[i] + CRLF
                     else Natural(r.code) + sep + r.lines[i] + CRLF
    ensures line == Printed(r)[i]
  {
    hide EnhancedText, Natural;
    assert line == PrintedLine(r, i);
  }

  lemma ConcatSnoc(ls: seq<string>, i: nat)
    requires i < |ls|
    ensures Concat(ls[..i + 1]) == Concat(ls[..i]) + ls[i]
  {
    assert ls[..i + 1] == ls[..i] + [ls[i]];
    ConcatAppend(ls[..i], [ls[i]]);
    assert Concat([ls[i]]) == ls[i];
  }

  // ----- The client side -----

  /** The client's test for the last line of a reply: a space after the code, or a short line
      without a hyphen. */
  predicate IsFinalLine(line: string) {
    (|line| >= 4 && line[3] == ' ') || (|line| <= 5 && '-' !in line)
  }

  datatype ReplyRead = Complete(lines: seq<string>, rest: string) | Truncated(lines: seq<string>)

  function ReadReply(s: string): ReplyRead
    decreases |s|
  {
    var k := IndexOf(s, '\n');
    if k == -1 then Truncated([])
    else
      var line, rest := s[..k + 1], s[k + 1..];
      if IsFinalLine(line) then Complete([line], rest)
      else
        var r := ReadReply(rest);
        r.(lines := [line] + r.lines)
  }

  /** A code of three digits and lines without LF. */
  ghost predicate WellFormed(r: Response) {
    100 <= r.code <= 999 && forall l :: l in r.lines ==> '\n' !in l
  }

  lemma {:induction false} ReadLines(ls: seq<string>, tail: string)
    requires ls != []
    requires forall i :: 0 <= i < |ls| ==> IsLine(ls[i]) && (IsFinalLine(ls[i]) <==> i == |ls| - 1)
    ensures ReadReply(Concat(ls) + tail) == Complete(ls, tail)
  {
    hide ReadReply, IsLine, IsFinalLine;
    var l, t := ls[0], Concat(ls[1..]) + tail;
    assert Concat(ls) + tail == l + t;
    ReadOneLine(l, t);
    if |ls| == 1 {
      assert t == tail;
    } else {
      ReadLines(ls[1..], tail);
      assert ls == [l] + ls[1..];
    }
  }

  lemma ReadOneLine(l: string, t: string)
    requires IsLine(l)
    ensures ReadReply(l + t) == if IsFinalLine(l) then Complete([l], t)
                                else var r := ReadReply(t); r.(lines := [l] + r.lines)
  {
    hide IndexOf, IsFinalLine;
    var p, s := l[..|l| - 1], l + t;
    assert s == p + ['\n'] + t;
    IndexOfAfter(p, '\n', t);
    assert s[..|l|] == l && s[|l|..] == t;
  }

  lemma CodeText(code: nat)
    requires 100 <= code <= 999
    ensures |Natural(code)| == 3 && forall c :: c in Natural(code) ==> IsDigit(c)
  {
    DigitCount(code, 3);
    DigitCount(code, 2);
    DigitsReadBack(code);
    assert Pow10(2) == 100 && Pow10(3) == 1000;
  }

  lemma NumberHasNoLF(n: int)
    ensures '\n' !in Integer(n)
  {
    DigitsReadBack(if n < 0 then -n else n);
  }

  lemma EnhancedHasNoLF(e: EnhancedCode)
    ensures '\n' !in EnhancedText(e)
  {
    NumberHasNoLF(e.class_);
    NumberHasNoLF(e.subject);
    NumberHasNoLF(e.detail);
  }

  /** Code, separator and text make one line; it is final exactly when the separator is a space. */
  lemma OneLine(code: string, sep: char, text: string, line: string)
    requires |code| == 3 && forall c :: c in code ==> IsDigit(c)
    requires sep == ' ' || sep == '-'
    requires '\n' !in text
    requires line == code + [sep] + text + CRLF
    ensures IsLine(line) && (IsFinalLine(line) <==> sep == ' ')
  {
    assert line[3] == sep;
    var p := line[..|line| - 1];
    assert p == code + [sep] + text + ['\r'];
    forall i | 0 <= i < |p|
      ensures p[i] != '\n'
    {
      assert p[i] in code || p[i] == sep || p[i] in text || p[i] == '\r';
    }
  }

  lemma PrintedLines(r: Response, i: nat)
    requires WellFormed(r) && i < |Printed(r)|
    ensures IsLine(Printed(r)[i]) && (IsFinalLine(Printed(r)[i]) <==> i == |Printed(r)| - 1)
  {
    hide Natural, EnhancedText, IsLine, IsFinalLine;
    CodeText(r.code);
    var code := Natural(r.code);
    if r.enhanced.Some? {
      EnhancedHasNoLF(r.enhanced.value);
    }
    if r.lines != [] {
      var body := Body(r, r.lines[i]);
      BodyHasNoLF(r, i);
      var sep := if i == |r.lines| - 1 then ' ' else '-';
      assert Printed(r)[i] == PrintedLine(r, i) == code + [sep] + body + CRLF;
      OneLine(code, sep, body, PrintedLine(r, i));
    } else if r.enhanced.Some? {
      var text := EnhancedText(r.enhanced.value);
      assert Printed(r)[0] == code + [' '] + text + CRLF;
      OneLine(code, ' ', text, Printed(r)[0]);
    } else {
      assert Printed(r)[0] == code + CRLF;
      BareCode(code);
    }
  }

  lemma BareCode(code: string)
    requires |code| == 3 && forall c :: c in code ==> IsDigit(c)
    ensures IsLine(code + CRLF) && IsFinalLine(code + CRLF)
  {
    var l := code + CRLF;
    assert l[..4] == code + ['\r'];
    forall i | 0 <= i < |l|
      ensures l[i] != '-' && (i < 4 ==> l[i] != '\n')
    {
      assert l[i] in code || l[i] == '\r' || l[i] == '\n';
    }
  }

  lemma BodyHasNoLF(r: Response, i: nat)
    requires WellFormed(r) && i < |r.lines|
    ensures '\n' !in Body(r, r.lines[i])
  {
    hide EnhancedText;
    if r.enhanced.Some? {
      EnhancedHasNoLF(r.enhanced.value);
    }
  }

  /** Framing: reading one reply from its text followed by anything recovers exactly its lines
      and leaves exactly what follows. */
  lemma FramingRoundTrip(r: Response, tail: string)
    requires WellFormed(r)
    ensures ReadReply(Bytes(r) + tail) == Complete(Printed(r), tail)
  {
    hide Printed, IsLine, IsFinalLine, WellFormed;
    forall i | 0 <= i < |Printed(r)|
      ensures IsLine(Printed(r)[i]) && (IsFinalLine(Printed(r)[i]) <==> i == |Printed(r)| - 1)
    {
      PrintedLines(r, i);
    }
    ReadLines(Printed(r), tail);
  }

  function AllBytes(rs: seq<Response>): string {
    if rs == [] then "" else AllBytes(rs[..|rs| - 1]) + Bytes(rs[|rs| - 1])
  }

  function AllPrinted(rs: seq<Response>): (r: seq<seq<string>>)
    ensures |r| == |rs|
    ensures forall i :: 0 <= i < |rs| ==> r[i] == Printed(rs[i])
  {
    seq(|rs|, i requires 0 <= i < |rs| => Printed(rs[i]))
  }

  /** Reading n replies one after the other. */
  function ReadReplies(s: string, n: nat): Option<(seq<seq<string>>, string)>
    decreases n
  {
    if n == 0 then Some(([], s))
    else
      match ReadReplies(s, n - 1)
      case None => None
      case Some((got, rest)) =>
        match ReadReply(rest)
        case Complete(lines, rest') => Some((got + [lines], rest'))
        case Truncated(_) => None
  }

  /** The same for any sequence of replies: no line is left over or merged. */
  lemma {:induction false} FramingOfAll(rs: seq<Response>, tail: string)
    requires forall r :: r in rs ==> WellFormed(r)
    ensures ReadReplies(AllBytes(rs) + tail, |rs|) == Some((AllPrinted(rs), tail))
  {
    hide WellFormed, Bytes, Printed, ReadReply;
    if rs != [] {
      var n := |rs| - 1;
      var r := rs[n];
      FramingOfAll(rs[..n], Bytes(r) + tail);
      assert AllBytes(rs) + tail == AllBytes(rs[..n]) + (Bytes(r) + tail);
      FramingRoundTrip(r, tail);
      assert AllPrinted(rs) == AllPrinted(rs[..n]) + [Printed(r)];
    } else {
      assert AllBytes(rs) + tail == tail;
    }
  }

  /** For lines with CRLF the client's test is this: a blank after three octets, or at most three octets
      and no hyphen. */
  lemma FinalLineIff(t: string)
    ensures IsFinalLine(t + CRLF) <==> (4 <= |t| && t[3] == ' ') || (|t| <= 3 && '-' !in t)
  {
    var l := t + CRLF;
    assert forall i :: 0 <= i < |t| ==> l[i] == t[i];
    assert '-' in l <==> '-' in t;
  }

  // ----- What the lines say -----

  /** A reader of enhanced codes: three numbers between dots. */
  function ReadEnhanced(s: string): Option<EnhancedCode> {
    var parts := SplitOn(s, '.');
    if |parts| != 3 then None
    else
      var a, b, c := ReadSigned(parts[0]), ReadSigned(parts[1]), ReadSigned(parts[2]);
      if a.Ok? && b.Ok? && c.Ok? then Some(EnhancedCode(a.value, b.value, c.value)) else None
  }

  datatype ReplyLine = ReplyLine(code: Result<int>, last: bool, enhanced: Option<EnhancedCode>, text: string)

  /** A reader of one line of a reply: the code, whether it is the last, and the text; with an
      enhanced code before the first space of the text if one is expected. */
  function ReadReplyLine(line: string, enhanced: bool): ReplyLine {
    var t := Chomp(line);
    if |t| < 4 then ReplyLine(ReadSigned(t), true, None, "")
    else
      var code, last, text := ReadSigned(t[..3]), t[3] == ' ', t[4..];
      var k := if enhanced then IndexOf(text, ' ') else -1;
      if k == -1 then ReplyLine(code, last, if enhanced then ReadEnhanced(text) else None, if enhanced then "" else text)
      else ReplyLine(code, last, ReadEnhanced(text[..k]), text[k + 1..])
  }

  lemma NumberIsPlain(n: int)
    ensures forall c :: c in Integer(n) ==> c != ' ' && c != '.'
  {
    DigitsReadBack(if n < 0 then -n else n);
  }

  lemma SplitFirst(a: string, c: char, b: string)
    requires c !in a
    ensures SplitOn(a + [c] + b, c) == [a] + SplitOn(b, c)
  {
    hide IndexOf;
    var s := a + [c] + b;
    IndexOfAfter(a, c, b);
    assert s[..|a|] == a && s[|a| + 1..] == b;
  }

  lemma EnhancedReadsBack(e: EnhancedCode)
    ensures ReadEnhanced(EnhancedText(e)) == Some(e) && ' ' !in EnhancedText(e)
  {
    hide SplitOn, Integer, ReadSigned, IsCanonical;
    var a, b, c := Integer(e.class_), Integer(e.subject), Integer(e.detail);
    NumberIsPlain(e.class_);
    NumberIsPlain(e.subject);
    NumberIsPlain(e.detail);
    IntegerReadsBack(e.class_);
    IntegerReadsBack(e.subject);
    IntegerReadsBack(e.detail);
    assert EnhancedText(e) == a + ['.'] + (b + ['.'] + c);
    SplitFirst(a, '.', b + ['.'] + c);
    SplitFirst(b, '.', c);
    SplitNone(c, '.');
  }

  lemma SplitNone(s: string, c: char)
    requires c !in s
    ensures SplitOn(s, c) == [s]
  {
    hide IndexOf;
  }

  /** What is left of a line without its CRLF. */
  lemma ChompCRLF(t: string)
    requires '\n' !in t
    ensures Chomp(t + CRLF) == t
  {
    hide Chomp;
    var l := t + CRLF;
    assert l[..|l| - 1] == t + ['\r'];
    ChompLine(l);
  }

  lemma CodeReadsBack(code: nat)
    requires 100 <= code <= 999
    ensures |Natural(code)| == 3 && ReadSigned(Natural(code)) == Ok(code) && '\n' !in Natural(code)
  {
    hide ReadSigned, IsCanonical;
    CodeText(code);
    IntegerReadsBack(code);
    assert Integer(code) == Natural(code);
  }

  lemma LineReadsBack(code: nat, sep: char, text: string, enhanced: Option<EnhancedCode>, body: string)
    requires 100 <= code <= 999 && '\n' !in body && sep != '\n'
    requires body == if enhanced.Some? then EnhancedText(enhanced.value) + " " + text else text
    ensures ReadReplyLine(Natural(code) + [sep] + body + CRLF, enhanced.Some?)
         == ReplyLine(Ok(code), sep == ' ', enhanced, text)
  {
    hide Natural, ReadSigned, EnhancedText, ReadEnhanced, Chomp, IndexOf;
    CodeReadsBack(code);
    var t := Natural(code) + [sep] + body;
    ChompCRLF(t);
    assert t + CRLF == Natural(code) + [sep] + body + CRLF;
    assert t[..3] == Natural(code) && t[3] == sep && t[4..] == body;
    if enhanced.Some? {
      var e := EnhancedText(enhanced.value);
      EnhancedReadsBack(enhanced.value);
      assert body == e + [' '] + text;
      IndexOfAfter(e, ' ', text);
      assert body[..|e|] == e && body[|e| + 1..] == text;
    }
  }

  /** Each line of a printed reply gives back the code, the enhanced code and the text, and says
      whether it is the last. */
  lemma ReplyReadsBack(r: Response, i: nat)
    requires WellFormed(r) && i < |r.lines|
    ensures ReadReplyLine(Printed(r)[i], r.enhanced.Some?)
         == ReplyLine(Ok(r.code), i == |r.lines| - 1, r.enhanced, r.lines[i])
  {
    hide ReadReplyLine, Natural, EnhancedText;
    BodyHasNoLF(r, i);
    var sep := if i == |r.lines| - 1 then ' ' else '-';
    LineReadsBack(r.code, sep, r.lines[i], r.enhanced, Body(r, r.lines[i]));
    assert Printed(r)[i] == Natural(r.code) + [sep] + Body(r, r.lines[i]) + CRLF;
  }

  /** A reply without text is its code and, if there is one, its enhanced code. */
  lemma BareReplyReadsBack(r: Response)
    requires WellFormed(r) && r.lines == []
    ensures ReadReplyLine(Printed(r)[0], r.enhanced.Some?) == ReplyLine(Ok(r.code), true, r.enhanced, "")
  {
    hide Natural, ReadSigned, EnhancedText, ReadEnhanced, Chomp, IndexOf;
    CodeReadsBack(r.code);
    if r.enhanced.Some? {
      var e := EnhancedText(r.enhanced.value);
      EnhancedReadsBack(r.enhanced.value);
      EnhancedHasNoLF(r.enhanced.value);
      var t := Natural(r.code) + " " + e;
      ChompCRLF(t);
      assert t[..3] == Natural(r.code) && t[3] == ' ' && t[4..] == e;
      assert Printed(r)[0] == t + CRLF;
    } else {
      ChompCRLF(Natural(r.code));
      assert Printed(r)[0] == Natural(r.code) + "" + CRLF == Natural(r.code) + CRLF;
    }
  }
}
