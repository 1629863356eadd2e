/** Whole command lines: every verb in any letter case, and nothing else, is recognised, and a
    printed command is read back with its argument, path and parameters. */
module CommandLines {
  import opened Text
  import opened Conn
  import opened Protocol
  import opened Parser

  function VerbName(v: Verb): string {
    match v
    case HELO => "HELO"
    case EHLO => "EHLO"
    case MAIL => "MAIL"
    case RCPT => "RCPT"
    case DATA => "DATA"
    case RSET => "RSET"
    case NOOP => "NOOP"
    case QUIT => "QUIT"
    case VRFY => "VRFY"
    case EXPN => "EXPN"
    case HELP => "HELP"
    case STARTTLS => "STARTTLS"
    case AUTH => "AUTH"
  }

  lemma NameIsUpper(v: Verb)
    ensures VerbName(v) != "" && forall i :: 0 <= i < |VerbName(v)| ==> 'A' <= VerbName(v)[i] <= 'Z'
  {
  }

  lemma NameParses(v: Verb, u: string)
    requires u == VerbName(v)
    ensures VerbOf(u) == Some(v)
  {
  }

  lemma ParsedIsName(u: string)
    ensures VerbOf(u).Some? ==> u == VerbName(VerbOf(u).value)
  {
  }

  /** A word is taken for a verb exactly if, apart from letter case and white space around it, it
      is the name of that verb. */
  lemma VerbIff(s: string, v: Verb)
    ensures ParseCommandVerb(s) == Some(v) <==> IsCaseOf(Trim(s), VerbName(v))
  {
    hide VerbOf, Trim, ToUpper, IsCaseOf;
    NameIsUpper(v);
    UpperIff(Trim(s), VerbName(v));
    var u := ToUpper(Trim(s));
    ParsedIsName(u);
    if u == VerbName(v) {
      NameParses(v, u);
    }
  }

  /** What a verb demands of its argument. */
  predicate ArgumentFits(v: Verb, arg: string) {
    && (v in {HELO, EHLO, MAIL, RCPT} ==> arg != "")
    && (v in {DATA, RSET, QUIT, STARTTLS} ==> arg == "")
  }

  predicate LengthFits(max: int, line: string) {
    max <= 0 || |line| <= max
  }

  function ParamsFor(v: Verb, arg: string): Params {
    if v in {MAIL, RCPT} then ParamsOf(arg) else map[]
  }

  /** Exactly which lines parse, and to what: the first word names a verb, the rest is an argument
      that the verb admits, and the length is within the limit. */
  lemma ParseCommandIff(max: int, line: string)
    ensures var r, l := ParseCommand(max, line), Chomp(line);
            var word, arg := SplitCommand(l).0, Trim(SplitCommand(l).1);
            && (r.Ok? <==> LengthFits(max, line)
                           && exists v :: IsCaseOf(Trim(word), VerbName(v)) && ArgumentFits(v, arg))
            && (r.Ok? ==>
                  && IsCaseOf(Trim(word), VerbName(r.value.verb))
                  && r.value == Command(r.value.verb, l, arg, ParamsFor(r.value.verb, arg)))
  {
    hide Chomp, Trim, SplitCommand, ParseCommandVerb, IsCaseOf, ParamsOf, VerbName;
    var l := Chomp(line);
    var word := SplitCommand(l).0;
    forall v: Verb
      ensures ParseCommandVerb(word) == Some(v) <==> IsCaseOf(Trim(word), VerbName(v))
    {
      VerbIff(word, v);
    }
    if l == "" {
      EmptyHasNoVerb();
    }
  }

  lemma EmptyHasNoVerb()
    ensures ParseCommandVerb(SplitCommand("").0).None?
  {
    hide VerbOf;
    TrimFixed("");
    assert VerbOf("").None? by { ParsedIsName(""); NamesAreNotEmpty(); }
  }

  lemma NamesAreNotEmpty()
    ensures forall v :: VerbName(v) != ""
  {
    forall v: Verb
      ensures VerbName(v) != ""
    {
      NameIsUpper(v);
    }
  }

  function PrintLine(name: string, arg: string): string {
    name + (if arg == "" then "" else [' '] + arg) + CRLF
  }

  lemma NameHasLettersOnly(name: string, v: Verb)
    requires IsCaseOf(name, VerbName(v))
    ensures name != "" && forall c :: c in name ==> !IsSpace(c)
  {
    hide VerbName;
    NameIsUpper(v);
  }

  /** A command printed with its verb in any letter case is read back, or refused exactly if it is
      too long or its argument is not admitted. */
  lemma CommandLineRoundTrip(max: int, name: string, arg: string, v: Verb)
    requires IsCaseOf(name, VerbName(v)) && '\n' !in arg
    requires arg != "" ==> !IsSpace(arg[0]) && !IsSpace(arg[|arg| - 1])
    ensures IsLine(PrintLine(name, arg))
    ensures ParseCommand(max, PrintLine(name, arg)) ==
            if LengthFits(max, PrintLine(name, arg)) && ArgumentFits(v, arg)
            then Ok(Command(v, name + (if arg == "" then "" else [' '] + arg), arg, ParamsFor(v, arg)))
            else Err
  {
    hide VerbName, Trim, SplitCommand, ParseCommandVerb, ParamsOf, Chomp, IsCaseOf, IsLine, IsSpace;
    var body := name + (if arg == "" then "" else [' '] + arg);
    NameIsWord(name, v);
    ChompBody(body);
    SplitBody(name, arg);
    VerbIff(name, v);
    TrimFixed(arg);
  }

  lemma NameIsWord(name: string, v: Verb)
    requires IsCaseOf(name, VerbName(v))
    ensures name != "" && ' ' !in name && '\n' !in name && Trim(name) == name
  {
    hide VerbName, Trim, IsCaseOf;
    NameHasLettersOnly(name, v);
    assert IsSpace(' ') && IsSpace('\n');
    assert name[0] in name && name[|name| - 1] in name;
    TrimFixed(name);
  }

  lemma SplitBody(name: string, arg: string)
    requires ' ' !in name
    ensures SplitCommand(name + (if arg == "" then "" else [' '] + arg)) == (name, arg)
  {
    hide IndexOf;
    if arg != "" {
      var body := name + [' '] + arg;
      assert body == name + ([' '] + arg);
      IndexOfAfter(name, ' ', arg);
      assert body[..|name|] == name && body[|name| + 1..] == arg;
    } else {
      assert name + "" == name;
    }
  }

  lemma ChompBody(body: string)
    requires '\n' !in body
    ensures IsLine(body + CRLF) && Chomp(body + CRLF) == body
  {
    hide Chomp;
    var line := body + CRLF;
    assert line[..|line| - 1] == body + ['\r'];
    ChompLine(line);
  }

  function Keyword(v: Verb): string {
    if v == MAIL then "FROM" else "TO"
  }

  /** MAIL and RCPT with any path and any well-formed parameters: verb, path and parameters are all
      read back from the printed line. */
  lemma MailLineRoundTrip(max: int, name: string, v: Verb, p: MailPath, ps: seq<Param>)
    requires v == MAIL || v == RCPT
    requires IsCaseOf(name, VerbName(v)) && IsPath(p)
    requires forall c :: c in p.sourceRoute + p.address ==> c != '>' && c != '\n'
    requires forall q :: q in ps ==> GoodParam(q)
    ensures var arg := PrintPath(Keyword(v), p) + PrintParams(ps);
            var r := ParseCommand(max, PrintLine(name, arg));
            if LengthFits(max, PrintLine(name, arg)) then
              && r.Ok? && r.value.verb == v && r.value.argument == arg && r.value.params == MapOf(ps)
              && ParseMailPath(r.value.argument, Keyword(v)) == Ok(p)
            else r == Err
  {
    hide VerbName, ParseCommand, ParamsOf, ParseMailPath, IsPath, Fields, Collect, MapOf, GoodParam, Trim;
    var arg := PrintPath(Keyword(v), p) + PrintParams(ps);
    ArgumentIsPlain(v, p, ps);
    CommandLineRoundTrip(max, name, arg, v);
    PrintedPathParses(p, Keyword(v), PrintParams(ps));
    PrintedFields(ps);
    CollectPrinted(ps);
    PrintedEnd(ps);
    FieldsOfTrim(PrintParams(ps));
  }

  lemma ArgumentIsPlain(v: Verb, p: MailPath, ps: seq<Param>)
    requires forall c :: c in p.sourceRoute + p.address ==> c != '\n'
    requires forall q :: q in ps ==> GoodParam(q)
    ensures var arg := PrintPath(Keyword(v), p) + PrintParams(ps);
            '\n' !in arg && arg != "" && !IsSpace(arg[0]) && !IsSpace(arg[|arg| - 1])
  {
    hide GoodParam, PrintParams;
    PrintedEnd(ps);
    PrintedHasNoLF(ps);
    var inner := p.sourceRoute + p.address;
    assert PrintPath(Keyword(v), p) == Keyword(v) + ":<" + inner + ">";
  }

  lemma {:induction false} PrintedHasNoLF(ps: seq<Param>)
    requires forall q :: q in ps ==> GoodParam(q)
    ensures '\n' !in PrintParams(ps)
  {
    hide GoodParam, PrintParam;
    if ps != [] {
      ParamReadBack(ps[0]);
      PrintedHasNoLF(ps[1..]);
      assert IsSpace('\n');
    }
  }
}
