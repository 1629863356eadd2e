/** Command lines, mail paths (section 4.1.2 of RFC 5321), ESMTP parameters and host names. */
module Parser {
  import opened Text
  import opened Conn
  import opened Protocol

  type Params = map<string, string>

  datatype Command = Command(verb: Verb, raw: string, argument: string, params: Params)

  datatype MailPath = MailPath(address: string, sourceRoute: string, isNull: bool)

  function ParseCommandVerb(s: string): Option<Verb> {
    VerbOf(ToUpper(Trim(s)))
  }

  function VerbOf(v: string): Option<Verb> {
    if v == "HELO" then Some(HELO)
    else if v == "EHLO" then Some(EHLO)
    else if v == "MAIL" then Some(MAIL)
    else if v == "RCPT" then Some(RCPT)
    else if v == "DATA" then Some(DATA)
    else if v == "RSET" then Some(RSET)
    else if v == "NOOP" then Some(NOOP)
    else if v == "QUIT" then Some(QUIT)
    else if v == "VRFY" then Some(VRFY)
    else if v == "EXPN" then Some(EXPN)
    else if v == "HELP" then Some(HELP)
    else if v == "STARTTLS" then Some(STARTTLS)
    else if v == "AUTH" then Some(AUTH)
    else None
  }

  predicate RequiresArgument(v: Verb) {
    v == HELO || v == EHLO || v == MAIL || v == RCPT
  }

  predicate ForbidsArgument(v: Verb) {
    v == DATA || v == RSET || v == QUIT || v == STARTTLS
  }

  /** Verb and argument, separated by the first space. */
  function SplitCommand(l: string): (string, string) {
    var k := IndexOf(l, ' ');
    if k == -1 then (l, "") else (l[..k], l[k + 1..])
  }

  function ParseCommand(maxLength: int, line: string): Result<Command> {
    if maxLength > 0 && |line| > maxLength then Err
    else
      var l := Chomp(line);
      var parts := SplitCommand(l);
      var verb := ParseCommandVerb(parts.0);
      var arg := Trim(parts.1);
      if l == "" || verb.None? then Err
      else if RequiresArgument(verb.value) && arg == "" then Err
      else if ForbidsArgument(verb.value) && arg != "" then Err
      else Ok(Command(verb.value, l, arg,
                      if verb.value == MAIL || verb.value == RCPT then ParamsOf(arg) else map[]))
  }

  /** The argument of a parsed line never contains an LF. */
  lemma ArgumentIsOneLine(maxLength: int, line: string)
    requires IsLine(line)
    ensures var r := ParseCommand(maxLength, line); r.Ok? ==> '\n' !in r.value.argument
  {
    hide Trim, IndexOf, ParseCommandVerb, ParamsOf, Chomp;
    ChompLine(line);
    var l := Chomp(line);
    assert '\n' !in l;
    assert '\n' !in SplitCommand(l).1;
  }

  // ----- ESMTP parameters -----

  function ParamKey(part: string): string {
    var k := IndexOf(part, '=');
    ToUpper(if k == -1 then part else part[..k])
  }

  function ParamValue(part: string): string {
    var k := IndexOf(part, '=');
    if k == -1 then "" else part[k + 1..]
  }

  /** A later parameter overrides an earlier one of the same name. */
  function Collect(parts: seq<string>): Params {
    if parts == [] then map[]
    else
      var part := parts[|parts| - 1];
      Collect(parts[..|parts| - 1])[ParamKey(part) := ParamValue(part)]
  }

  lemma CollectNone()
    ensures Collect([]) == map[]
  {
  }

  lemma CollectSnoc(parts: seq<string>, i: nat)
    requires i < |parts|
    ensures Collect(parts[..i + 1]) == Collect(parts[..i])[ParamKey(parts[i]) := ParamValue(parts[i])]
  {
    assert parts[..i + 1][..i] == parts[..i];
  }

  /** The parameters are read from the text after the first closing bracket; without one there
      are none. */
  function ParamsOf(arg: string): Params {
    var c := IndexOf(arg, '>');
    if c == -1 then map[] else Collect(Fields(Trim(arg[c + 1..])))
  }

  method ParseESMTPParams(arg: string) returns (params: Params)
    ensures params == ParamsOf(arg)
  {
    hide IndexOf, Fields, Trim, Collect, ToUpper;
    assert Collect([]) == map[] by { CollectNone(); }
    params := map[];
    var c := IndexOf(arg, '>');
    if c == -1 {
      return;
    }
    var remainder := Trim(arg[c + 1..]);
    var parts := Fields(remainder);
    for i := 0 to |parts|
      invariant params == Collect(parts[..i])
    {
      var part := parts[i];
      CollectSnoc(parts, i);
      var k := IndexOf(part, '=');
      if k == -1 {
        params := params[ToUpper(part) := ""];
      } else {
        params := params[ToUpper(part[..k]) := part[k + 1..]];
      }
    }
    assert parts[..|parts|] == parts;
  }

  // ----- Mail paths -----

  predicate IsAlphanumeric(c: char) {
    'a' <= c <= 'z' || 'A' <= c <= 'Z' || '0' <= c <= '9'
  }

  predicate IsDomainChar(c: char) {
    IsAlphanumeric(c) || c == '-' || c == '.'
  }

  /** A local part, the last at-sign, and a domain of domain characters that neither starts nor
      ends with a dot or hyphen. */
  predicate IsValidAddress(a: string) {
    var k := LastIndexOf(a, '@');
    0 < k < |a| - 1 &&
    var d := a[k + 1..];
    && d[0] != '.' && d[|d| - 1] != '.' && d[0] != '-' && d[|d| - 1] != '-'
    && forall i :: 0 <= i < |d| ==> IsDomainChar(d[i])
  }

  method CheckAddress(a: string) returns (ok: bool)
    ensures ok <==> IsValidAddress(a)
  {
    if a == "" {
      return false;
    }
    var k := LastIndexOf(a, '@');
    if k == -1 || k == 0 || k == |a| - 1 {
      return false;
    }
    var d := a[k + 1..];
    if d[0] == '.' || d[|d| - 1] == '.' || d[0] == '-' || d[|d| - 1] == '-' {
      return false;
    }
    for i := 0 to |d|
      invariant forall j :: 0 <= j < i ==> IsDomainChar(d[j])
    {
      if !IsDomainChar(d[i]) {
        return false;
      }
    }
    return true;
  }

  predicate IsDomain(d: string) {
    && d != "" && (forall c :: c in d ==> IsDomainChar(c))
    && d[0] !in ".-" && d[|d| - 1] !in ".-"
  }

  /** An address is a local part that is not empty, an at-sign, and a domain; the domain has no
      at-sign, so there is only one way to read it. */
  lemma AddressIff(a: string)
    ensures IsValidAddress(a) <==> exists k :: 0 < k < |a| && a[k] == '@' && IsDomain(a[k + 1..])
  {
    hide LastIndexOf;
    if IsValidAddress(a) {
      var k := LastIndexOf(a, '@');
      assert a[k] == '@' && IsDomain(a[k + 1..]);
    }
    if k :| 0 < k < |a| && a[k] == '@' && IsDomain(a[k + 1..]) {
      var d := a[k + 1..];
      forall m | k < m < |a|
        ensures a[m] != '@'
      {
        assert a[m] == d[m - k - 1] && d[m - k - 1] in d;
      }
      assert LastIndexOf(a, '@') == k;
      assert forall i :: 0 <= i < |d| ==> d[i] in d;
    }
  }

  /** The text between the brackets. */
  function ParseInner(inner: string): Result<MailPath> {
    if inner == "" then Ok(MailPath("", "", true))
    else
      var colon := if inner[0] == '@' then IndexOf(inner, ':') else -1;
      var route := inner[..colon + 1];
      var address := inner[colon + 1..];
      if IsValidAddress(address) then Ok(MailPath(address, route, false)) else Err
  }

  /** A path as it may stand between the brackets: nothing; or an address, with a source route
      before it that starts with an at-sign and goes to the first colon. */
  ghost predicate IsPath(p: MailPath) {
    var inner := p.sourceRoute + p.address;
    if p.isNull then p.address == "" && p.sourceRoute == ""
    else
      && IsValidAddress(p.address)
      && if inner[0] == '@' && ':' in inner
         then p.sourceRoute != "" && IndexOf(p.sourceRoute, ':') == |p.sourceRoute| - 1
         else p.sourceRoute == ""
  }

  /** The text between the brackets parses to exactly the one path that it is the text of. */
  lemma InnerIff(inner: string, p: MailPath)
    ensures ParseInner(inner) == Ok(p) <==> IsPath(p) && inner == p.sourceRoute + p.address
  {
    hide IndexOf, IsValidAddress;
    if ParseInner(inner) == Ok(p) {
      AddressIsNotEmpty(p.address);
      if inner != "" && p.sourceRoute != "" {
        var k := IndexOf(inner, ':');
        var r := inner[..k];
        assert p.sourceRoute == r + [':'] + "" == inner[..k + 1];
        IndexOfAfter(r, ':', "");
      }
    }
    if IsPath(p) && inner == p.sourceRoute + p.address {
      AddressIsNotEmpty(p.address);
      if p.sourceRoute != "" {
        var r := p.sourceRoute[..|p.sourceRoute| - 1];
        assert p.sourceRoute == r + [':'];
        assert inner == r + [':'] + p.address;
        IndexOfAfter(r, ':', p.address);
        assert inner[..|r| + 1] == p.sourceRoute && inner[|r| + 1..] == p.address;
      } else {
        assert inner == p.address && inner[0..] == inner;
      }
    }
  }

  lemma AddressIsNotEmpty(a: string)
    ensures IsValidAddress(a) ==> a != ""
  {
    hide LastIndexOf;
  }

  function ExtractPath(text: string): Result<MailPath> {
    var s := Trim(text);
    if s == "" || s[0] != '<' then Err
    else
      var c := IndexOf(s, '>');
      if c == -1 then Err else ParseInner(s[1..c])
  }

  function ParseMailPath(argument: string, prefix: string): Result<MailPath> {
    var arg := Trim(argument);
    if prefix + ":" <= ToUpper(arg) then ExtractPath(Trim(arg[|prefix| + 1..])) else Err
  }

  /** FROM and TO: letters that upper-casing leaves alone. */
  predicate IsKeyword(prefix: string) {
    prefix != [] && forall i :: 0 <= i < |prefix| ==> 'A' <= prefix[i] <= 'Z'
  }

  /** An argument in its parts: keyword and colon in any case, blanks, the bracketed path, and
      whatever follows the bracket. */
  ghost predicate HasShape(arg: string, prefix: string, pre: string, sp: string, inner: string, rest: string) {
    && arg == pre + sp + "<" + inner + ">" + rest
    && ToUpper(pre) == prefix + ":"
    && (forall c :: c in sp ==> IsSpace(c))
    && '>' !in inner
  }

  lemma {:induction false} UpToLastKeeps(x: string, t: string)
    requires x != [] && !IsSpace(x[|x| - 1])
    ensures UpToLast(x + t) == |x| + UpToLast(t)
  {
    if t == [] {
      assert x + t == x;
    } else if IsSpace(t[|t| - 1]) {
      UpToLastKeeps(x, t[..|t| - 1]);
      assert (x + t)[..|x + t| - 1] == x + t[..|t| - 1];
    }
  }

  /** Trimming between two characters that are not white space touches only the ends. */
  lemma TrimEnds(sp: string, x: string, t: string)
    requires forall c :: c in sp ==> IsSpace(c)
    requires x != [] && !IsSpace(x[0]) && !IsSpace(x[|x| - 1])
    ensures Trim(sp + (x + t)) == x + TrimRight(t)
  {
    hide Leading, UpToLast;
    LeadingSkips(sp, x + t);
    assert Leading(x + t) == 0 by { LeadingZero(x + t); }
    assert TrimLeft(sp + (x + t)) == x + t;
    UpToLastKeeps(x, t);
  }

  lemma PreHasNoBracket(pre: string, prefix: string)
    requires IsKeyword(prefix) && ToUpper(pre) == prefix + ":"
    ensures |pre| == |prefix| + 1 && '>' !in pre && !IsSpace(pre[0])
  {
    assert forall i :: 0 <= i < |pre| ==> (prefix + ":")[i] == UpperChar(pre[i]);
    assert UpperChar(pre[0]) == prefix[0];
    forall i | 0 <= i < |pre|
      ensures pre[i] != '>'
    {
      assert i < |prefix| ==> (prefix + ":")[i] == prefix[i];
    }
  }

  /** For every argument of that shape the path depends on the bracketed text alone and the
      parameters on the text after that same bracket alone. */
  lemma PathAndParamsSeparate(arg: string, prefix: string, pre: string, sp: string, inner: string, rest: string)
    requires IsKeyword(prefix) && HasShape(arg, prefix, pre, sp, inner, rest)
    ensures ParseMailPath(arg, prefix) == ParseInner(inner)
    ensures ParamsOf(arg) == Collect(Fields(Trim(rest)))
  {
    hide *;
    PathFromShape(arg, prefix, pre, sp, inner, rest);
    ParamsFromShape(arg, prefix, pre, sp, inner, rest);
  }

  lemma ParamsFromShape(arg: string, prefix: string, pre: string, sp: string, inner: string, rest: string)
    requires IsKeyword(prefix) && HasShape(arg, prefix, pre, sp, inner, rest)
    ensures ParamsOf(arg) == Collect(Fields(Trim(rest)))
  {
    hide Collect, Fields, Trim, IndexOf, ToUpper, IsKeyword;
    PreHasNoBracket(pre, prefix);
    var head := pre + sp + "<" + inner;
    forall i | 0 <= i < |head|
      ensures head[i] != '>'
    {
      assert head[i] in pre || head[i] in sp || head[i] == '<' || head[i] in inner;
    }
    IndexOfAfter(head, '>', rest);
    assert arg == head + ['>'] + rest;
    assert arg[|head| + 1..] == rest;
  }

  lemma PathFromShape(arg: string, prefix: string, pre: string, sp: string, inner: string, rest: string)
    requires IsKeyword(prefix) && HasShape(arg, prefix, pre, sp, inner, rest)
    ensures ParseMailPath(arg, prefix) == ParseInner(inner)
  {
    hide ParseInner, Trim, IndexOf, TrimRight;
    PreHasNoBracket(pre, prefix);
    var x := "<" + inner + ">";
    var r := TrimRight(rest);
    assert arg == "" + ((pre + sp + x) + rest);
    TrimEnds("", pre + sp + x, rest);
    var a := Trim(arg);
    assert a == pre + (sp + (x + r));
    assert ToUpper(a)[..|pre|] == ToUpper(pre);
    assert a[|prefix| + 1..] == sp + (x + r);
    TrimEnds(sp, x, r);
    var p := Trim(a[|prefix| + 1..]);
    TrimEnds("", x, TrimRight(r));
    assert "" + (x + TrimRight(r)) == p;
    BracketAt(inner, TrimRight(TrimRight(r)));
  }

  lemma BracketAt(inner: string, t: string)
    requires '>' !in inner
    ensures var s := "<" + inner + ">" + t;
            IndexOf(s, '>') == |inner| + 1 && s[1..|inner| + 1] == inner
  {
    assert '>' !in "<" + inner;
    IndexOfAfter("<" + inner, '>', t);
    assert "<" + inner + ['>'] + t == "<" + inner + ">" + t;
  }

  lemma BracketedIn(b: string) returns (sp: string, inner: string, rest: string)
    requires ExtractPath(Trim(b)).Ok?
    ensures b == sp + ("<" + inner + ">" + rest)
    ensures (forall c :: c in sp ==> IsSpace(c)) && '>' !in inner
    ensures ExtractPath(Trim(b)) == ParseInner(inner)
  {
    hide Leading, IndexOf, UpToLast, ParseInner;
    TrimIdempotent(b);
    var k, t, s := Leading(b), TrimLeft(b), Trim(b);
    var c := IndexOf(s, '>');
    sp, inner, rest := b[..k], s[1..c], t[c + 1..];
    assert inner == s[..c][1..];
    assert s[..c + 1] == "<" + inner + ">";
    assert t == s[..c + 1] + rest;
    assert b == sp + t;
  }

  /** Conversely every argument with a path has that shape, up to white space at its ends. */
  lemma ShapeOfParsed(argument: string, prefix: string)
    returns (pre: string, sp: string, inner: string, rest: string)
    requires IsKeyword(prefix) && ParseMailPath(argument, prefix).Ok?
    ensures HasShape(Trim(argument), prefix, pre, sp, inner, rest)
    ensures ParseMailPath(argument, prefix) == ParseInner(inner)
  {
    hide Trim, ParseInner, IsKeyword, ExtractPath;
    var a := Trim(argument);
    var n := |prefix| + 1;
    pre := a[..n];
    assert ToUpper(pre) == ToUpper(a)[..n];
    sp, inner, rest := BracketedIn(a[n..]);
    assert a == pre + (sp + ("<" + inner + ">" + rest));
    assert a == pre + sp + "<" + inner + ">" + rest;
  }

  function PrintPath(prefix: string, p: MailPath): string {
    prefix + ":<" + p.sourceRoute + p.address + ">"
  }

  /** Printing any path, with anything after it, and parsing gives the path, and the parameters are
      read from what follows. */
  lemma PrintedPathParses(p: MailPath, prefix: string, rest: string)
    requires IsKeyword(prefix) && IsPath(p) && '>' !in p.sourceRoute + p.address
    ensures ParseMailPath(PrintPath(prefix, p) + rest, prefix) == Ok(p)
    ensures ParamsOf(PrintPath(prefix, p) + rest) == Collect(Fields(Trim(rest)))
  {
    hide ParseMailPath, ParamsOf, ParseInner, Trim, IsPath;
    var inner := p.sourceRoute + p.address;
    InnerIff(inner, p);
    var pre := prefix + ":";
    assert forall i :: 0 <= i < |prefix| ==> pre[i] == prefix[i];
    assert ToUpper(pre) == pre;
    var text := PrintPath(prefix, p) + rest;
    assert text == pre + "" + "<" + inner + ">" + rest;
    PathAndParamsSeparate(text, prefix, pre, "", inner, rest);
  }

  /** Only paths are returned. */
  lemma ParsedIsPath(argument: string, prefix: string)
    requires IsKeyword(prefix)
    ensures var r := ParseMailPath(argument, prefix);
            r.Ok? ==> IsPath(r.value) && '>' !in r.value.sourceRoute + r.value.address
  {
    hide ParseMailPath, ParseInner, Trim, IsPath;
    if ParseMailPath(argument, prefix).Ok? {
      var _, _, inner, _ := ShapeOfParsed(argument, prefix);
      InnerIff(inner, ParseInner(inner).value);
    }
  }

  /** Printing any path that was parsed, with any parameters after it, and parsing again gives
      the same path; the parameters read are those printed. */
  lemma PathRoundTrip(argument: string, prefix: string, rest: string)
    requires IsKeyword(prefix)
    ensures var r := ParseMailPath(argument, prefix);
            r.Ok? ==>
              && ParseMailPath(PrintPath(prefix, r.value) + rest, prefix) == r
              && ParamsOf(PrintPath(prefix, r.value) + rest) == Collect(Fields(Trim(rest)))
  {
    hide ParseMailPath, ParamsOf, Trim, IsPath;
    ParsedIsPath(argument, prefix);
    if ParseMailPath(argument, prefix).Ok? {
      PrintedPathParses(ParseMailPath(argument, prefix).value, prefix, rest);
    }
  }

  /** A path and the parameters of one argument are read from the two sides of one bracket. */
  lemma SameBracket(argument: string, prefix: string)
    requires IsKeyword(prefix)
    ensures var a := Trim(argument);
            var c := IndexOf(a, '>');
            ParseMailPath(argument, prefix).Ok? ==>
              && c != -1
              && ParseMailPath(a[..c + 1], prefix) == ParseMailPath(argument, prefix)
              && ParamsOf(a) == Collect(Fields(Trim(a[c + 1..])))
  {
    hide ParseMailPath, ParamsOf, ParseInner, Trim;
    if ParseMailPath(argument, prefix).Err? {
      return;
    }
    var pre, sp, inner, rest := ShapeOfParsed(argument, prefix);
    var a := Trim(argument);
    PathAndParamsSeparate(a, prefix, pre, sp, inner, rest);
    var head := pre + sp + "<" + inner;
    ParamsSplit(a, prefix, pre, sp, inner, rest);
    var c := IndexOf(a, '>');
    assert a[..c + 1] == pre + sp + "<" + inner + ">" + "";
    PathAndParamsSeparate(a[..c + 1], prefix, pre, sp, inner, "");
  }

  lemma ParamsSplit(arg: string, prefix: string, pre: string, sp: string, inner: string, rest: string)
    requires IsKeyword(prefix) && HasShape(arg, prefix, pre, sp, inner, rest)
    ensures IndexOf(arg, '>') == |pre| + |sp| + 1 + |inner|
    ensures arg[|pre| + |sp| + 1 + |inner| + 1..] == rest
  {
    hide IndexOf, ToUpper, IsKeyword;
    PreHasNoBracket(pre, prefix);
    var head := pre + sp + "<" + inner;
    forall i | 0 <= i < |head|
      ensures head[i] != '>'
    {
      assert head[i] in pre || head[i] in sp || head[i] == '<' || head[i] in inner;
    }
    IndexOfAfter(head, '>', rest);
    assert arg == head + ['>'] + rest;
  }

  // ----- Printing parameters -----

  /** A parameter: its name, the name as it is written in the line, and a value if it has one. */
  datatype Param = Param(name: string, written: string, value: Option<string>)

  /** The name is in upper case and written in any, a word without an equals sign; the value has
      no white space. */
  ghost predicate GoodParam(p: Param) {
    && IsWord(p.written) && '=' !in p.written && HasNoLower(p.name) && IsCaseOf(p.written, p.name)
    && (p.value.Some? ==> forall c :: c in p.value.value ==> !IsSpace(c))
  }

  function PrintParam(p: Param): string {
    if p.value.Some? then p.written + "=" + p.value.value else p.written
  }

  function ValueOf(p: Param): string {
    if p.value.Some? then p.value.value else ""
  }

  function PrintParams(ps: seq<Param>): string {
    if ps == [] then "" else " " + (PrintParam(ps[0]) + PrintParams(ps[1..]))
  }

  function MapOf(ps: seq<Param>): Params {
    if ps == [] then map[]
    else var p := ps[|ps| - 1]; MapOf(ps[..|ps| - 1])[p.name := ValueOf(p)]
  }

  lemma ParamReadBack(p: Param)
    requires GoodParam(p)
    ensures IsWord(PrintParam(p)) && ParamKey(PrintParam(p)) == p.name && ParamValue(PrintParam(p)) == ValueOf(p)
  {
    hide IndexOf, ToUpper;
    UpperIff(p.written, p.name);
    if p.value.Some? {
      var v := p.value.value;
      assert PrintParam(p) == p.written + ['='] + v;
      IndexOfAfter(p.written, '=', v);
      assert PrintParam(p)[..|p.written|] == p.written && PrintParam(p)[|p.written| + 1..] == v;
      forall c | c in PrintParam(p)
        ensures !IsSpace(c)
      {
        assert c in p.written || c == '=' || c in v;
      }
    }
  }

  function PrintedWords(ps: seq<Param>): (r: seq<string>)
    ensures |r| == |ps|
    ensures forall i :: 0 <= i < |r| ==> r[i] == PrintParam(ps[i])
  {
    seq(|ps|, i requires 0 <= i < |ps| => PrintParam(ps[i]))
  }

  lemma PrintedCons(ps: seq<Param>)
    requires ps != []
    ensures PrintedWords(ps) == [PrintParam(ps[0])] + PrintedWords(ps[1..])
  {
    hide PrintParam;
  }

  lemma {:induction false} PrintedFields(ps: seq<Param>)
    requires forall p :: p in ps ==> GoodParam(p)
    ensures Fields(PrintParams(ps)) == PrintedWords(ps)
  {
    if ps != [] {
      var w, t := PrintParam(ps[0]), PrintParams(ps[1..]);
      assert PrintParams(ps) == " " + (w + t);
      hide PrintParam, GoodParam, Fields, PrintParams, PrintedWords, IsWord;
      assert IsWord(w) by { ParamReadBack(ps[0]); }
      PrintedFields(ps[1..]);
      FieldsCons(" ", w, t);
      PrintedCons(ps);
    }
  }

  lemma {:induction false} CollectPrinted(ps: seq<Param>)
    requires forall p :: p in ps ==> GoodParam(p)
    ensures Collect(PrintedWords(ps)) == MapOf(ps)
  {
    if ps != [] {
      hide PrintParam, ParamKey, ParamValue, GoodParam, ValueOf;
      var n := |ps| - 1;
      assert MapOf(ps) == MapOf(ps[..n])[ps[n].name := ValueOf(ps[n])];
      hide MapOf;
      CollectPrinted(ps[..n]);
      ParamReadBack(ps[n]);
      var ws := PrintedWords(ps);
      assert ws[..n] == PrintedWords(ps[..n]);
      assert ws[..n + 1] == ws;
      CollectSnoc(ws, n);
    } else {
      CollectNone();
    }
  }

  lemma {:induction false} PrintedEnd(ps: seq<Param>)
    requires forall p :: p in ps ==> GoodParam(p)
    ensures var t := PrintParams(ps); t != [] ==> !IsSpace(t[|t| - 1])
  {
    hide GoodParam, PrintParam, ParamKey, ParamValue, IsSpace;
    if ps != [] {
      var w, t := PrintParam(ps[0]), PrintParams(ps[1..]);
      ParamReadBack(ps[0]);
      PrintedEnd(ps[1..]);
      assert w[|w| - 1] in w;
      var r := " " + (w + t);
      assert r[|r| - 1] == if t == [] then w[|w| - 1] else t[|t| - 1];
    }
  }

  /** Printing any well-formed parameters after any path and parsing returns their map. */
  lemma ParamsRoundTrip(argument: string, prefix: string, ps: seq<Param>)
    requires IsKeyword(prefix)
    requires forall p :: p in ps ==> GoodParam(p)
    ensures var r := ParseMailPath(argument, prefix);
            r.Ok? ==>
              var text := PrintPath(prefix, r.value) + PrintParams(ps);
              ParseMailPath(text, prefix) == r && ParamsOf(text) == MapOf(ps)
  {
    hide ParseMailPath, ParamsOf, Trim, Fields, Collect, MapOf, PrintParams, GoodParam;
    PathRoundTrip(argument, prefix, PrintParams(ps));
    PrintedFields(ps);
    CollectPrinted(ps);
    PrintedEnd(ps);
    FieldsOfTrim(PrintParams(ps));
  }

  // ----- Host names -----

  predicate IsHostLabel(l: string) {
    && 0 < |l| <= 63
    && IsAlphanumeric(l[0]) && IsAlphanumeric(l[|l| - 1])
    && forall i :: 0 <= i < |l| ==> IsAlphanumeric(l[i]) || l[i] == '-'
  }

  predicate IsValidHostname(s: string) {
    && 0 < |s| <= 255
    && var labels := SplitOn(s, '.');
       forall i :: 0 <= i < |labels| ==> IsHostLabel(labels[i])
  }

  predicate IsHostChar(c: char) { IsAlphanumeric(c) || c == '-' || c == '.' }

  predicate HasDotWithin(s: string, i: nat)
    requires i + 64 <= |s|
  {
    '.' in s[i..i + 64]
  }

  /** A letter or digit at both ends and on both sides of every dot. */
  ghost predicate HasGoodEnds(s: string) {
    && s != "" && IsAlphanumeric(s[0]) && IsAlphanumeric(s[|s| - 1])
    && (forall i :: 0 < i < |s| - 1 && s[i] == '.' ==> IsAlphanumeric(s[i - 1]) && IsAlphanumeric(s[i + 1]))
  }

  /** A dot in every stretch of sixty-four. */
  ghost predicate IsDense(s: string) {
    forall i :: 0 <= i <= |s| - 64 ==> HasDotWithin(s, i)
  }

  /** Host names character by character: letters, digits, hyphens and dots, with a letter or digit at
      both ends and on both sides of every dot, and a dot in every stretch of sixty-four. */
  ghost predicate IsHostText(s: string) {
    (forall c :: c in s ==> IsHostChar(c)) && HasGoodEnds(s) && IsDense(s)
  }

  lemma DenseIffShort(l: string)
    requires '.' !in l
    ensures IsDense(l) <==> |l| < 64
  {
    if |l| >= 64 {
      assert !HasDotWithin(l, 0);
    }
  }

  lemma LabelIff(l: string)
    requires '.' !in l
    ensures IsHostLabel(l) <==> IsHostText(l)
  {
    hide IsAlphanumeric, IsDense;
    DenseIffShort(l);
    assert forall i :: 0 <= i < |l| ==> l[i] in l;
  }

  /** The characters of s are those of a, a dot, and those of b. */
  ghost predicate AroundDot(s: string, a: string, b: string) {
    && |s| == |a| + 1 + |b| && s[|a|] == '.' && (forall i :: 0 <= i < |a| ==> s[i] == a[i])
    && (forall i :: |a| < i < |s| ==> s[i] == b[i - |a| - 1])
  }

  lemma EndsSplit(s: string, a: string, b: string)
    requires AroundDot(s, a, b) && '.' !in a && HasGoodEnds(s)
    ensures HasGoodEnds(a) && HasGoodEnds(b)
  {
    hide IsAlphanumeric;
    DotIsNoLetter();
    var n := |a| + 1;
    assert a != "" && b != "";
    assert s[n] == b[0] && s[|s| - 1] == b[|b| - 1];
    forall i | 0 < i < |b| - 1 && b[i] == '.'
      ensures IsAlphanumeric(b[i - 1]) && IsAlphanumeric(b[i + 1])
    {
      assert s[n + i] == '.' && s[n + i - 1] == b[i - 1] && s[n + i + 1] == b[i + 1];
    }
  }

  lemma EndsJoin(s: string, a: string, b: string)
    requires AroundDot(s, a, b) && '.' !in a && HasGoodEnds(a) && HasGoodEnds(b)
    ensures HasGoodEnds(s)
  {
    hide IsAlphanumeric;
    DotIsNoLetter();
    var n := |a| + 1;
    forall i | 0 < i < |s| - 1 && s[i] == '.'
      ensures IsAlphanumeric(s[i - 1]) && IsAlphanumeric(s[i + 1])
    {
      if i == |a| {
        assert s[i - 1] == a[|a| - 1] && s[i + 1] == b[0];
      } else {
        assert i > |a| && b[i - n] == '.' && i - n > 0;
        assert s[i - 1] == b[i - n - 1] && s[i + 1] == b[i - n + 1];
      }
    }
  }

  lemma DotIsNoLetter()
    ensures !IsAlphanumeric('.')
  {
  }

  lemma DenseSplit(a: string, b: string)
    requires '.' !in a
    ensures IsDense(a + ['.'] + b) <==> IsDense(a) && IsDense(b)
  {
    hide HasDotWithin;
    var s, n := a + ['.'] + b, |a| + 1;
    DenseIffShort(a);
    forall i: nat | i + 64 <= |s|
      ensures i <= |a| < i + 64 ==> HasDotWithin(s, i)
      ensures i + 64 <= |a| ==> !HasDotWithin(s, i)
      ensures |a| < i ==> HasDotWithin(s, i) == HasDotWithin(b, i - n)
    {
      Stretch(a, b, i);
    }
    assert |a| >= 64 ==> !HasDotWithin(s, 0);
    assert forall i :: 0 <= i <= |b| - 64 ==> HasDotWithin(b, i) == HasDotWithin(s, n + i);
  }

  lemma Stretch(a: string, b: string, i: nat)
    requires '.' !in a && i + 64 <= |a + ['.'] + b|
    ensures var s := a + ['.'] + b;
            && (i <= |a| < i + 64 ==> HasDotWithin(s, i))
            && (i + 64 <= |a| ==> !HasDotWithin(s, i))
            && (|a| < i ==> HasDotWithin(s, i) == HasDotWithin(b, i - |a| - 1))
  {
    var s := a + ['.'] + b;
    if i + 64 <= |a| {
      assert s[i..i + 64] == a[i..i + 64];
      assert forall c :: c in a[i..i + 64] ==> c in a;
    } else if i <= |a| {
      assert s[i..i + 64][|a| - i] == '.';
    } else {
      assert s[i..i + 64] == b[i - |a| - 1..i - |a| - 1 + 64];
    }
  }

  /** A dot between two parts makes a host name exactly if both parts do. */
  lemma TextSplits(a: string, b: string)
    requires '.' !in a
    ensures IsHostText(a + ['.'] + b) <==> IsHostText(a) && IsHostText(b)
  {
    hide IsDense, HasGoodEnds;
    var s := a + ['.'] + b;
    assert AroundDot(s, a, b);
    if HasGoodEnds(s) {
      EndsSplit(s, a, b);
    }
    if HasGoodEnds(a) && HasGoodEnds(b) {
      EndsJoin(s, a, b);
    }
    DenseSplit(a, b);
    assert forall c :: c in s <==> c in a || c == '.' || c in b;
    assert IsHostChar('.');
  }

  predicate AreLabels(ls: seq<string>) {
    forall i :: 0 <= i < |ls| ==> IsHostLabel(ls[i])
  }

  lemma AreLabelsCons(l: string, ls: seq<string>)
    ensures AreLabels([l] + ls) <==> IsHostLabel(l) && AreLabels(ls)
  {
    hide IsHostLabel;
    if AreLabels([l] + ls) {
      assert forall i :: 0 <= i < |ls| ==> ls[i] == ([l] + ls)[i + 1];
      assert ([l] + ls)[0] == l;
    }
  }

  lemma {:induction false} LabelsIff(s: string)
    ensures AreLabels(SplitOn(s, '.')) <==> IsHostText(s)
    decreases |s|
  {
    hide IndexOf, IsHostLabel, IsHostText, AreLabels;
    var k := IndexOf(s, '.');
    if k == -1 {
      LabelIff(s);
      AreLabelsCons(s, []);
      assert [s] + [] == [s] && AreLabels([]) by { NoLabels(); }
    } else {
      var a, b := s[..k], s[k + 1..];
      assert s == a + ['.'] + b;
      AreLabelsCons(a, SplitOn(b, '.'));
      LabelIff(a);
      LabelsIff(b);
      TextSplits(a, b);
    }
  }

  lemma NoLabels()
    ensures AreLabels([])
  {
  }

  /** The labels of a host name and its characters say the same. */
  lemma HostnameIff(s: string)
    ensures IsValidHostname(s) <==> |s| <= 255 && IsHostText(s)
  {
    hide SplitOn, IsHostLabel, IsHostText;
    LabelsIff(s);
    assert IsHostText(s) ==> s != "" by { TextIsNotEmpty(s); }
  }

  lemma TextIsNotEmpty(s: string)
    ensures IsHostText(s) ==> s != ""
  {
  }

  method CheckHostname(s: string) returns (ok: bool)
    ensures ok <==> IsValidHostname(s)
  {
    hide SplitOn, IsAlphanumeric;
    if s == "" || |s| > 255 {
      return false;
    }
    var labels := SplitOn(s, '.');
    for i := 0 to |labels|
      invariant forall j :: 0 <= j < i ==> IsHostLabel(labels[j])
    {
      var part := labels[i];
      if part == "" || |part| > 63 {
        return false;
      }
      if !IsAlphanumeric(part[0]) || !IsAlphanumeric(part[|part| - 1]) {
        return false;
      }
      for k := 0 to |part|
        invariant forall m :: 0 <= m < k ==> IsAlphanumeric(part[m]) || part[m] == '-'
      {
        if !IsAlphanumeric(part[k]) && part[k] != '-' {
          return false;
        }
      }
    }
    return true;
  }

  /** A host name or an address literal. */
  function ParseHeloHostname(arg: string): (r: Result<string>)
    ensures r.Ok? ==> r.value != "" && forall c :: c in r.value ==> c in arg
  {
    var h := Trim(arg);
    if h == "" then Err
    else if h[0] == '[' then (if h[|h| - 1] == ']' then Ok(h) else Err)
    else if IsValidHostname(h) then Ok(h)
    else Err
  }

  /** The name is the trimmed argument itself, if that is a host name or is bracketed. */
  lemma HeloHostnameIff(arg: string, h: string)
    ensures ParseHeloHostname(arg) == Ok(h) <==>
            h == Trim(arg) && h != "" && if h[0] == '[' then h[|h| - 1] == ']' else IsValidHostname(h)
  {
    hide Trim, IsValidHostname;
  }
}
