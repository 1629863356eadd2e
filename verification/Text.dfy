/** Text over octets.

    An octet is a `char`; every function here is defined on all characters, so each statement
    covers all strings of octets 0 to 255. Case folding and white space are the ASCII ones. */
module Text {
  datatype Option<+T> = None | Some(value: T)

  datatype Result<+T> = Ok(value: T) | Err

  const CRLF: string := "\r\n"

  /** Position of the first occurrence of `c`, or -1. */
  function IndexOf(s: string, c: char): (r: int)
    ensures -1 <= r < |s|
    ensures 0 <= r ==> s[r] == c && c !in s[..r]
    ensures r == -1 <==> c !in s
  {
    if s == [] then -1
    else if s[0] == c then 0
    else
      var k := IndexOf(s[1..], c);
      if k == -1 then -1 else k + 1
  }

  /** Position of the last occurrence of `c`, or -1. */
  function LastIndexOf(s: string, c: char): (r: int)
    ensures -1 <= r < |s|
    ensures 0 <= r ==> s[r] == c
    ensures forall k :: r < k < |s| ==> s[k] != c
  {
    if s == [] then -1
    else if s[|s| - 1] == c then |s| - 1
    else LastIndexOf(s[..|s| - 1], c)
  }

  /** The first occurrence is where the prefix free of `c` ends. */
  lemma {:induction false} IndexOfAfter(p: string, c: char, t: string)
    requires c !in p
    ensures IndexOf(p + [c] + t, c) == |p|
  {
    if p != [] {
      IndexOfAfter(p[1..], c, t);
      assert (p + [c] + t)[1..] == p[1..] + [c] + t;
    }
  }

  predicate IsSpace(c: char) {
    c == ' ' || c == '\t' || c == '\n' || c == '\r' || c == 11 as char || c == 12 as char
  }

  /** White space is the blank and the octets from 9 to 13. */
  lemma SpaceIff(c: char)
    ensures IsSpace(c) <==> c as int == 32 || 9 <= c as int <= 13
  {
  }

  predicate AllSpace(s: string) { forall c :: c in s ==> IsSpace(c) }

  /** Number of leading white space characters. */
  function Leading(s: string): (r: nat)
    ensures r <= |s|
    ensures r < |s| ==> !IsSpace(s[r])
    ensures forall i :: 0 <= i < r ==> IsSpace(s[i])
  {
    if s == [] || !IsSpace(s[0]) then 0 else 1 + Leading(s[1..])
  }

  /** Length without trailing white space. */
  function UpToLast(s: string): (r: nat)
    ensures r <= |s|
    ensures 0 < r ==> !IsSpace(s[r - 1])
    ensures s != [] && !IsSpace(s[0]) ==> 0 < r
  {
    if s == [] then 0
    else if !IsSpace(s[|s| - 1]) then |s|
    else UpToLast(s[..|s| - 1])
  }

  function TrimLeft(s: string): string {
    s[Leading(s)..]
  }

  function TrimRight(s: string): string {
    s[..UpToLast(s)]
  }

  function Trim(s: string): (r: string)
    ensures |r| <= |s|
    ensures forall c :: c in r ==> c in s
    ensures r != [] ==> !IsSpace(r[0]) && !IsSpace(r[|r| - 1])
  {
    TrimRight(TrimLeft(s))
  }

  function TrimSuffix(s: string, suffix: string): (r: string)
    ensures r <= s
  {
    if |suffix| <= |s| && s[|s| - |suffix|..] == suffix then s[..|s| - |suffix|] else s
  }

  /** A line without its line ending. */
  function Chomp(line: string): string {
    TrimSuffix(TrimSuffix(line, CRLF), "\n")
  }

  function UpperChar(c: char): char {
    if 'a' <= c <= 'z' then c - 32 as char else c
  }

  function ToUpper(s: string): (r: string)
    ensures |r| == |s|
    ensures forall i :: 0 <= i < |s| ==> r[i] == UpperChar(s[i])
  {
    seq(|s|, i requires 0 <= i < |s| => UpperChar(s[i]))
  }

  /** The same letters, each in either case; u has them in upper case. */
  predicate IsCaseOf(s: string, u: string) {
    |s| == |u| &&
    forall i :: 0 <= i < |s| ==> s[i] == u[i] || ('A' <= u[i] <= 'Z' && s[i] as int == u[i] as int + 32)
  }

  predicate HasNoLower(u: string) {
    forall i :: 0 <= i < |u| ==> !('a' <= u[i] <= 'z')
  }

  /** Upper-casing forgets the case of letters and nothing else. */
  lemma UpperIff(s: string, u: string)
    requires HasNoLower(u)
    ensures ToUpper(s) == u <==> IsCaseOf(s, u)
  {
    if IsCaseOf(s, u) {
      forall i | 0 <= i < |s|
        ensures ToUpper(s)[i] == u[i]
      {
      }
    }
    if ToUpper(s) == u {
      forall i | 0 <= i < |s|
        ensures s[i] == u[i] || ('A' <= u[i] <= 'Z' && s[i] as int == u[i] as int + 32)
      {
        assert UpperChar(s[i]) == u[i];
      }
    }
  }

  lemma TrimFixed(s: string)
    requires s != [] ==> !IsSpace(s[0]) && !IsSpace(s[|s| - 1])
    ensures Trim(s) == s
  {
  }

  lemma {:induction false} TailIsSpace(s: string)
    ensures AllSpace(s[UpToLast(s)..])
  {
    hide IsSpace;
    if s != [] && IsSpace(s[|s| - 1]) {
      var t := s[..|s| - 1];
      TailIsSpace(t);
      assert s[UpToLast(s)..] == t[UpToLast(t)..] + [s[|s| - 1]];
    }
  }

  /** Trimming takes white space off both ends and nothing else. */
  lemma TrimTakesSpace(s: string) returns (x: string, y: string)
    ensures s == x + Trim(s) + y && AllSpace(x) && AllSpace(y)
  {
    hide IsSpace, Leading, UpToLast, AllSpace;
    var k, t := Leading(s), TrimLeft(s);
    var m := UpToLast(t);
    x, y := s[..k], t[m..];
    HeadIsSpace(s);
    TailIsSpace(t);
    assert s == s[..k] + s[k..];
    assert t == t[..m] + t[m..];
    assert x + (Trim(s) + y) == x + Trim(s) + y;
  }

  lemma HeadIsSpace(s: string)
    ensures AllSpace(s[..Leading(s)])
  {
    hide IsSpace, Leading;
  }

  lemma TrimIdempotent(s: string)
    ensures Trim(Trim(s)) == Trim(s)
  {
    TrimFixed(Trim(s));
  }

  /** Length of the longest prefix free of white space. */
  function WordLength(s: string): (r: nat)
    ensures r <= |s|
    ensures forall i :: 0 <= i < r ==> !IsSpace(s[i])
    ensures r < |s| ==> IsSpace(s[r])
  {
    if s == [] || IsSpace(s[0]) then 0 else 1 + WordLength(s[1..])
  }

  /** The maximal runs of characters that are not white space, in order. */
  function Fields(s: string): (r: seq<string>)
    decreases |s|
  {
    var t := TrimLeft(s);
    if t == [] then []
    else
      var k := WordLength(t);
      [t[..k]] + Fields(t[k..])
  }

  predicate IsWord(w: string) {
    w != [] && forall c :: c in w ==> !IsSpace(c)
  }

  lemma {:induction false} WordLengthOf(w: string, t: string)
    requires forall c :: c in w ==> !IsSpace(c)
    requires t != [] ==> IsSpace(t[0])
    ensures WordLength(w + t) == |w|
  {
    if w == [] {
      assert w + t == t;
    } else {
      WordLengthOf(w[1..], t);
      assert (w + t)[1..] == w[1..] + t;
    }
  }

  lemma {:induction false} LeadingSkips(sp: string, t: string)
    requires forall c :: c in sp ==> IsSpace(c)
    ensures Leading(sp + t) == |sp| + Leading(t)
  {
    if sp == [] {
      assert sp + t == t;
    } else {
      LeadingSkips(sp[1..], t);
      assert (sp + t)[1..] == sp[1..] + t;
    }
  }

  /** A word after white space is the first field. */
  lemma {:induction false} FieldsCons(sp: string, w: string, t: string)
    requires IsWord(w)
    requires forall c :: c in sp ==> IsSpace(c)
    requires t != [] ==> IsSpace(t[0])
    ensures Fields(sp + (w + t)) == [w] + Fields(t)
  {
    LeadingSkips(sp, w + t);
    assert TrimLeft(sp + (w + t)) == w + t;
    WordLengthOf(w, t);
    assert (w + t)[..|w|] == w && (w + t)[|w|..] == t;
  }

  lemma LeadingZero(s: string)
    requires s != [] && !IsSpace(s[0])
    ensures Leading(s) == 0
  {
  }

  lemma FieldsByTrimLeft(a: string, b: string)
    requires TrimLeft(a) == TrimLeft(b)
    ensures Fields(a) == Fields(b)
  {
    hide TrimLeft, WordLength;
  }

  /** Leading white space does not matter to the fields. */
  lemma FieldsOfTrim(s: string)
    requires s != [] ==> !IsSpace(s[|s| - 1])
    ensures Fields(Trim(s)) == Fields(s)
  {
    hide Fields, TrimLeft, TrimRight;
    TrimOfFinished(s);
    TrimLeftTwice(s);
    FieldsByTrimLeft(TrimLeft(s), s);
  }

  lemma TrimOfFinished(s: string)
    requires s != [] ==> !IsSpace(s[|s| - 1])
    ensures Trim(s) == TrimLeft(s)
  {
    hide Leading, IsSpace;
    var t := TrimLeft(s);
    assert t != [] ==> t[|t| - 1] == s[|s| - 1];
    assert t[..|t|] == t;
  }

  lemma TrimLeftTwice(s: string)
    ensures TrimLeft(TrimLeft(s)) == TrimLeft(s)
  {
    hide IsSpace;
    var t := TrimLeft(s);
    if t != [] {
      LeadingZero(t);
    }
  }

  /** The pieces of `s` between occurrences of `c`: never empty. */
  function SplitOn(s: string, c: char): (r: seq<string>)
    ensures r != []
    decreases |s|
  {
    var k := IndexOf(s, c);
    if k == -1 then [s] else [s[..k]] + SplitOn(s[k + 1..], c)
  }

  lemma {:induction false} SplitPieces(s: string, c: char)
    ensures forall p :: p in SplitOn(s, c) ==> c !in p
    decreases |s|
  {
    hide IndexOf;
    var k := IndexOf(s, c);
    if k != -1 {
      SplitPieces(s[k + 1..], c);
    }
  }

  function Concat(ss: seq<string>): string {
    if ss == [] then "" else ss[0] + Concat(ss[1..])
  }

  lemma {:induction false} ConcatAppend(a: seq<string>, b: seq<string>)
    ensures Concat(a + b) == Concat(a) + Concat(b)
  {
    if a == [] {
      assert a + b == b;
    } else {
      var x, y, z := a[0], Concat(a[1..]), Concat(b);
      ConcatAppend(a[1..], b);
      assert (a + b)[1..] == a[1..] + b && (a + b)[0] == x;
      assert x + (y + z) == (x + y) + z;
    }
  }
}
