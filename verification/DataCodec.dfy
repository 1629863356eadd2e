/** The DATA phase: dot transparency (section 4.5.2 of RFC 5321) with line and size limits. */
module DataCodec {
  import opened Text
  import opened Conn

  predicate IsTerminator(line: string) {
    Chomp(line) == "."
  }

  function UnstuffLine(line: string): string {
    if |line| > 0 && line[0] == '.' then line[1..] else line
  }

  function StuffLine(line: string): string {
    if |line| > 0 && line[0] == '.' then "." + line else line
  }

  /** The array form: a stuffed line is a new array, any other line is handed back as it is. */
  method StuffArray(line: array<char>) returns (r: array<char>)
    ensures r[..] == StuffLine(line[..])
    ensures r == line || fresh(r)
  {
    if line.Length > 0 && line[0] == '.' {
      r := new char[line.Length + 1];
      r[0] := '.';
      for i := 0 to line.Length
        invariant r[0] == '.'
        invariant forall k :: 0 <= k < i ==> r[k + 1] == line[k]
      {
        r[i + 1] := line[i];
      }
      assert r[..] == "." + line[..];
    } else {
      r := line;
    }
  }

  datatype DataEnd = AtTerminator | LineTooLong | MessageTooLarge | ReadFault(err: ErrKind)

  /** Outcome of a DATA phase: why it ended, what went to the writer, the complete lines taken
      from the connection and what is left of it. */
  datatype DataPhase = DataPhase(end: DataEnd, written: string, lines: seq<string>, rest: Stream)

  predicate LineFits(maxLine: int, line: string) {
    maxLine <= 0 || |line| <= maxLine
  }

  predicate SizeFits(maxSize: int, size: nat) {
    maxSize <= 0 || size <= maxSize
  }

  /** The phase started with `total` octets already written. */
  function StreamData(maxLine: int, maxSize: int, total: nat, s: Stream): DataPhase
    decreases |s.bytes|
  {
    match NextLine(s)
    case Failed(err, rest) => DataPhase(ReadFault(err), "", [], rest)
    case Line(line, rest) =>
      if IsTerminator(line) then DataPhase(AtTerminator, "", [line], rest)
      else if !LineFits(maxLine, line) then DataPhase(LineTooLong, "", [line], rest)
      else
        var u := UnstuffLine(line);
        if !SizeFits(maxSize, total + |u|) then DataPhase(MessageTooLarge, "", [line], rest)
        else
          var r := StreamData(maxLine, maxSize, total + |u|, rest);
          r.(written := u + r.written, lines := [line] + r.lines)
  }

  /** A phase continued after lines already seen and octets already written. */
  ghost function Joined(written: string, seen: seq<string>, q: DataPhase): DataPhase {
    q.(written := written + q.written, lines := seen + q.lines)
  }

  /** One turn of the loop. */
  lemma PhaseTurn(maxLine: int, maxSize: int, written: string, seen: seq<string>, s: Stream)
    ensures var p := Joined(written, seen, StreamData(maxLine, maxSize, |written|, s));
            var n := NextLine(s);
            if n.Failed? then p == DataPhase(ReadFault(n.err), written, seen, n.rest)
            else
              var u := UnstuffLine(n.line);
              if IsTerminator(n.line) then p == DataPhase(AtTerminator, written, seen + [n.line], n.rest)
              else if !LineFits(maxLine, n.line) then p == DataPhase(LineTooLong, written, seen + [n.line], n.rest)
              else if !SizeFits(maxSize, |written| + |u|) then
                p == DataPhase(MessageTooLarge, written, seen + [n.line], n.rest)
              else
                p == Joined(written + u, seen + [n.line], StreamData(maxLine, maxSize, |written + u|, n.rest))
  {
    hide NextLine, IsTerminator, UnstuffLine, LineFits, SizeFits;
    var n := NextLine(s);
    assert written + "" == written && seen + [] == seen;
    if n.Line? {
      var u := UnstuffLine(n.line);
      var q := StreamData(maxLine, maxSize, |written| + |u|, n.rest);
      assert written + (u + q.written) == (written + u) + q.written;
      assert seen + ([n.line] + q.lines) == (seen + [n.line]) + q.lines;
    }
  }

  function Unstuffed(lines: seq<string>): string {
    if lines == [] then "" else UnstuffLine(lines[0]) + Unstuffed(lines[1..])
  }

  function DotLines(lines: seq<string>): nat {
    if lines == [] then 0
    else (if |lines[0]| > 0 && lines[0][0] == '.' then 1 else 0) + DotLines(lines[1..])
  }

  /** Whatever the stream, a phase that ends at the terminator has taken lines of which only the
      last is a terminator, has written exactly the others without their stuffing, and has left
      exactly the octets after the terminator. */
  lemma {:induction false} PhaseSound(maxLine: int, maxSize: int, total: nat, s: Stream)
    ensures var r := StreamData(maxLine, maxSize, total, s);
            r.end == AtTerminator ==>
              && r.lines != []
              && (forall i :: 0 <= i < |r.lines| ==> (IsTerminator(r.lines[i]) <==> i == |r.lines| - 1))
              && r.written == Unstuffed(r.lines[..|r.lines| - 1])
              && s.bytes == Concat(r.lines) + r.rest.bytes
              && r.rest == s.(bytes := r.rest.bytes)
    decreases |s.bytes|
  {
    hide NextLine, IsTerminator, UnstuffLine;
    NextLineFacts(s);
    var n := NextLine(s);
    if StreamData(maxLine, maxSize, total, s).end == AtTerminator && !IsTerminator(n.line) {
      var t := total + |UnstuffLine(n.line)|;
      PhaseSound(maxLine, maxSize, t, n.rest);
      var q := StreamData(maxLine, maxSize, t, n.rest);
      var ls := [n.line] + q.lines;
      assert ls[..|ls| - 1] == [n.line] + q.lines[..|q.lines| - 1];
      assert ls[1..] == q.lines;
    }
  }

  /** The size limit bounds what is written in every phase, however it ends. */
  lemma {:induction false} PhaseWithinSize(maxLine: int, maxSize: int, total: nat, s: Stream)
    requires SizeFits(maxSize, total)
    ensures SizeFits(maxSize, total + |StreamData(maxLine, maxSize, total, s).written|)
    decreases |s.bytes|
  {
    hide NextLine, IsTerminator, UnstuffLine;
    NextLineFacts(s);
    var n := NextLine(s);
    if n.Line? {
      var t := total + |UnstuffLine(n.line)|;
      if SizeFits(maxSize, t) {
        PhaseWithinSize(maxLine, maxSize, t, n.rest);
      }
    }
  }

  /** Every phase leaves no more than it found, and keeps the final error of the stream. */
  lemma {:induction false} PhaseShrinks(maxLine: int, maxSize: int, total: nat, s: Stream)
    ensures var r := StreamData(maxLine, maxSize, total, s);
            r.rest.Size() <= s.Size() && r.rest.FinalError() == s.FinalError()
    decreases |s.bytes|
  {
    hide NextLine, IsTerminator, UnstuffLine;
    NextLineFacts(s);
    var n := NextLine(s);
    if n.Line? {
      PhaseShrinks(maxLine, maxSize, total + |UnstuffLine(n.line)|, n.rest);
    }
  }

  lemma {:induction false} StuffingIsCounted(lines: seq<string>)
    ensures |Concat(lines)| == |Unstuffed(lines)| + DotLines(lines)
  {
    if lines != [] {
      StuffingIsCounted(lines[1..]);
    }
  }

  /** Conservation of octets: the lines taken amount to the octets written, one for every line
      that began with a dot, and the terminator. */
  lemma PhaseConserves(maxLine: int, maxSize: int, total: nat, s: Stream)
    ensures var r := StreamData(maxLine, maxSize, total, s);
            r.end == AtTerminator ==>
              && r.lines != []
              && |Concat(r.lines)| == |r.written| + DotLines(r.lines[..|r.lines| - 1]) + |r.lines[|r.lines| - 1]|
              && (r.lines[|r.lines| - 1] == ".\r\n" || r.lines[|r.lines| - 1] == ".\n")
  {
    hide StreamData, Unstuffed, DotLines, IsTerminator;
    if StreamData(maxLine, maxSize, total, s).end != AtTerminator {
      return;
    }
    PhaseSound(maxLine, maxSize, total, s);
    var ls := StreamData(maxLine, maxSize, total, s).lines;
    var init, t := ls[..|ls| - 1], ls[|ls| - 1];
    StuffingIsCounted(init);
    ConcatAppend(init, [t]);
    assert ls == init + [t];
    assert Concat([t]) == t;
    LinesEndInLF(maxLine, maxSize, total, s);
    TerminatorForms(t);
  }

  lemma {:induction false} LinesEndInLF(maxLine: int, maxSize: int, total: nat, s: Stream)
    ensures forall l :: l in StreamData(maxLine, maxSize, total, s).lines ==> IsLine(l)
    decreases |s.bytes|
  {
    hide NextLine, IsTerminator, UnstuffLine;
    NextLineFacts(s);
    var n := NextLine(s);
    if n.Line? {
      LinesEndInLF(maxLine, maxSize, total + |UnstuffLine(n.line)|, n.rest);
    }
  }

  lemma TerminatorForms(t: string)
    requires IsLine(t)
    ensures IsTerminator(t) <==> t == ".\r\n" || t == ".\n"
  {
    hide Chomp;
    ChompLine(t);
    var p := t[..|t| - 1];
    assert t == p + "\n";
    if p != [] && p[|p| - 1] == '\r' {
      assert p == p[..|p| - 1] + "\r";
      assert t == ".\r\n" <==> p[..|p| - 1] == ".";
    } else {
      assert t != ".\r\n" by { assert ".\r\n"[..2] == ".\r"; }
    }
  }

  // ----- Transparency -----

  function StuffAll(lines: seq<string>): (r: seq<string>)
    ensures |r| == |lines|
    ensures forall i :: 0 <= i < |r| ==> r[i] == StuffLine(lines[i])
  {
    seq(|lines|, i requires 0 <= i < |lines| => StuffLine(lines[i]))
  }

  ghost predicate Fits(maxLine: int, maxSize: int, total: nat, lines: seq<string>) {
    && (forall l :: l in lines ==> LineFits(maxLine, StuffLine(l)))
    && SizeFits(maxSize, total + |Concat(lines)|)
  }

  lemma StuffedNeverTerminates(l: string)
    requires IsLine(l)
    ensures IsLine(StuffLine(l)) && !IsTerminator(StuffLine(l))
    ensures UnstuffLine(StuffLine(l)) == l
  {
    var t := StuffLine(l);
    if l[0] == '.' {
      assert t[..|t| - 1] == "." + l[..|l| - 1];
      assert t[0] == '.' && t[1] == '.';
    }
    TerminatorForms(t);
  }

  lemma FitsCons(maxLine: int, maxSize: int, total: nat, lines: seq<string>)
    requires lines != []
    ensures var l := lines[0];
            Fits(maxLine, maxSize, total, lines) <==>
            && LineFits(maxLine, StuffLine(l))
            && SizeFits(maxSize, total + |l|)
            && Fits(maxLine, maxSize, total + |l|, lines[1..])
  {
    hide StuffLine;
    assert lines == [lines[0]] + lines[1..];
  }

  /** Stuffed lines followed by a terminator come back unchanged exactly when every stuffed line
      and the total fit the limits; then exactly the octets after the terminator are unread. */
  lemma {:induction false} LinesTransparent(maxLine: int, maxSize: int, total: nat,
                                            lines: seq<string>, tail: string, s: Stream)
    requires forall l :: l in lines ==> IsLine(l)
    requires SizeFits(maxSize, total)
    requires s.bytes == Concat(StuffAll(lines)) + ".\r\n" + tail
    ensures var r := StreamData(maxLine, maxSize, total, s);
            && (r.end == AtTerminator <==> Fits(maxLine, maxSize, total, lines))
            && (r.end == AtTerminator ==>
                  && r.written == Concat(lines)
                  && r.lines == StuffAll(lines) + [".\r\n"]
                  && r.rest == s.(bytes := tail))
            && !r.end.ReadFault?
    decreases |lines|
  {
    hide NextLine, IsTerminator, UnstuffLine, StuffLine, LineFits, SizeFits;
    if lines == [] {
      assert s.bytes == ".\r\n" + tail;
      NextLineOf(s, ".\r\n", tail);
      TerminatorForms(".\r\n");
    } else {
      var l, ls := lines[0], lines[1..];
      var t := StuffLine(l);
      assert StuffAll(lines) == [t] + StuffAll(ls);
      var tl := Concat(StuffAll(ls)) + ".\r\n" + tail;
      assert s.bytes == t + tl;
      StuffedNeverTerminates(l);
      FitsCons(maxLine, maxSize, total, lines);
      NextLineOf(s, t, tl);
      var rest := s.(bytes := tl);
      if LineFits(maxLine, t) && SizeFits(maxSize, total + |l|) {
        LinesTransparent(maxLine, maxSize, total + |l|, ls, tail, rest);
        assert StuffAll(lines) + [".\r\n"] == [t] + (StuffAll(ls) + [".\r\n"]);
      }
    }
  }

  /** Splitting after every LF. */
  function Lines(d: string): (r: seq<string>)
    decreases |d|
  {
    var k := IndexOf(d, '\n');
    if k == -1 then []
    else [d[..k + 1]] + Lines(d[k + 1..])
  }

  lemma ConcatCons(l: string, ls: seq<string>)
    ensures Concat([l] + ls) == l + Concat(ls)
  {
  }

  lemma PrefixAfter(l: string, t: string, c: string)
    requires c <= t
    ensures l + c <= l + t && (l + t)[|l + c|..] == t[|c|..]
  {
  }

  /** The lines are single lines, and what follows them has no LF. */
  lemma {:induction false} LinesComplete(d: string)
    ensures forall l :: l in Lines(d) ==> IsLine(l)
    ensures Concat(Lines(d)) <= d && '\n' !in d[|Concat(Lines(d))|..]
    decreases |d|
  {
    hide IndexOf, IsLine;
    var k := IndexOf(d, '\n');
    if k == -1 {
      assert d[0..] == d;
    } else {
      var l, t := d[..k + 1], d[k + 1..];
      assert Lines(d) == [l] + Lines(t);
      hide Lines, Concat;
      LineAt(d, k);
      LinesComplete(t);
      ConcatCons(l, Lines(t));
      PrefixAfter(l, t, Concat(Lines(t)));
    }
  }

  lemma LinesPartition(d: string)
    requires d == [] || d[|d| - 1] == '\n'
    ensures forall l :: l in Lines(d) ==> IsLine(l)
    ensures Concat(Lines(d)) == d
  {
    hide Lines, Concat, IsLine;
    LinesComplete(d);
  }

  /** Dot transparency for every message that is empty or ends in LF. */
  lemma DotTransparency(maxLine: int, maxSize: int, d: string, tail: string, s: Stream)
    requires d == [] || d[|d| - 1] == '\n'
    requires s.bytes == Concat(StuffAll(Lines(d))) + ".\r\n" + tail
    ensures var r := StreamData(maxLine, maxSize, 0, s);
            && (r.end == AtTerminator <==>
                  (forall l :: l in Lines(d) ==> LineFits(maxLine, StuffLine(l))) && SizeFits(maxSize, |d|))
            && (r.end == AtTerminator ==> r.written == d && r.rest == s.(bytes := tail))
  {
    hide StreamData, Lines;
    LinesPartition(d);
    LinesTransparent(maxLine, maxSize, 0, Lines(d), tail, s);
  }

  // ----- Where a phase ends -----

  lemma FirstLine(s: Stream)
    ensures var n := NextLine(s); Lines(s.bytes) == if n.Line? then [n.line] + Lines(n.rest.bytes) else []
    ensures Lines("") == []
  {
    hide IndexOf;
    assert IndexOf("", '\n') == -1;
  }

  predicate IsEnd(l: string) { l == ".\r\n" || l == ".\n" }

  predicate IsTooLong(maxLine: int, l: string) { maxLine > 0 && |l| > maxLine }

  /** With the first i + 1 of these lines the message exceeds the limit. */
  predicate IsTooMuch(maxSize: int, total: nat, ls: seq<string>, i: nat)
    requires i < |ls|
  {
    maxSize > 0 && total + |Unstuffed(ls[..i + 1])| > maxSize
  }

  predicate StopsAt(maxLine: int, maxSize: int, total: nat, ls: seq<string>, i: nat)
    requires i < |ls|
  {
    IsEnd(ls[i]) || IsTooLong(maxLine, ls[i]) || IsTooMuch(maxSize, total, ls, i)
  }

  lemma StopsLater(maxLine: int, maxSize: int, total: nat, ls: seq<string>, i: nat)
    requires i + 1 < |ls|
    ensures StopsAt(maxLine, maxSize, total, ls, i + 1)
       <==> StopsAt(maxLine, maxSize, total + |UnstuffLine(ls[0])|, ls[1..], i)
    ensures IsTooMuch(maxSize, total, ls, i + 1)
       <==> IsTooMuch(maxSize, total + |UnstuffLine(ls[0])|, ls[1..], i)
  {
    hide UnstuffLine;
    assert ls[..i + 2][1..] == ls[1..][..i + 1];
  }

  lemma StopsFirst(maxLine: int, maxSize: int, total: nat, ls: seq<string>)
    requires ls != [] && IsLine(ls[0])
    ensures StopsAt(maxLine, maxSize, total, ls, 0) <==>
              IsTerminator(ls[0]) || !LineFits(maxLine, ls[0]) || !SizeFits(maxSize, total + |UnstuffLine(ls[0])|)
    ensures IsEnd(ls[0]) <==> IsTerminator(ls[0])
    ensures IsTooLong(maxLine, ls[0]) <==> !LineFits(maxLine, ls[0])
  {
    hide UnstuffLine, IsTerminator;
    TerminatorForms(ls[0]);
    assert ls[..1] == [ls[0]] && ls[..1][1..] == [];
    assert Unstuffed([]) == "";
    assert Unstuffed(ls[..1]) == UnstuffLine(ls[0]) + "" == UnstuffLine(ls[0]);
  }

  /** A phase ends at the first line that is a terminator, is too long or makes the message too
      large, and says which; of a terminator, a long line and a large message the first counts. */
  lemma {:induction false} PhaseEndsAt(maxLine: int, maxSize: int, total: nat, s: Stream, i: nat)
    requires i < |Lines(s.bytes)| && StopsAt(maxLine, maxSize, total, Lines(s.bytes), i)
    requires forall k: nat :: k < i ==> !StopsAt(maxLine, maxSize, total, Lines(s.bytes), k)
    ensures var ls := Lines(s.bytes);
            var r := StreamData(maxLine, maxSize, total, s);
            && r.lines == ls[..i + 1]
            && r.end == if IsEnd(ls[i]) then AtTerminator
                        else if IsTooLong(maxLine, ls[i]) then LineTooLong else MessageTooLarge
    decreases i
  {
    hide NextLine, IsTerminator, UnstuffLine, LineFits, SizeFits, Lines, StopsAt, IsTooMuch, IsEnd, IsTooLong;
    var ls := Lines(s.bytes);
    FirstLine(s);
    NextLineFacts(s);
    StopsFirst(maxLine, maxSize, total, ls);
    var n := NextLine(s);
    assert ls[0] == n.line && ls[1..] == Lines(n.rest.bytes);
    if i == 0 {
      assert ls[..1] == [n.line];
    } else {
      var t := total + |UnstuffLine(n.line)|;
      assert !StopsAt(maxLine, maxSize, total, ls, 0);
      forall k: nat | k < i - 1
        ensures !StopsAt(maxLine, maxSize, t, ls[1..], k)
      {
        StopsLater(maxLine, maxSize, total, ls, k);
      }
      StopsLater(maxLine, maxSize, total, ls, i - 1);
      PhaseEndsAt(maxLine, maxSize, t, n.rest, i - 1);
      assert ls[..i + 1] == [n.line] + ls[1..][..i];
    }
  }

  /** A phase that no line ends comes to the error of the stream. */
  lemma {:induction false} PhaseRunsOut(maxLine: int, maxSize: int, total: nat, s: Stream)
    requires forall k: nat :: k < |Lines(s.bytes)| ==> !StopsAt(maxLine, maxSize, total, Lines(s.bytes), k)
    ensures var r := StreamData(maxLine, maxSize, total, s);
            r.end == ReadFault(s.err) && r.lines == Lines(s.bytes)
    decreases |s.bytes|
  {
    hide NextLine, IsTerminator, UnstuffLine, LineFits, SizeFits, Lines, StopsAt, IsEnd, IsTooLong;
    var ls := Lines(s.bytes);
    FirstLine(s);
    NextLineFacts(s);
    var n := NextLine(s);
    if n.Line? {
      StopsFirst(maxLine, maxSize, total, ls);
      assert ls[0] == n.line && ls[1..] == Lines(n.rest.bytes);
      assert !StopsAt(maxLine, maxSize, total, ls, 0);
      var t := total + |UnstuffLine(n.line)|;
      forall k: nat | k < |ls[1..]|
        ensures !StopsAt(maxLine, maxSize, t, ls[1..], k)
      {
        StopsLater(maxLine, maxSize, total, ls, k);
      }
      PhaseRunsOut(maxLine, maxSize, t, n.rest);
    }
  }

  lemma {:induction false} LinesOfConcat(ls: seq<string>, tail: string)
    requires forall l :: l in ls ==> IsLine(l)
    ensures Lines(Concat(ls) + tail) == ls + Lines(tail)
    decreases |ls|
  {
    hide Lines, IsLine;
    if ls == [] {
      assert Concat(ls) + tail == tail && ls + Lines(tail) == Lines(tail);
    } else {
      var l, t := ls[0], Concat(ls[1..]) + tail;
      assert Concat(ls) + tail == l + t;
      LinesOfLine(l, t);
      LinesOfConcat(ls[1..], tail);
      assert ls + Lines(tail) == [l] + (ls[1..] + Lines(tail));
    }
  }

  lemma LinesOfLine(l: string, t: string)
    requires IsLine(l)
    ensures Lines(l + t) == [l] + Lines(t)
  {
    hide Lines, NextLine, IsLine;
    var s := Last(l + t, IoError);
    NextLineOf(s, l, t);
    FirstLine(s);
  }

  lemma {:induction false} UnstuffedStuffing(lines: seq<string>)
    requires forall l :: l in lines ==> IsLine(l)
    ensures Unstuffed(StuffAll(lines)) == Concat(lines)
  {
    hide StuffLine, UnstuffLine, IsLine, IsTerminator;
    if lines != [] {
      StuffedNeverTerminates(lines[0]);
      UnstuffedStuffing(lines[1..]);
      assert StuffAll(lines)[1..] == StuffAll(lines[1..]);
    }
  }

  /** With the first i + 1 lines a message breaks a limit. */
  predicate BreaksAt(maxLine: int, maxSize: int, lines: seq<string>, i: nat)
    requires i < |lines|
  {
    IsTooLong(maxLine, StuffLine(lines[i])) || (maxSize > 0 && |Concat(lines[..i + 1])| > maxSize)
  }

  lemma StopsIffBreaks(maxLine: int, maxSize: int, lines: seq<string>, more: seq<string>, i: nat)
    requires (forall l :: l in lines ==> IsLine(l)) && i < |lines|
    ensures var ls := StuffAll(lines) + more;
            && (StopsAt(maxLine, maxSize, 0, ls, i) <==> BreaksAt(maxLine, maxSize, lines, i))
            && !IsEnd(ls[i]) && ls[i] == StuffLine(lines[i])
  {
    hide Unstuffed, Concat, StuffLine, IsLine, IsTerminator, UnstuffLine;
    var ls := StuffAll(lines) + more;
    assert ls[..i + 1] == StuffAll(lines[..i + 1]);
    UnstuffedStuffing(lines[..i + 1]);
    StuffedNeverTerminates(lines[i]);
    TerminatorForms(ls[i]);
  }

  /** What a stuffed message that does not fit is refused for: the first line that breaks a limit,
      by its own length or by bringing the message over its limit. */
  lemma StuffedEndsAt(maxLine: int, maxSize: int, lines: seq<string>, tail: string, s: Stream, i: nat)
    requires forall l :: l in lines ==> IsLine(l)
    requires s.bytes == Concat(StuffAll(lines)) + tail
    requires i < |lines| && BreaksAt(maxLine, maxSize, lines, i)
    requires forall k: nat :: k < i ==> !BreaksAt(maxLine, maxSize, lines, k)
    ensures StreamData(maxLine, maxSize, 0, s).end ==
            if IsTooLong(maxLine, StuffLine(lines[i])) then LineTooLong else MessageTooLarge
  {
    hide StreamData, Lines, StopsAt, BreaksAt, IsTooLong, IsEnd, IsLine, StuffLine, IsTerminator, UnstuffLine;
    forall l | l in StuffAll(lines)
      ensures IsLine(l)
    {
      var k :| 0 <= k < |lines| && StuffAll(lines)[k] == l;
      assert lines[k] in lines;
      StuffedNeverTerminates(lines[k]);
    }
    LinesOfConcat(StuffAll(lines), tail);
    forall k: nat | k <= i
      ensures StopsAt(maxLine, maxSize, 0, Lines(s.bytes), k) <==> BreaksAt(maxLine, maxSize, lines, k)
    {
      StopsIffBreaks(maxLine, maxSize, lines, Lines(tail), k);
    }
    StopsIffBreaks(maxLine, maxSize, lines, Lines(tail), i);
    PhaseEndsAt(maxLine, maxSize, 0, s, i);
  }
}
