/** The client half of the test harness: the stuffing encoder and the reply reader. */
module Harness {
  import opened Text
  import opened Conn
  import opened DataCodec
  import opened Reply

  /** A pipe whose writer has finished: reading past the end is end of file. */
  class PipeBuffer {
    var buf: string

    constructor (s: string)
      ensures buf == s
    {
      buf := s;
    }

    method Write(data: string)
      modifies this
      ensures buf == old(buf) + data
    {
      buf := buf + data;
    }

    /** One octet at a time, up to and including an LF. */
    method ReadLine() returns (line: string, ok: bool)
      modifies this
      ensures ok <==> '\n' in old(buf)
      ensures ok ==> IsLine(line) && old(buf) == line + buf
      ensures !ok ==> line == old(buf) && buf == ""
    {
      line := "";
      while buf != ""
        invariant old(buf) == line + buf && '\n' !in line
        decreases |buf|
      {
        var b := buf[0];
        buf := buf[1..];
        line := line + [b];
        if b == '\n' {
          return line, true;
        }
      }
      return line, false;
    }
  }

  /** Reads lines until one is final; on end of file the lines read so far are returned. */
  method ReadResponse(output: PipeBuffer) returns (lines: seq<string>, ok: bool)
    modifies output
    ensures match ReadReply(old(output.buf))
            case Complete(ls, rest) => ok && lines == ls && output.buf == rest
            case Truncated(ls) => !ok && lines == ls
  {
    hide IsFinalLine, ReadReply, IsLine;
    lines := [];
    assert After([], output.buf) == ReadReply(output.buf);
    while true
      invariant ReadReply(old(output.buf)) == After(lines, output.buf)
      decreases |output.buf|
    {
      ghost var seen, before := lines, output.buf;
      var line, got := output.ReadLine();
      if !got {
        ReadNothing(before);
        return lines, false;
      }
      AfterOneLine(seen, line, output.buf);
      lines := lines + [line];
      if IsFinalLine(line) {
        return lines, true;
      }
    }
  }

  /** The reply read from s when some of its lines have been read before. */
  ghost function After(seen: seq<string>, s: string): ReplyRead {
    var r := ReadReply(s);
    r.(lines := seen + r.lines)
  }

  lemma AfterOneLine(seen: seq<string>, line: string, rest: string)
    requires IsLine(line)
    ensures After(seen, line + rest) ==
            if IsFinalLine(line) then Complete(seen + [line], rest) else After(seen + [line], rest)
  {
    hide ReadReply, IsFinalLine, IsLine;
    ReadOneLine(line, rest);
    var r := ReadReply(rest);
    assert seen + ([line] + r.lines) == seen + [line] + r.lines;
  }

  lemma ReadNothing(s: string)
    requires '\n' !in s
    ensures ReadReply(s) == Truncated([])
  {
  }

  // ----- The encoder -----

  /** The line sent for a piece of the data between LFs: without its CR, with CRLF. */
  function CanonLine(piece: string): string {
    TrimSuffix(piece, "\r") + CRLF
  }

  /** The lines a message is sent as; a last piece without content is not sent. */
  function CanonLines(pieces: seq<string>): seq<string> {
    if pieces == [] then []
    else if |pieces| == 1 && TrimSuffix(pieces[0], "\r") == "" then []
    else [CanonLine(pieces[0])] + CanonLines(pieces[1..])
  }

  function Normalized(data: string): string {
    Concat(CanonLines(SplitOn(data, '\n')))
  }

  function Sent(pieces: seq<string>): string {
    Concat(StuffAll(CanonLines(pieces)))
  }

  method SendData(input: PipeBuffer, data: string)
    modifies input
    ensures input.buf == old(input.buf) + Sent(SplitOn(data, '\n')) + ".\r\n"
  {
    hide SplitOn, TrimSuffix, Sent;
    var lines := SplitOn(data, '\n');
    assert lines[0..] == lines;
    for i := 0 to |lines|
      invariant input.buf + Sent(lines[i..]) == old(input.buf) + Sent(lines)
    {
      var line := TrimSuffix(lines[i], "\r");
      ghost var piece, buf := line, input.buf;
      if |line| > 0 && line[0] == '.' {
        line := "." + line;
      }
      SentStep(lines[i..], buf);
      assert lines[i..][1..] == lines[i + 1..];
      StuffedCanon(piece, line);
      if i < |lines| - 1 {
        input.Write(line + CRLF);
      } else if line != "" {
        input.Write(line + CRLF);
      }
    }
    assert lines[|lines|..] == [];
    NothingSent();
    input.Write("." + CRLF);
  }

  lemma NothingSent()
    ensures Sent([]) == ""
  {
  }

  lemma StuffedCanon(piece: string, line: string)
    requires line == if |piece| > 0 && piece[0] == '.' then "." + piece else piece
    ensures StuffLine(piece + CRLF) == line + CRLF && (line == "" <==> piece == "")
  {
    assert ("." + piece) + CRLF == "." + (piece + CRLF);
  }

  lemma SentStep(pieces: seq<string>, buf: string)
    requires pieces != []
    ensures buf + Sent(pieces) ==
            (if |pieces| == 1 && TrimSuffix(pieces[0], "\r") == "" then buf
             else buf + StuffLine(CanonLine(pieces[0]))) + Sent(pieces[1..])
  {
    hide TrimSuffix, CanonLine, StuffLine;
    var ls := CanonLines(pieces);
    if ls == [] {
      assert pieces[1..] == [];
      assert StuffAll([]) == [];
    } else {
      var l := StuffLine(ls[0]);
      assert StuffAll(ls) == [l] + StuffAll(ls[1..]);
      assert ls[1..] == CanonLines(pieces[1..]);
      assert buf + (l + Sent(pieces[1..])) == (buf + l) + Sent(pieces[1..]);
    }
  }

  lemma {:induction false} CanonLinesAreLines(pieces: seq<string>)
    requires forall p :: p in pieces ==> '\n' !in p
    ensures forall l :: l in CanonLines(pieces) ==> IsLine(l)
  {
    hide CanonLine, IsLine;
    if pieces != [] {
      CanonLinesAreLines(pieces[1..]);
      CanonLineIsLine(pieces[0]);
    }
  }

  lemma CanonLineIsLine(p: string)
    requires '\n' !in p
    ensures IsLine(CanonLine(p))
  {
    var l, q := CanonLine(p), TrimSuffix(p, "\r");
    assert l[..|l| - 1] == q + ['\r'];
    assert '\n' !in q;
  }

  /** What the encoder sends is received as the message with CRLF line ends, and exactly the
      octets after the terminator are left, if and only if the limits allow it. */
  lemma SentIsReceived(maxLine: int, maxSize: int, data: string, tail: string, s: Stream)
    requires s.bytes == Sent(SplitOn(data, '\n')) + ".\r\n" + tail
    ensures var r := StreamData(maxLine, maxSize, 0, s);
            var lines := CanonLines(SplitOn(data, '\n'));
            && (r.end == AtTerminator <==> Fits(maxLine, maxSize, 0, lines))
            && (r.end == AtTerminator ==> r.written == Normalized(data) && r.rest == s.(bytes := tail))
  {
    hide StreamData, SplitOn, CanonLines;
    SplitPieces(data, '\n');
    CanonLinesAreLines(SplitOn(data, '\n'));
    LinesTransparent(maxLine, maxSize, 0, CanonLines(SplitOn(data, '\n')), tail, s);
  }

  /** Text whose lines all end in CRLF. */
  ghost predicate IsCanonical(data: string) {
    && (data != "" ==> data[|data| - 1] == '\n')
    && forall i :: 0 <= i < |data| && data[i] == '\n' ==> 0 < i && data[i - 1] == '\r'
  }

  /** The encoder changes nothing in such text. */
  lemma {:induction false} CanonicalIsFixed(data: string)
    requires IsCanonical(data)
    ensures Normalized(data) == data
    decreases |data|
  {
    if data == "" {
      assert SplitOn(data, '\n') == [""];
    } else {
      hide IndexOf, CanonLine, CanonLines, Concat, SplitOn, IsCanonical;
      var k := IndexOf(data, '\n');
      assert k != -1 by { CanonicalHasLF(data); }
      FirstCanonical(data, k);
      CanonicalIsFixed(data[k + 1..]);
      NormalizedStep(data, k);
    }
  }

  lemma CanonicalHasLF(data: string)
    requires IsCanonical(data) && data != ""
    ensures '\n' in data
  {
    assert data[|data| - 1] in data;
  }

  lemma NormalizedStep(data: string, k: nat)
    requires k == IndexOf(data, '\n')
    ensures k < |data|
    ensures Normalized(data) == CanonLine(data[..k]) + Normalized(data[k + 1..])
  {
    hide IndexOf, CanonLine;
    var p, ts := data[..k], SplitOn(data[k + 1..], '\n');
    assert SplitOn(data, '\n') == [p] + ts;
    hide SplitOn;
    assert ([p] + ts)[1..] == ts;
    var c, cs := CanonLine(p), CanonLines(ts);
    assert CanonLines([p] + ts) == [c] + cs;
    assert ([c] + cs)[1..] == cs;
  }

  lemma FirstCanonical(data: string, k: nat)
    requires IsCanonical(data) && k < |data| && data[k] == '\n' && '\n' !in data[..k]
    ensures IsCanonical(data[k + 1..])
    ensures CanonLine(data[..k]) + data[k + 1..] == data
  {
    var p, t := data[..k], data[k + 1..];
    assert p[|p| - 1..] == "\r";
    assert CanonLine(p) == data[..k + 1];
    assert t != "" ==> t[|t| - 1] == data[|data| - 1];
    forall i | 0 <= i < |t| && t[i] == '\n'
      ensures 0 < i && t[i - 1] == '\r'
    {
      assert t[i] == data[k + 1 + i];
    }
  }

  predicate EndsInCRLF(l: string) {
    IsLine(l) && 2 <= |l| && l[|l| - 2] == '\r'
  }

  lemma {:induction false} LinesAreCanonical(pieces: seq<string>)
    requires forall p :: p in pieces ==> '\n' !in p
    ensures forall l :: l in CanonLines(pieces) ==> EndsInCRLF(l)
  {
    hide CanonLine, EndsInCRLF;
    if pieces != [] {
      LinesAreCanonical(pieces[1..]);
      CanonLineEnds(pieces[0]);
    }
  }

  lemma CanonLineEnds(p: string)
    requires '\n' !in p
    ensures EndsInCRLF(CanonLine(p))
  {
    CanonLineIsLine(p);
  }

  lemma {:induction false} ConcatIsCanonical(ls: seq<string>)
    requires forall l :: l in ls ==> EndsInCRLF(l)
    ensures IsCanonical(Concat(ls))
  {
    if ls != [] {
      ConcatIsCanonical(ls[1..]);
      assert EndsInCRLF(ls[0]);
      PrependCanonical(ls[0], Concat(ls[1..]));
    }
  }

  lemma PrependCanonical(l: string, t: string)
    requires EndsInCRLF(l) && IsCanonical(t)
    ensures IsCanonical(l + t)
  {
    var d := l + t;
    forall i | 0 <= i < |d| && d[i] == '\n'
      ensures 0 < i && d[i - 1] == '\r'
    {
      if i < |l| {
        assert i == |l| - 1;
      } else {
        assert t[i - |l|] == '\n';
      }
    }
  }

  /** A message reaches the other side unchanged if and only if all its lines end in CRLF. */
  lemma UnchangedIffCanonical(data: string)
    ensures Normalized(data) == data <==> IsCanonical(data)
  {
    hide IsCanonical, CanonLines, SplitOn;
    SplitPieces(data, '\n');
    LinesAreCanonical(SplitOn(data, '\n'));
    ConcatIsCanonical(CanonLines(SplitOn(data, '\n')));
    if IsCanonical(data) {
      CanonicalIsFixed(data);
    }
  }
}
