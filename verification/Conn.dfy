/** The connection: a byte stream that can fail, read line by line through a buffer. */
module Conn {
  import opened Text

  /** How the engine classifies an error of the connection or of a hook: end-of-file-like errors
      and timeouts end the session, any other error does not. */
  datatype ErrKind = IoError | Timeout | OtherError

  /** What the peer sends: segments of octets, each followed by a read error. The error of the
      last segment is permanent. */
  datatype Stream =
    | Last(bytes: string, err: ErrKind)
    | More(bytes: string, err: ErrKind, next: Stream)
  {
    /** What is left once the read error after this segment has been reported. */
    function AfterError(): (r: Stream)
      ensures r.Size() <= Size()
      ensures r.Size() == Size() ==> this == r == Last("", err)
    {
      match this
      case Last(_, e) => Last("", e)
      case More(_, _, n) => n
    }

    function Size(): nat {
      match this
      case Last(b, _) => |b|
      case More(b, _, n) => |b| + 1 + n.Size()
    }

    function FinalError(): ErrKind {
      match this
      case Last(_, e) => e
      case More(_, _, n) => n.FinalError()
    }
  }

  datatype ReadResult = Line(line: string, rest: Stream) | Failed(err: ErrKind, rest: Stream)

  /** One line including its LF; when no LF is left in the segment, its error, with the
      unfinished line lost. */
  function NextLine(s: Stream): (r: ReadResult)
    ensures r.Line? ==> |r.rest.bytes| < |s.bytes|
  {
    var k := IndexOf(s.bytes, '\n');
    if k == -1 then Failed(s.err, s.AfterError())
    else Line(s.bytes[..k + 1], s.(bytes := s.bytes[k + 1..]))
  }

  predicate IsLine(l: string) {
    l != [] && l[|l| - 1] == '\n' && '\n' !in l[..|l| - 1]
  }

  /** What chomping does to a line: its LF goes, and one CR before it. */
  lemma ChompLine(t: string)
    requires IsLine(t)
    ensures var p := t[..|t| - 1];
            Chomp(t) == if p != [] && p[|p| - 1] == '\r' then p[..|p| - 1] else p
  {
    var p := t[..|t| - 1];
    if p != [] && p[|p| - 1] == '\r' {
      assert t[|t| - 2..] == CRLF;
      var a := t[..|t| - 2];
      assert forall i :: 0 <= i < |a| ==> a[i] == p[i];
      assert a != [] ==> a[|a| - 1..][0] == p[|a| - 1];
      assert TrimSuffix(a, "\n") == a;
    } else {
      assert 2 <= |t| ==> t[|t| - 2..][0] == p[|p| - 1];
      assert TrimSuffix(t, CRLF) == t;
      assert t[|t| - 1..] == "\n";
    }
  }

  /** A line read is exactly one line and nothing else is lost; a failed read loses the rest of
      the segment. */
  lemma NextLineFacts(s: Stream)
    ensures var r := NextLine(s);
            && (r.Line? ==>
                  && IsLine(r.line)
                  && s.bytes == r.line + r.rest.bytes
                  && r.rest == s.(bytes := r.rest.bytes)
                  && r.rest.Size() + |r.line| == s.Size())
            && (r.Failed? ==> r.err == s.err && r.rest == s.AfterError() && '\n' !in s.bytes)
            && r.rest.FinalError() == s.FinalError()
  {
    hide IndexOf;
    var k := IndexOf(s.bytes, '\n');
    if k != -1 {
      LineAt(s.bytes, k);
    }
    FinalErrorOfRest(s);
  }

  lemma FinalErrorOfRest(s: Stream)
    ensures s.AfterError().FinalError() == s.FinalError()
    ensures forall b {:trigger s.(bytes := b)} :: s.(bytes := b).FinalError() == s.FinalError()
  {
  }

  lemma LineAt(b: string, k: nat)
    requires k < |b| && b[k] == '\n' && '\n' !in b[..k]
    ensures IsLine(b[..k + 1]) && b == b[..k + 1] + b[k + 1..]
  {
    assert b[..k + 1][..k] == b[..k];
  }

  /** A line is read exactly when it is there, whatever follows it. */
  lemma NextLineOf(s: Stream, line: string, tail: string)
    requires IsLine(line)
    requires s.bytes == line + tail
    ensures NextLine(s) == Line(line, s.(bytes := tail))
  {
    var p := line[..|line| - 1];
    assert line == p + ['\n'];
    IndexOfAfter(p, '\n', tail);
    assert s.bytes[..|line|] == line && s.bytes[|line|..] == tail;
  }

  lemma LineInBuffer(s: Stream, b: string, u: string, k: nat)
    requires k < |b| && b[k] == '\n' && '\n' !in b[..k]
    requires s.bytes == b + u
    ensures NextLine(s) == Line(b[..k + 1], s.(bytes := b[k + 1..] + u))
  {
    LineAt(b, k);
    assert s.bytes == b[..k + 1] + (b[k + 1..] + u);
    NextLineOf(s, b[..k + 1], b[k + 1..] + u);
  }

  /** A failed write may still have passed on some octets. */
  datatype Fault = Fault(err: ErrKind, passed: nat)

  function Passed(data: string, fault: Option<Fault>): (r: string)
    ensures r <= data
    ensures fault.None? ==> r == data
  {
    if fault.Some? && fault.value.passed < |data| then data[..fault.value.passed] else data
  }

  /** A connection behind a buffered reader that reads ahead. */
  class BufferedConn {
    var buffered: string
    var under: Stream
    var output: string

    /** The octets not yet delivered, wherever they are held. */
    function Unread(): Stream
      reads this
    {
      under.(bytes := buffered + under.bytes)
    }

    constructor (input: Stream)
      ensures Unread() == input && output == ""
    {
      buffered, under, output := "", input, "";
    }

    /** Fills the buffer `chunk + 1` octets at a time until it holds an LF; how much is read
        ahead has no influence on the result. */
    method ReadLine(chunk: nat) returns (r: Result<string>, err: ErrKind)
      modifies this
      ensures output == old(output)
      ensures match NextLine(old(Unread()))
              case Line(l, rest) => r == Ok(l) && Unread() == rest
              case Failed(e, rest) => r == Err && err == e && Unread() == rest
    {
      hide IndexOf, NextLine;
      NextLineFacts(Unread());
      err := under.err;
      while '\n' !in buffered && under.bytes != ""
        invariant Unread() == old(Unread()) && output == old(output)
        decreases |under.bytes|
      {
        var n := if chunk < |under.bytes| then chunk + 1 else |under.bytes|;
        buffered, under := buffered + under.bytes[..n], under.(bytes := under.bytes[n..]);
      }
      var k := IndexOf(buffered, '\n');
      if k == -1 {
        assert buffered + under.bytes == buffered;
        buffered, under := "", under.AfterError();
        assert "" + under.bytes == under.bytes;
        r := Err;
      } else {
        LineInBuffer(old(Unread()), buffered, under.bytes, k);
        r := Ok(buffered[..k + 1]);
        buffered := buffered[k + 1..];
      }
    }

    /** The handshake puts a new stream underneath; the buffer still holds old octets. */
    method UpgradeTLS(tls: Stream)
      modifies this`under
      ensures under == tls
    {
      under := tls;
    }

    /** Drops everything read ahead. */
    method ResetReader()
      modifies this`buffered
      ensures Unread() == under
    {
      buffered := "";
    }

    method Write(data: string, fault: Option<Fault>) returns (n: nat, err: Option<ErrKind>)
      modifies this`output
      ensures output == old(output) + Passed(data, fault) && n == |Passed(data, fault)|
      ensures err == if fault.Some? then Some(fault.value.err) else None
    {
      var p := Passed(data, fault);
      output := output + p;
      n := |p|;
      err := if fault.Some? then Some(fault.value.err) else None;
    }
  }
}
