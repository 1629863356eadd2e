/** The lines of a log are the lines of the input, in order. */
module SessionInput {
  import opened Text
  import opened Conn
  import opened Protocol
  import opened StateMachine
  import opened Parser
  import opened DataCodec
  import opened Phrases
  import opened Reply
  import opened Envelopes
  import opened Session
  import opened SessionStates
  import opened SessionLog
  import opened SessionRecord
  import opened SessionHistory
  import opened SessionFailure

  /** The command line of an event and the lines of its DATA phase. */
  function EventLines(e: Event): seq<string> {
    if e.Exchange? then [e.line] + e.body else []
  }

  /** All command lines and message lines of a log. */
  function TakenIn(log: seq<Event>): seq<string> {
    if log == [] then [] else TakenIn(log[..|log| - 1]) + EventLines(log[|log| - 1])
  }

  /** All complete lines of a stream: of every segment all but an unfinished last line. */
  function LinesOf(s: Stream): seq<string> {
    match s
    case Last(b, _) => Lines(b)
    case More(b, _, next) => Lines(b) + LinesOf(next)
  }

  /** From s these lines have been taken and exactly the others are still to come in rest. */
  predicate TakenFrom(taken: seq<string>, rest: Stream, s: Stream) {
    taken + LinesOf(rest) == LinesOf(s)
  }

  lemma NothingTaken(s: Stream)
    ensures TakenFrom([], s, s)
  {
  }

  /** A line read is the next complete line; a failed read loses no complete line. */
  lemma ReadTakes(s: Stream)
    ensures var n := NextLine(s); TakenFrom(if n.Line? then [n.line] else [], n.rest, s)
  {
    hide IndexOf, NextLine, Lines;
    NextLineFacts(s);
    FirstLine(s);
    var n := NextLine(s);
    if n.Line? && s.More? {
      var c, d := Lines(n.rest.bytes), LinesOf(s.next);
      assert [n.line] + (c + d) == ([n.line] + c) + d;
    }
  }

  /** Taking first a and then b. */
  lemma TakeBoth(a: seq<string>, b: seq<string>, s: Stream, t: Stream, u: Stream)
    requires TakenFrom(a, t, s) && TakenFrom(b, u, t)
    ensures TakenFrom(a + b, u, s)
  {
    hide LinesOf;
    assert (a + b) + LinesOf(u) == a + (b + LinesOf(u));
  }

  /** A DATA phase takes exactly the next lines of the input, however it ends. */
  lemma {:induction false} PhaseTakes(maxLine: int, maxSize: int, total: nat, s: Stream)
    ensures var r := StreamData(maxLine, maxSize, total, s); TakenFrom(r.lines, r.rest, s)
    decreases |s.bytes|
  {
    hide NextLine, IsTerminator, UnstuffLine, LineFits, SizeFits, TakenFrom;
    ReadTakes(s);
    var n := NextLine(s);
    if n.Line? {
      var t := total + |UnstuffLine(n.line)|;
      PhaseTakes(maxLine, maxSize, t, n.rest);
      var q := StreamData(maxLine, maxSize, t, n.rest);
      TakeBoth([n.line], q.lines, s, n.rest, q.rest);
    }
  }

  lemma HandleTakes(cfg: Config, s: Sess, cmd: Command, o: Oracle)
    ensures var h := Handle(cfg, s, cmd, o); TakenFrom(h.body, h.s.input, s.input)
  {
    hide Handle, StreamData, TakenFrom;
    HandleInput(cfg, s, cmd, o);
    PhaseTakes(cfg.limits.maxLineLength, cfg.limits.maxMessageSize, 0, s.input);
    NothingTaken(s.input);
  }

  /** The lines in the events by which t is ahead of s are what it has taken from the input. */
  predicate Ahead(s: Sess, t: Sess, source: Stream) {
    s.log <= t.log && TakenFrom(TakenIn(t.log[|s.log|..]), t.input, source)
  }

  /** What an iteration records after the command line is what it takes from the input. */
  lemma DispatchTakes(cfg: Config, s: Sess, line: string, parsed: Result<Command>, o: Oracle)
    requires Shape(s) && s.exit.None? && !s.sm.state.IsTerminal() && s.state != StartTLS
    ensures var t := Dispatch(cfg, s, line, parsed, o).s;
            && Records(s, t, line, parsed)
            && TakenFrom(t.log[|s.log|].body, t.input, s.input)
  {
    hide Say, Apply, Handle, Bytes, Passed, TakenFrom, TooManyErrors, Shape, IsLine;
    NothingTaken(s.input);
    DispatchRecords(cfg, s, line, parsed, o);
    if parsed.Ok? && IsCommandAllowed(s.sm.state, parsed.value.verb) {
      HandleKeepsShape(cfg, s, parsed.value, o);
      HandleKeepsLog(cfg, s, parsed.value, o);
      HandleTakes(cfg, s, parsed.value, o);
    }
  }

  /** One iteration that takes a line. */
  lemma LineTakes(cfg: Config, s: Sess, o: Oracle, line: string, rest: Stream)
    requires Shape(s) && s.exit.None? && !s.sm.state.IsTerminal() && s.state != StartTLS
    requires NextLine(s.input) == Line(line, rest)
    ensures var t := ProcessOneCommand(cfg, s, o).s;
            |t.log| == |s.log| + 1 && t.log[|s.log|].Exchange? && Ahead(s, t, s.input)
  {
    hide Say, Dispatch, ParseCommand, NextLine, TakenIn, TakenFrom, Shape, IsLine;
    var s' := TakeLine(s, line, rest);
    ShapeOfTaken(s, line, rest);
    DispatchTakes(cfg, s', line, ParseCommand(MaxCommandLength(cfg), line), o);
    var t := ProcessOneCommand(cfg, s, o).s;
    var e := t.log[|s.log|];
    assert t.log[|s.log|..] == [e];
    TakenOne(e);
    ReadTakes(s.input);
    TakeBoth([line], e.body, s.input, rest, t.input);
  }

  /** The iteration puts the session on a new stream. */
  predicate Upgrades(s: Sess, o: Oracle) {
    s.exit.None? && !s.sm.state.IsTerminal() && s.state == StartTLS && o.upgrade.Some?
  }

  lemma NoMore(log: seq<Event>)
    ensures log[|log|..] == []
  {
  }

  /** One iteration that is not an upgrade. */
  lemma StepTakes(cfg: Config, s: Sess, o: Oracle)
    requires Shape(s) && !Upgrades(s, o)
    ensures var t := Step(cfg, s, o);
            && Ahead(s, t, s.input)
            && |t.log| <= |s.log| + 1 && (forall e :: e in t.log[|s.log|..] ==> e.Exchange?)
  {
    hide Say, Dispatch, ParseCommand, NextLine, TakenIn, TakenFrom, Shape;
    TakenNone();
    ReadTakes(s.input);
    NothingTaken(s.input);
    if s.exit.None? && !s.sm.state.IsTerminal() && s.state != StartTLS && NextLine(s.input).Line? {
      var n := NextLine(s.input);
      LineTakes(cfg, s, o, n.line, n.rest);
    } else {
      NoMore(s.log);
    }
  }

  lemma TakenNone()
    ensures TakenIn([]) == []
  {
  }

  lemma TakenOne(e: Event)
    ensures TakenIn([e]) == EventLines(e)
  {
    assert [e][..0] == [];
    assert TakenIn([e]) == TakenIn([]) + EventLines(e);
  }

  lemma {:induction false} TakenAppend(a: seq<Event>, b: seq<Event>)
    ensures TakenIn(a + b) == TakenIn(a) + TakenIn(b)
    decreases |b|
  {
    hide EventLines;
    if b == [] {
      assert a + b == a;
    } else {
      var n := |b| - 1;
      TakenAppend(a, b[..n]);
      var x, y, z := TakenIn(a), TakenIn(b[..n]), EventLines(b[n]);
      assert (a + b)[..|a| + n] == a + b[..n] && (a + b)[|a| + n] == b[n];
      assert TakenIn(a + b) == TakenIn(a + b[..n]) + z;
      assert x + (y + z) == (x + y) + z;
    }
  }

  /** From any state of a session on, until an upgrade, the lines recorded followed by the
      complete lines still unread are exactly the complete lines that were unread in that state,
      line by line: nothing is skipped, repeated, merged or reordered, and of every segment only
      an unfinished last line is lost. */
  lemma {:induction false} LogIsInput(cfg: Config, s: Sess, w: nat -> Oracle, n: nat, k: nat)
    requires Shape(s)
    requires forall j :: 0 <= j < k ==> !Upgrades(RunFrom(cfg, s, w, n, j), w(n + j + 1))
    ensures var t := RunFrom(cfg, s, w, n, k); Shape(t) && Ahead(s, t, s.input)
  {
    hide Step, Shape, TakenFrom, TakenIn, Upgrades;
    if k == 0 {
      NoMore(s.log);
      TakenNone();
      NothingTaken(s.input);
    } else {
      LogIsInput(cfg, s, w, n, k - 1);
      var t := RunFrom(cfg, s, w, n, k - 1);
      var u := RunFrom(cfg, s, w, n, k);
      StepKeepsShape(cfg, t, w(n + k));
      StepTakes(cfg, t, w(n + k));
      var a, b := t.log[|s.log|..], u.log[|t.log|..];
      assert u.log[|s.log|..] == a + b;
      TakenAppend(a, b);
      TakeBoth(TakenIn(a), TakenIn(b), s.input, t.input, u.input);
    }
  }

  /** The stream that the session reads after n iterations: the last one it was upgraded to. */
  function Source(cfg: Config, input: Stream, w: nat -> Oracle, n: nat): Stream {
    if n == 0 then input
    else if Upgrades(Run(cfg, input, w, n - 1), w(n)) then w(n).upgrade.value
    else Source(cfg, input, w, n - 1)
  }

  /** What a log says since its last upgrade. */
  function SinceUpgrade(log: seq<Event>): (r: seq<Event>)
    ensures |r| <= |log| && r == log[|log| - |r|..]
    ensures forall e :: e in r ==> e.Exchange?
    ensures |r| < |log| ==> log[|log| - |r| - 1].Upgraded?
  {
    if log == [] || log[|log| - 1].Upgraded? then []
    else SinceUpgrade(log[..|log| - 1]) + [log[|log| - 1]]
  }

  lemma SinceSnoc(log: seq<Event>, e: Event)
    requires e.Exchange?
    ensures SinceUpgrade(log + [e]) == SinceUpgrade(log) + [e]
  {
    LogSnoc(log, e);
  }

  lemma SinceMore(log: seq<Event>, more: seq<Event>)
    requires |more| <= 1 && forall e :: e in more ==> e.Exchange?
    ensures SinceUpgrade(log + more) == SinceUpgrade(log) + more
  {
    hide SinceUpgrade;
    if more == [] {
      assert log + more == log && SinceUpgrade(log) + more == SinceUpgrade(log);
    } else {
      assert more == [more[0]];
      SinceSnoc(log, more[0]);
    }
  }

  lemma StepReads(cfg: Config, s: Sess, o: Oracle, source: Stream)
    requires Shape(s) && !Upgrades(s, o)
    requires TakenFrom(TakenIn(SinceUpgrade(s.log)), s.input, source)
    ensures var t := Step(cfg, s, o); TakenFrom(TakenIn(SinceUpgrade(t.log)), t.input, source)
  {
    hide Step, Shape, TakenFrom, TakenIn, Upgrades, SinceUpgrade;
    var t := Step(cfg, s, o);
    StepTakes(cfg, s, o);
    var a, b := SinceUpgrade(s.log), t.log[|s.log|..];
    assert t.log == s.log + b;
    SinceMore(s.log, b);
    TakenAppend(a, b);
    TakeBoth(TakenIn(a), TakenIn(b), source, s.input, t.input);
  }

  /** Whole runs, upgrades included: the lines recorded since the last upgrade followed by the
      complete lines still unread are exactly the complete lines of the stream that the session
      was then put on, or of its first input. */
  lemma {:induction false} RunReadsSource(cfg: Config, input: Stream, w: nat -> Oracle, n: nat)
    ensures var s := Run(cfg, input, w, n);
            TakenFrom(TakenIn(SinceUpgrade(s.log)), s.input, Source(cfg, input, w, n))
  {
    hide Run, Source, Step, Start, Shape, TakenFrom, TakenIn, Upgrades, SinceUpgrade;
    var t := Run(cfg, input, w, n);
    TakenNone();
    NothingTaken(t.input);
    if n == 0 {
      StartsUnread(cfg, input, w);
    } else {
      SourceStep(cfg, input, w, n);
      var s, o := Run(cfg, input, w, n - 1), w(n);
      RunStep(cfg, input, w, n);
      if Upgrades(s, o) {
        UpgradeStarts(cfg, s, o);
      } else {
        RunReadsSource(cfg, input, w, n - 1);
        ReachableStates(cfg, input, w, n - 1);
        StepReads(cfg, s, o, Source(cfg, input, w, n - 1));
      }
    }
  }

  /** At every moment of a run the log so far is part of the log now, and its lines since the last
      upgrade and those still unread are the lines of the stream then in force. */
  ghost predicate FromInput(cfg: Config, input: Stream, w: nat -> Oracle, n: nat) {
    forall m: nat :: m <= n ==>
      var s := Run(cfg, input, w, m);
      && s.log <= Run(cfg, input, w, n).log
      && TakenFrom(TakenIn(SinceUpgrade(s.log)), s.input, Source(cfg, input, w, m))
  }

  lemma RunFromInput(cfg: Config, input: Stream, w: nat -> Oracle, n: nat)
    ensures FromInput(cfg, input, w, n)
  {
    hide Run, Source, TakenFrom, TakenIn, SinceUpgrade;
    forall m: nat | m <= n
      ensures var s := Run(cfg, input, w, m);
              && s.log <= Run(cfg, input, w, n).log
              && TakenFrom(TakenIn(SinceUpgrade(s.log)), s.input, Source(cfg, input, w, m))
    {
      LogGrows(cfg, input, w, m, n);
      RunReadsSource(cfg, input, w, m);
    }
  }

  lemma StartsUnread(cfg: Config, input: Stream, w: nat -> Oracle)
    ensures var s := Run(cfg, input, w, 0);
            s.input == input == Source(cfg, input, w, 0) && SinceUpgrade(s.log) == []
  {
    hide Say, Bytes, Passed, Apply;
  }

  lemma SourceStep(cfg: Config, input: Stream, w: nat -> Oracle, n: nat)
    requires n != 0
    ensures Source(cfg, input, w, n) ==
            if Upgrades(Run(cfg, input, w, n - 1), w(n)) then w(n).upgrade.value
            else Source(cfg, input, w, n - 1)
  {
    hide Run, Upgrades;
  }

  lemma UpgradeStarts(cfg: Config, s: Sess, o: Oracle)
    requires Upgrades(s, o)
    ensures var t := Step(cfg, s, o); t.input == o.upgrade.value && SinceUpgrade(t.log) == []
  {
    hide Apply, ProcessOneCommand;
  }
}
