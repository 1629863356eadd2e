/** When a session ends: always, unless the connection fails for good with an error that is
    neither like end of file nor a timeout; then the loop spins forever. */
module SessionTermination {
  import opened Text
  import opened Conn
  import opened Protocol
  import opened StateMachine
  import opened Parser
  import opened DataCodec
  import opened Phrases
  import opened Reply
  import opened Envelopes
  import opened Session
  import opened SessionStates
  import opened SessionRecord
  import opened SessionFailure

  /** Nothing left to read but an error that the loop does not count as the end. */
  predicate Spins(s: Sess) {
    && s.exit.None? && !s.sm.state.IsTerminal() && s.state != StartTLS
    && s.input == Last("", OtherError)
  }

  lemma SpinStep(cfg: Config, s: Sess, o: Oracle)
    requires Spins(s)
    ensures Step(cfg, s, o) == s
  {
    hide Dispatch, ParseCommand;
    NextLineFacts(s.input);
  }

  lemma {:induction false} SpinsForever(cfg: Config, s: Sess, w: nat -> Oracle, n: nat, k: nat)
    requires Spins(s)
    ensures RunFrom(cfg, s, w, n, k) == s
  {
    hide Step;
    if k != 0 {
      SpinsForever(cfg, s, w, n, k - 1);
      SpinStep(cfg, s, w(n + k));
    }
  }

  lemma DispatchShrinks(cfg: Config, s: Sess, line: string, parsed: Result<Command>, o: Oracle)
    ensures var t := Dispatch(cfg, s, line, parsed, o).s;
            t.tls == s.tls && t.input.Size() <= s.input.Size() && t.input.FinalError() == s.input.FinalError()
  {
    hide Say, Apply, Handle, Bytes, Passed, StreamData;
    if parsed.Ok? {
      HandleInput(cfg, s, parsed.value, o);
      PhaseShrinks(cfg.limits.maxLineLength, cfg.limits.maxMessageSize, 0, s.input);
    }
  }

  /** An iteration ends the session, or upgrades it, or consumes input. */
  predicate Progresses(s: Sess, t: Sess) {
    t.exit.Some? || (!s.tls && t.tls) || (t.tls == s.tls && t.input.Size() < s.input.Size())
  }

  lemma StepProgresses(cfg: Config, s: Sess, o: Oracle)
    requires Shape(s) && s.exit.None? && !Spins(s)
    ensures Progresses(s, Step(cfg, s, o))
  {
    hide Dispatch, ParseCommand, NextLine, Apply;
    if !s.sm.state.IsTerminal() && s.state != StartTLS {
      NextLineFacts(s.input);
      match NextLine(s.input)
      case Failed(err, rest) =>
      case Line(line, rest) =>
        DispatchShrinks(cfg, TakeLine(s, line, rest), line, ParseCommand(MaxCommandLength(cfg), line), o);
    }
  }

  lemma {:induction false} RunFromShift(cfg: Config, s: Sess, w: nat -> Oracle, n: nat, k: nat)
    ensures RunFrom(cfg, s, w, n, k + 1) == RunFrom(cfg, Step(cfg, s, w(n + 1)), w, n + 1, k)
  {
    hide Step;
    if k == 0 {
      assert RunFrom(cfg, s, w, n, 0) == s;
    } else {
      RunFromShift(cfg, s, w, n, k - 1);
    }
  }

  /** The lexicographic measure: an upgrade still possible, then the input. */
  lemma {:induction false} EndsOrSpinsFrom(cfg: Config, s: Sess, w: nat -> Oracle, n: nat) returns (k: nat)
    requires Shape(s)
    ensures var t := RunFrom(cfg, s, w, n, k); t.exit.Some? || Spins(t)
    decreases !s.tls, s.input.Size()
  {
    hide Step, Shape, Spins;
    if s.exit.Some? || Spins(s) {
      k := 0;
    } else {
      var t := Step(cfg, s, w(n + 1));
      StepProgresses(cfg, s, w(n + 1));
      StepKeepsShape(cfg, s, w(n + 1));
      if t.exit.Some? {
        k := 1;
        assert RunFrom(cfg, s, w, n, 0) == s;
      } else {
        var j := EndsOrSpinsFrom(cfg, t, w, n + 1);
        k := j + 1;
        RunFromShift(cfg, s, w, n, j);
      }
    }
  }

  /** A session runs forever if and only if it comes to spin. No assumption is made on hooks,
      policies, storage or writes. */
  lemma NeverEndsIff(cfg: Config, input: Stream, w: nat -> Oracle)
    ensures (forall n: nat :: Run(cfg, input, w, n).exit.None?) <==> (exists n: nat :: Spins(Run(cfg, input, w, n)))
  {
    hide Run, RunFrom, Step, Shape;
    ReachableStates(cfg, input, w, 0);
    var k := EndsOrSpinsFrom(cfg, Run(cfg, input, w, 0), w, 0);
    RunSplits(cfg, input, w, 0, k);
    var t := Run(cfg, input, w, k);
    if n: nat :| Spins(Run(cfg, input, w, n)) {
      forall m: nat
        ensures Run(cfg, input, w, m).exit.None?
      {
        if n <= m {
          RunSplits(cfg, input, w, n, m - n);
          SpinsForever(cfg, Run(cfg, input, w, n), w, n, m - n);
        } else {
          ExitStays(cfg, input, w, m, n - m);
        }
      }
    }
  }

  lemma {:induction false} ExitStays(cfg: Config, input: Stream, w: nat -> Oracle, n: nat, k: nat)
    ensures Run(cfg, input, w, n).exit.Some? ==> Run(cfg, input, w, n + k).exit.Some?
  {
    hide Run, Step;
    if k != 0 {
      ExitStays(cfg, input, w, n, k - 1);
      RunStep(cfg, input, w, n + k);
      StepExit(cfg, Run(cfg, input, w, n + k - 1), w(n + k));
    }
  }

  lemma StepExit(cfg: Config, s: Sess, o: Oracle)
    ensures s.exit.Some? ==> Step(cfg, s, o).exit.Some?
  {
    hide ProcessOneCommand, PerformUpgrade;
  }

  /** Every stream the session may read from fails in the end in a way that ends it. */
  ghost predicate Closes(input: Stream, w: nat -> Oracle) {
    && input.FinalError() != OtherError
    && forall k: nat :: w(k).upgrade.Some? ==> w(k).upgrade.value.FinalError() != OtherError
  }

  lemma StepFinalError(cfg: Config, s: Sess, o: Oracle)
    requires s.input.FinalError() != OtherError
    requires o.upgrade.Some? ==> o.upgrade.value.FinalError() != OtherError
    ensures Step(cfg, s, o).input.FinalError() != OtherError
  {
    hide Dispatch, ParseCommand, NextLine, Apply;
    NextLineFacts(s.input);
    match NextLine(s.input)
    case Failed(_, _) =>
    case Line(line, rest) =>
      DispatchShrinks(cfg, TakeLine(s, line, rest), line, ParseCommand(MaxCommandLength(cfg), line), o);
  }

  lemma {:induction false} RunFinalError(cfg: Config, input: Stream, w: nat -> Oracle, n: nat)
    requires Closes(input, w)
    ensures Run(cfg, input, w, n).input.FinalError() != OtherError
  {
    hide Step, Bytes, Passed, Say, Apply;
    if n != 0 {
      hide Start;
      RunFinalError(cfg, input, w, n - 1);
      StepFinalError(cfg, Run(cfg, input, w, n - 1), w(n));
    }
  }

  /** On streams that end in end of file or a timeout every session ends, even when the end falls
      inside DATA and whatever becomes of its writes. */
  lemma RunEnds(cfg: Config, input: Stream, w: nat -> Oracle) returns (k: nat)
    requires Closes(input, w)
    ensures forall m: nat :: k <= m ==> Run(cfg, input, w, m).exit.Some?
  {
    hide Run, RunFrom, Step, Shape;
    ReachableStates(cfg, input, w, 0);
    k := EndsOrSpinsFrom(cfg, Run(cfg, input, w, 0), w, 0);
    RunSplits(cfg, input, w, 0, k);
    RunFinalError(cfg, input, w, k);
    forall m: nat | k <= m
      ensures Run(cfg, input, w, m).exit.Some?
    {
      ExitStays(cfg, input, w, k, m - k);
    }
  }

  /** A connection on which, after the greeting, every read reports one and the same error of
      another kind: the session spins. */
  lemma PermanentErrorSpins(cfg: Config, w: nat -> Oracle)
    requires w(0).final.None?
    ensures Spins(Run(cfg, Last("", OtherError), w, 0))
  {
    hide Say, Bytes, Passed;
  }
}
