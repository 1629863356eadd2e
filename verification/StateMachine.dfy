/** The protocol state machine and what its observer is told. */
module StateMachine {
  import opened Protocol

  /** One notification of the observer. */
  datatype Note = Note(from: State, to: State)

  datatype Machine = Machine(state: State, notes: seq<Note>)

  const INITIAL := Machine(Disconnected, [])

  predicate CanTransition(m: Machine, to: State) {
    IsValidTransition(m.state, to)
  }

  function Transition(m: Machine, to: State): Machine {
    if CanTransition(m, to) then Machine(to, m.notes + [Note(m.state, to)]) else m
  }

  function TransitionForCommand(m: Machine, v: Verb, success: bool): Machine {
    if !success || NextState(m.state, v) == m.state then m
    else Transition(m, NextState(m.state, v))
  }

  /** From Data the attempt is refused and the refusal is dropped. */
  function Reset(m: Machine): Machine {
    if m.state.InTransaction() || m.state == DataDone then Transition(m, Identified) else m
  }

  function Guarded(m: Machine, from: State, to: State): Machine {
    if m.state == from then Transition(m, to) else m
  }

  datatype Call =
    | CallTransition(to: State)
    | CallForCommand(verb: Verb, success: bool)
    | CallReset
    | CallConnect
    | CallGreet
    | CallDataComplete
    | CallTLSComplete
    | CallTerminate
    | CallAbort

  function Apply(m: Machine, c: Call): Machine {
    match c
    case CallTransition(to) => Transition(m, to)
    case CallForCommand(v, success) => TransitionForCommand(m, v, success)
    case CallReset => Reset(m)
    case CallConnect => Guarded(m, Disconnected, Connected)
    case CallGreet => Guarded(m, Connected, Greeted)
    case CallDataComplete => Guarded(m, Data, DataDone)
    case CallTLSComplete => Guarded(m, StartTLS, Greeted)
    case CallTerminate => Transition(m, Terminated)
    case CallAbort => Transition(m, Aborted)
  }

  function ApplyAll(m: Machine, calls: seq<Call>): Machine {
    if calls == [] then m else Apply(ApplyAll(m, calls[..|calls| - 1]), calls[|calls| - 1])
  }

  /** Where each call leads. From Data a reset leads nowhere. */
  lemma CallMoves(m: Machine)
    ensures forall v :: IsCommandAllowed(m.state, v) ==>
              Apply(m, CallForCommand(v, true)).state == NextState(m.state, v)
    ensures Apply(m, CallReset).state ==
            if m.state == MailFrom || m.state == RcptTo || m.state == DataDone then Identified else m.state
    ensures Apply(m, CallDataComplete).state == if m.state == Data then DataDone else m.state
    ensures Apply(m, CallTLSComplete).state == if m.state == StartTLS then Greeted else m.state
    ensures Apply(m, CallTerminate).state ==
            if m.state == Terminating || m.state == Connected then Terminated else m.state
    ensures Apply(m, CallAbort).state ==
            if m.state == Disconnected || m.state == Terminating || m.state.IsTerminal() then m.state else Aborted
  {
  }

  /** The notifications are a path of legal edges from Disconnected to the present state. */
  ghost predicate Chain(m: Machine) {
    && (forall i :: 0 <= i < |m.notes| ==> IsValidTransition(m.notes[i].from, m.notes[i].to))
    && (forall i :: 0 < i < |m.notes| ==> m.notes[i].from == m.notes[i - 1].to)
    && (m.notes != [] ==> m.notes[0].from == Disconnected)
    && m.state == if m.notes == [] then Disconnected else m.notes[|m.notes| - 1].to
  }

  lemma TransitionKeepsChain(m: Machine, to: State)
    requires Chain(m)
    ensures Chain(Transition(m, to))
  {
  }

  lemma ApplyKeepsChain(m: Machine, c: Call)
    requires Chain(m)
    ensures Chain(Apply(m, c))
  {
    hide Transition, Chain;
    forall to {
      TransitionKeepsChain(m, to);
    }
  }

  /** For every sequence of calls the observer sees a chain. */
  lemma {:induction false} NotesFormChain(calls: seq<Call>)
    ensures Chain(ApplyAll(INITIAL, calls))
  {
    if calls != [] {
      hide Apply, Chain;
      NotesFormChain(calls[..|calls| - 1]);
      ApplyKeepsChain(ApplyAll(INITIAL, calls[..|calls| - 1]), calls[|calls| - 1]);
    }
  }

  /** Every entry to Data is preceded by one entry to MailFrom from Identified and then only by
      entries to RcptTo, at least one. */
  lemma DataEntry(m: Machine, i: nat) returns (j: nat)
    requires Chain(m) && i < |m.notes| && m.notes[i].to == Data
    ensures j + 1 < i && m.notes[j] == Note(Identified, MailFrom)
    ensures forall k :: j < k < i ==> m.notes[k].to == RcptTo
  {
    j := i - 1;
    while m.notes[j].to == RcptTo
      invariant 0 <= j < i
      invariant m.notes[j].to == RcptTo || (m.notes[j].to == MailFrom && j + 1 < i)
      invariant forall k :: j < k < i ==> m.notes[k].to == RcptTo
      decreases j
    {
      j := j - 1;
    }
    if j != 0 {
      assert m.notes[j].from == m.notes[j - 1].to;
    }
  }

  lemma NoStepFromTerminal(m: Machine, k: nat)
    requires Chain(m) && 0 < k < |m.notes|
    ensures !m.notes[k - 1].to.IsTerminal()
  {
    assert IsValidTransition(m.notes[k].from, m.notes[k].to);
  }

  /** Whatever is called on the machine, in whatever order: the observer sees a chain, nothing
      follows a terminal state, and Data is entered only by MAIL, RCPT... from Identified. */
  lemma MachineTraces(calls: seq<Call>, i: nat)
    requires i < |ApplyAll(INITIAL, calls).notes|
    ensures var m := ApplyAll(INITIAL, calls);
            && Chain(m)
            && (m.notes[i].to.IsTerminal() ==> i == |m.notes| - 1)
            && (m.notes[i].to == Data ==>
                  exists j: nat :: j + 1 < i && m.notes[j] == Note(Identified, MailFrom)
                                   && forall k :: j < k < i ==> m.notes[k].to == RcptTo)
  {
    hide ApplyAll;
    NotesFormChain(calls);
    var m := ApplyAll(INITIAL, calls);
    if i + 1 < |m.notes| {
      NoStepFromTerminal(m, i + 1);
    }
    if m.notes[i].to == Data {
      var _ := DataEntry(m, i);
    }
  }

  class StateMachine {
    var state: State
    ghost var notes: seq<Note>

    ghost function Value(): Machine
      reads this
    {
      Machine(state, notes)
    }

    constructor ()
      ensures Value() == INITIAL
    {
      state, notes := Disconnected, [];
    }

    method Transition(to: State) returns (ok: bool)
      modifies this
      ensures Value() == Apply(old(Value()), CallTransition(to))
      ensures ok <==> CanTransition(old(Value()), to)
    {
      ok := IsValidTransition(state, to);
      if ok {
        notes := notes + [Note(state, to)];
        state := to;
      }
    }

    method TransitionForCommand(v: Verb, success: bool) returns (ok: bool)
      modifies this
      ensures Value() == Apply(old(Value()), CallForCommand(v, success))
      ensures IsCommandAllowed(old(state), v) ==> ok
    {
      ok := true;
      if success {
        var next := NextState(state, v);
        if next != state {
          ok := Transition(next);
        }
      }
    }

    method Reset()
      modifies this
      ensures Value() == Apply(old(Value()), CallReset)
    {
      if state.InTransaction() || state == DataDone {
        var _ := Transition(Identified);
      }
    }

    method Connect() returns (ok: bool)
      modifies this
      ensures Value() == Apply(old(Value()), CallConnect)
      ensures ok <==> old(state) == Disconnected
    {
      ok := state == Disconnected;
      if ok {
        ok := Transition(Connected);
      }
    }

    method Greet() returns (ok: bool)
      modifies this
      ensures Value() == Apply(old(Value()), CallGreet)
      ensures ok <==> old(state) == Connected
    {
      ok := state == Connected;
      if ok {
        ok := Transition(Greeted);
      }
    }

    method DataComplete() returns (ok: bool)
      modifies this
      ensures Value() == Apply(old(Value()), CallDataComplete)
      ensures ok <==> old(state) == Data
    {
      ok := state == Data;
      if ok {
        ok := Transition(DataDone);
      }
    }

    method TLSComplete() returns (ok: bool)
      modifies this
      ensures Value() == Apply(old(Value()), CallTLSComplete)
      ensures ok <==> old(state) == StartTLS
    {
      ok := state == StartTLS;
      if ok {
        ok := Transition(Greeted);
      }
    }

    method Terminate() returns (ok: bool)
      modifies this
      ensures Value() == Apply(old(Value()), CallTerminate)
    {
      ok := Transition(Terminated);
    }

    method Abort() returns (ok: bool)
      modifies this
      ensures Value() == Apply(old(Value()), CallAbort)
    {
      ok := Transition(Aborted);
    }
  }
}
