/** Which identifiers the stored envelopes have: with fresh ones no envelope hides another. */
module SessionIdentifiers {
  import opened Text
  import opened Conn
  import opened Protocol
  import opened StateMachine
  import opened Parser
  import opened DataCodec
  import opened Phrases
  import opened Reply
  import opened Envelopes
  import opened Storage
  import opened Session

  /** No identifier is given out twice. */
  ghost predicate FreshIds(w: nat -> Oracle) {
    forall i: nat, j: nat :: i < j ==> w(i).id != w(j).id
  }

  /** One iteration stores nothing, and a builder is the old one or has the new identifier; or it
      stores the envelope of the builder and lets the builder go. */
  ghost predicate IdStep(s: Sess, t: Sess, id: string) {
    || (t.stored == s.stored
        && (t.envelope.Some? ==>
              t.envelope.value.id == id || (s.envelope.Some? && t.envelope.value.id == s.envelope.value.id)))
    || (s.envelope.Some? && t.envelope.None?
        && exists e: Envelope :: t.stored == s.stored + [e] && e.id == s.envelope.value.id)
  }

  lemma MailIds(cfg: Config, s: Sess, cmd: Command, o: Oracle)
    ensures IdStep(s, HandleMAIL(cfg, s, cmd, o).s, o.id)
  {
    hide Say, Apply, ParseMailPath, DeclaredTooLarge;
  }

  lemma DataIds(cfg: Config, s: Sess, o: Oracle)
    ensures IdStep(s, HandleDATA(cfg, s, o).s, o.id)
  {
    hide Say, Apply, StreamData, Bytes, Passed, Concat;
  }

  lemma HandleIds(cfg: Config, s: Sess, cmd: Command, o: Oracle)
    ensures IdStep(s, Handle(cfg, s, cmd, o).s, o.id)
  {
    hide Say, Apply, ParseMailPath, ParseHeloHostname, DeclaredTooLarge, EhloLines, HandleDATA, HandleMAIL;
    if cmd.verb == DATA {
      DataIds(cfg, s, o);
    } else if cmd.verb == MAIL {
      MailIds(cfg, s, cmd, o);
    }
  }

  lemma IdsByView(s: Sess, s': Sess, t: Sess, t': Sess, id: string)
    requires IdStep(s', t, id)
    requires s'.envelope == s.envelope && s'.stored == s.stored
    requires t'.envelope == t.envelope && t'.stored == t.stored
    ensures IdStep(s, t', id)
  {
  }

  lemma DispatchIds(cfg: Config, s: Sess, line: string, parsed: Result<Command>, o: Oracle)
    ensures IdStep(s, Dispatch(cfg, s, line, parsed, o).s, o.id)
  {
    hide Say, Apply, Handle, Bytes, Passed;
    if parsed.Ok? {
      HandleIds(cfg, s, parsed.value, o);
      IdsByView(s, s, Handle(cfg, s, parsed.value, o).s, OnHandled(cfg, s, line, parsed.value, o).s, o.id);
    }
  }

  lemma StepIds(cfg: Config, s: Sess, o: Oracle)
    ensures IdStep(s, Step(cfg, s, o), o.id)
  {
    hide Say, Apply, Dispatch, ParseCommand, NextLine;
    match NextLine(s.input)
    case Failed(_, _) =>
    case Line(line, rest) =>
      var s' := TakeLine(s, line, rest);
      var parsed := ParseCommand(MaxCommandLength(cfg), line);
      DispatchIds(cfg, s', line, parsed, o);
      IdsByView(s, s', Dispatch(cfg, s', line, parsed, o).s, Conclude(ProcessOneCommand(cfg, s, o)), o.id);
  }

  /** An identifier of the first n iterations, or of the greeting. */
  ghost predicate Issued(w: nat -> Oracle, n: nat, id: string) {
    exists m: nat :: m <= n && w(m).id == id
  }

  /** All identifiers in use were issued, and no two of them are equal. */
  ghost predicate IdsApart(w: nat -> Oracle, n: nat, s: Sess) {
    && DistinctIds(s.stored)
    && (forall i :: 0 <= i < |s.stored| ==> Issued(w, n, s.stored[i].id))
    && (s.envelope.Some? ==>
          && Issued(w, n, s.envelope.value.id)
          && forall i :: 0 <= i < |s.stored| ==> s.stored[i].id != s.envelope.value.id)
  }

  lemma IssuedBefore(w: nat -> Oracle, n: nat)
    requires FreshIds(w)
    ensures !Issued(w, n, w(n + 1).id) && Issued(w, n + 1, w(n + 1).id)
    ensures forall id :: Issued(w, n, id) ==> Issued(w, n + 1, id)
  {
  }

  lemma IdsStayApart(w: nat -> Oracle, n: nat, s: Sess, t: Sess)
    requires FreshIds(w) && IdsApart(w, n, s) && IdStep(s, t, w(n + 1).id)
    ensures IdsApart(w, n + 1, t)
  {
    hide Issued, FreshIds;
    IssuedBefore(w, n);
  }

  /** In every run with fresh identifiers the stored envelopes have distinct ones. */
  lemma {:induction false} StoredIdsDistinct(cfg: Config, input: Stream, w: nat -> Oracle, n: nat)
    requires FreshIds(w)
    ensures IdsApart(w, n, Run(cfg, input, w, n))
  {
    hide Step, FreshIds, Say, Bytes, Passed, Apply;
    if n != 0 {
      hide IdsApart, IdStep, Start;
      StoredIdsDistinct(cfg, input, w, n - 1);
      var s := Run(cfg, input, w, n - 1);
      StepIds(cfg, s, w(n));
      IdsStayApart(w, n - 1, s, Step(cfg, s, w(n)));
    }
  }
}
