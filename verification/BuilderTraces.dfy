/** What an envelope builder holds after any sequence of calls, and when it can be finalized. */
module BuilderTraces {
  import opened Text
  import opened Parser
  import opened Envelopes

  datatype Call =
    | SetSender(from: MailPath, params: Params)
    | AddRecipient(to: MailPath)
    | OpenWriter
    | WriteText(text: string)
    | CloseWriter
    | FinalizeCall

  function Kept(d: Draft, r: Result<Draft>): Draft {
    if r.Ok? then r.value else d
  }

  /** The builder after a call, which it may have refused; only an open writer can be closed. */
  function Apply(d: Draft, c: Call): Draft {
    match c
    case SetSender(from, params) => Kept(d, d.SetMailFrom(from, params))
    case AddRecipient(to) => Kept(d, d.AddRecipient(to))
    case OpenWriter => Kept(d, d.OpenWriter())
    case WriteText(text) => Kept(d, d.Write(text))
    case CloseWriter => if d.writer == NoWriter then d else d.CloseWriter()
    case FinalizeCall => if d.Finalize().Ok? then d.(finalized := true) else d
  }

  function ApplyAll(d: Draft, calls: seq<Call>): Draft {
    if calls == [] then d else Apply(ApplyAll(d, calls[..|calls| - 1]), calls[|calls| - 1])
  }

  // ----- What was called -----

  /** The arguments of the latest call that set the sender. */
  function Sender(calls: seq<Call>): Option<(MailPath, Params)> {
    if calls == [] then None
    else
      var c := calls[|calls| - 1];
      if c.SetSender? then Some((c.from, c.params)) else Sender(calls[..|calls| - 1])
  }

  /** All recipients given, in order. */
  function Recipients(calls: seq<Call>): seq<MailPath> {
    if calls == [] then []
    else
      var c := calls[|calls| - 1];
      Recipients(calls[..|calls| - 1]) + (if c.AddRecipient? then [c.to] else [])
  }

  /** The writer has been opened at some time. */
  predicate WasOpened(calls: seq<Call>) { OpenWriter in calls }

  /** The writer has been opened and not closed since. */
  predicate IsOpenNow(calls: seq<Call>) {
    calls != [] &&
    var c, before := calls[|calls| - 1], calls[..|calls| - 1];
    if c.OpenWriter? then !WasOpened(before) || IsOpenNow(before)
    else !c.CloseWriter? && IsOpenNow(before)
  }

  /** Everything written while the writer was open. */
  function Written(calls: seq<Call>): string {
    if calls == [] then ""
    else
      var c, before := calls[|calls| - 1], calls[..|calls| - 1];
      Written(before) + (if c.WriteText? && IsOpenNow(before) then c.text else "")
  }

  /** The builder holds what these calls have given it. */
  predicate Holds(d: Draft, calls: seq<Call>) {
    && (match Sender(calls)
        case None => d.mailFrom.None?
        case Some((from, params)) => d.mailFrom == Some(from) && d.params == params)
    && d.recipients == Recipients(calls) && d.data == Written(calls)
    && (d.writer == NoWriter <==> !WasOpened(calls)) && (d.writer == Writing <==> IsOpenNow(calls))
  }

  lemma Snoc(calls: seq<Call>, c: Call)
    ensures (calls + [c])[..|calls|] == calls && (calls + [c])[|calls|] == c
    ensures WasOpened(calls + [c]) <==> WasOpened(calls) || c.OpenWriter?
  {
  }

  lemma CallHolds(d: Draft, calls: seq<Call>, c: Call)
    requires Holds(d, calls) && !d.finalized
    ensures Holds(Apply(d, c), calls + [c])
  {
    hide WasOpened;
    Snoc(calls, c);
  }

  /** After any calls: as long as none has finalized it the builder holds exactly what it was given;
      from then on it holds what it was given until then, and nothing changes it. */
  lemma {:induction false} BuilderHolds(id: string, m: Metadata, calls: seq<Call>) returns (k: nat)
    ensures k <= |calls|
    ensures var d := ApplyAll(NewDraft(id, m), calls);
            && Holds(d, calls[..k]) && d.id == id && d.metadata == m
            && (if d.finalized then
                  && k < |calls| && calls[k].FinalizeCall? && d.writer != Writing
                  && d == ApplyAll(NewDraft(id, m), calls[..k]).(finalized := true)
                else k == |calls|)
  {
    hide Holds, Apply;
    if calls == [] {
      k := 0;
      NewHolds(id, m);
      assert calls[..0] == [];
    } else {
      var n := |calls| - 1;
      var before, c := calls[..n], calls[n];
      var d := ApplyAll(NewDraft(id, m), before);
      k := BuilderHolds(id, m, before);
      assert before[..k] == calls[..k];
      if d.finalized {
        Frozen(d, c);
      } else {
        assert before[..n] == before;
        CallHolds(d, before, c);
        Finalizes(d, c);
        assert before + [c] == calls && calls[..|calls|] == calls;
        IdentityKept(d, c);
        if Apply(d, c).finalized {
          SameHolds(d, Apply(d, c), before);
        } else {
          k := |calls|;
        }
      }
    }
  }

  lemma NewHolds(id: string, m: Metadata)
    ensures Holds(NewDraft(id, m), [])
  {
  }

  lemma IdentityKept(d: Draft, c: Call)
    ensures Apply(d, c).id == d.id && Apply(d, c).metadata == d.metadata
  {
  }

  lemma SameHolds(d: Draft, e: Draft, calls: seq<Call>)
    requires Holds(d, calls) && e == d.(finalized := e.finalized)
    ensures Holds(e, calls)
  {
    hide Sender, Recipients, Written, WasOpened, IsOpenNow;
  }

  /** Only finalizing finalizes, and it does nothing else. */
  lemma Finalizes(d: Draft, c: Call)
    requires !d.finalized
    ensures Apply(d, c).finalized ==>
              c.FinalizeCall? && Apply(d, c) == d.(finalized := true) && d.writer != Writing
  {
  }

  /** No call changes a finalized builder. */
  lemma Frozen(d: Draft, c: Call)
    requires d.finalized && d.writer != Writing
    ensures Apply(d, c) == d
  {
  }

  /** A builder can be finalized exactly once it has a sender and a recipient, its writer is not open,
      and it has not been finalized; the envelope is then what the calls have given it. */
  lemma FinalizeIff(id: string, m: Metadata, calls: seq<Call>)
    ensures var d := ApplyAll(NewDraft(id, m), calls);
            var r := d.Finalize();
            && (r.Ok? <==> !d.finalized && Sender(calls).Some? && Recipients(calls) != [] && !IsOpenNow(calls))
            && (r.Ok? ==>
                  var (from, params) := Sender(calls).value;
                  r.value == Envelope(id, Content(from, params, Recipients(calls), Written(calls), m)))
  {
    hide Sender, Recipients, Written, WasOpened, IsOpenNow, ApplyAll;
    var k := BuilderHolds(id, m, calls);
    assert calls[..|calls|] == calls;
  }
}
