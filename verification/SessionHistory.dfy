/** What every run keeps, read off its log: the refinement theorem and its companions. */
module SessionHistory {
  import opened Text
  import opened Conn
  import opened Protocol
  import opened StateMachine
  import opened Parser
  import opened DataCodec
  import opened Phrases
  import opened Reply
  import opened Envelopes
  import opened Session
  import opened SessionStates
  import opened SessionLog
  import opened SessionEffects

  // ----- The log determines the session -----

  lemma LogSnoc(log: seq<Event>, e: Event)
    ensures (log + [e])[..|log|] == log && (log + [e])[|log|] == e
  {
  }

  /** Client name, TLS, error count, octets read and commands taken are functions of the log. */
  predicate Recorded(s: Sess) {
    && s.host == HostOf(s.log)
    && s.tls == HasUpgrade(s.log)
    && s.errors == ErrorsIn(s.log)
    && s.stats.bytesRead == BytesIn(s.log)
    && s.stats.commands == CommandsIn(s.log)
  }

  lemma AdvanceRecorded(cfg: Config, s: Sess, t: Sess)
    requires Recorded(s) && Advances(cfg, s, t)
    ensures Recorded(t)
  {
    hide Say, ParseMailPath, ParseHeloHostname, ParseCommand, DeclaredTooLarge, MetadataOf;
    hide EndsAtTerminator, Unstuffed, SizeFits, AllBytes, InStep;
    var e := t.log[|t.log| - 1];
    LogSnoc(s.log, e);
    HostAfter(cfg, s, t, e);
    UpgradeSnoc(s.log, e);
  }

  lemma UpgradeSnoc(log: seq<Event>, e: Event)
    ensures HasUpgrade(log + [e]) <==> HasUpgrade(log) || e.Upgraded?
  {
    if HasUpgrade(log) {
      var k :| 0 <= k < |log| && log[k].Upgraded?;
      assert (log + [e])[k].Upgraded?;
    }
    assert (log + [e])[|log|] == e;
  }

  lemma HostAfter(cfg: Config, s: Sess, t: Sess, e: Event)
    requires Effect(cfg, s, t, e)
    ensures t.host == if e.Upgraded? then "" else if Identifies(e) then HostIn(e) else s.host
  {
    hide Say, ParseMailPath, ParseHeloHostname, ParseCommand, DeclaredTooLarge, MetadataOf;
    hide EndsAtTerminator, Unstuffed, SizeFits, AllBytes, InStep;
  }

  // ----- The open transaction -----

  /** The builder holds the sender of the latest accepted MAIL and precisely the recipients
      accepted since, and nothing since that MAIL has ended the transaction. */
  predicate OpenTransaction(cfg: Config, s: Sess, d: Draft) {
    var i := LastMail(s.log);
    && 0 <= i
    && d.mailFrom == Some(PathIn(s.log[i], "FROM"))
    && d.params == s.log[i].how.cmd.params
    && d.recipients == AcceptedRecipients(s.log[i + 1..])
    && d.metadata == Metadata(HostOf(s.log[..i]), cfg.serverHostname, HasUpgrade(s.log[..i]))
    && forall k :: i < k < |s.log| ==> !EndsTransaction(s.log[k])
  }

  predicate InTransaction(s: Sess) {
    InStep(s) && (s.state == MailFrom || s.state == RcptTo)
  }

  predicate Tracked(cfg: Config, s: Sess) {
    InTransaction(s) ==> OpenTransaction(cfg, s, s.envelope.value)
  }

  lemma MailOpens(cfg: Config, s: Sess, t: Sess, e: Event)
    requires Recorded(s) && Effect(cfg, s, t, e) && Accepts(e, MAIL)
    ensures t.envelope.Some? && OpenTransaction(cfg, t, t.envelope.value)
  {
    hide Say, ParseMailPath, ParseHeloHostname, ParseCommand, DeclaredTooLarge;
    hide EndsAtTerminator, Unstuffed, SizeFits, AllBytes, InStep, HostOf, HasUpgrade;
    LogSnoc(s.log, e);
    assert LastMail(t.log) == |s.log|;
    assert t.log[|s.log| + 1..] == [];
  }

  lemma RecipientsSnoc(log: seq<Event>, i: nat, e: Event)
    requires i < |log|
    ensures AcceptedRecipients((log + [e])[i + 1..]) ==
            AcceptedRecipients(log[i + 1..]) + (if Accepts(e, RCPT) then [PathIn(e, "TO")] else [])
  {
    hide PathIn, Accepts;
    var l := log[i + 1..] + [e];
    assert (log + [e])[i + 1..] == l;
    assert l[..|l| - 1] == log[i + 1..];
  }

  /** An event that neither opens nor ends a transaction adds at most a recipient. */
  lemma StaysOpen(cfg: Config, s: Sess, t: Sess, e: Event, d: Draft)
    requires OpenTransaction(cfg, s, d) && t.log == s.log + [e]
    requires !Accepts(e, MAIL) && !EndsTransaction(e)
    ensures OpenTransaction(cfg, t, d.(recipients := d.recipients
                                       + if Accepts(e, RCPT) then [PathIn(e, "TO")] else []))
  {
    hide PathIn, Accepts, EndsTransaction, HostOf, HasUpgrade, AcceptedRecipients;
    LogSnoc(s.log, e);
    var i := LastMail(s.log);
    assert LastMail(t.log) == i;
    assert t.log[..i] == s.log[..i];
    RecipientsSnoc(s.log, i, e);
    forall k | i < k < |t.log|
      ensures !EndsTransaction(t.log[k])
    {
      assert t.log[k] == if k < |s.log| then s.log[k] else e;
    }
  }

  /** While a transaction is open no event has ended it. */
  lemma OpenMeansNotEnded(cfg: Config, s: Sess, t: Sess, e: Event)
    requires Effect(cfg, s, t, e) && InTransaction(t) && !Accepts(e, MAIL)
    ensures InTransaction(s) && s.envelope.Some? && t.envelope.Some? && !EndsTransaction(e)
    ensures t.envelope.value == s.envelope.value.(recipients := s.envelope.value.recipients
                                                  + if Accepts(e, RCPT) then [PathIn(e, "TO")] else [])
  {
    hide Say, ParseMailPath, ParseHeloHostname, ParseCommand, MailEffect;
    hide EndsAtTerminator, Unstuffed, SizeFits, AllBytes;
  }

  lemma AdvanceTracked(cfg: Config, s: Sess, t: Sess)
    requires Recorded(s) && Tracked(cfg, s) && Advances(cfg, s, t)
    ensures Tracked(cfg, t)
  {
    hide Effect, OpenTransaction, PathIn, InStep;
    var e := t.log[|t.log| - 1];
    assert t.log == s.log + [e] by { EffectExtends(cfg, s, t, e); }
    if InTransaction(t) {
      if Accepts(e, MAIL) {
        MailOpens(cfg, s, t, e);
      } else {
        OpenMeansNotEnded(cfg, s, t, e);
        StaysOpen(cfg, s, t, e, s.envelope.value);
      }
    }
  }

  lemma EffectExtends(cfg: Config, s: Sess, t: Sess, e: Event)
    requires Effect(cfg, s, t, e)
    ensures t.log == s.log + [e]
  {
  }

  // ----- The ledger -----

  function Contents(es: seq<Envelope>): (r: seq<Content>)
    ensures |r| == |es|
    ensures forall i :: 0 <= i < |es| ==> r[i] == es[i].content
  {
    seq(|es|, i requires 0 <= i < |es| => es[i].content)
  }

  function TotalRecipients(cs: seq<Content>): nat {
    if cs == [] then 0 else TotalRecipients(cs[..|cs| - 1]) + |cs[|cs| - 1].recipients|
  }

  lemma ContentsSnoc(es: seq<Envelope>, e: Envelope)
    ensures Contents(es + [e]) == Contents(es) + [e.content]
  {
  }

  lemma TotalSnoc(cs: seq<Content>, c: Content)
    ensures TotalRecipients(cs + [c]) == TotalRecipients(cs) + |c.recipients|
  {
    assert (cs + [c])[..|cs|] == cs;
  }

  /** What is stored and counted is exactly what the client was told was accepted. */
  predicate Ledger(cfg: Config, s: Sess) {
    var d := Delivered(cfg, s.log);
    && Contents(s.stored) == (if cfg.storage then d else [])
    && s.stats.messages == |d| && s.stats.transactions == |d|
    && s.stats.recipients == TotalRecipients(d)
  }

  lemma DeliveredSnoc(cfg: Config, log: seq<Event>, e: Event)
    ensures Delivered(cfg, log + [e]) ==
            Delivered(cfg, log)
            + (if Accepts(e, DATA) && LastMail(log) >= 0 then [MessageAt(cfg, log, e)] else [])
  {
    hide Accepts, MessageAt;
    LogSnoc(log, e);
  }

  lemma AcceptedDelivers(cfg: Config, s: Sess, t: Sess, e: Event)
    requires Effect(cfg, s, t, e) && Accepts(e, DATA)
    ensures InTransaction(s) && s.state == RcptTo && e.Exchange? && DeliverEffect(cfg, s, t, e.body)
  {
    hide Say, ParseCommand, AllBytes, DeliverEffect, IdentifyEffect, MailEffect, RcptEffect;
  }

  /** The message delivered is the one that the log describes. */
  lemma DeliversMessageAt(cfg: Config, s: Sess, t: Sess, e: Event)
    requires Effect(cfg, s, t, e) && Accepts(e, DATA) && Tracked(cfg, s)
    ensures LastMail(s.log) >= 0 && s.envelope.Some?
    ensures var c := MessageAt(cfg, s.log, e);
            && t.stored == s.stored + (if cfg.storage then [Envelope(s.envelope.value.id, c)] else [])
            && t.stats.messages == s.stats.messages + 1 && t.stats.transactions == s.stats.transactions + 1
            && t.stats.recipients == s.stats.recipients + |c.recipients|
  {
    hide Effect, Accepts, IsTerminator, SizeFits, Unstuffed, PathIn, HostOf, HasUpgrade, AcceptedRecipients;
    hide LastMail, InStep;
    AcceptedDelivers(cfg, s, t, e);
  }

  lemma OthersDeliverNothing(cfg: Config, s: Sess, t: Sess, e: Event)
    requires Effect(cfg, s, t, e) && !Accepts(e, DATA)
    ensures SameMessages(s, t)
  {
    hide Say, ParseMailPath, ParseHeloHostname, ParseCommand, DeclaredTooLarge, MetadataOf;
    hide EndsAtTerminator, Unstuffed, SizeFits, AllBytes, InStep;
  }

  lemma AdvanceLedger(cfg: Config, s: Sess, t: Sess)
    requires Ledger(cfg, s) && Tracked(cfg, s) && Advances(cfg, s, t)
    ensures Ledger(cfg, t)
  {
    hide Effect, Tracked, Delivered, MessageAt, Accepts, Contents, TotalRecipients, LastMail;
    var e := t.log[|t.log| - 1];
    EffectExtends(cfg, s, t, e);
    DeliveredSnoc(cfg, s.log, e);
    var d := Delivered(cfg, s.log);
    if Accepts(e, DATA) {
      DeliversMessageAt(cfg, s, t, e);
      var c := MessageAt(cfg, s.log, e);
      ContentsSnoc(s.stored, Envelope(s.envelope.value.id, c));
      TotalSnoc(d, c);
      assert s.stored + [] == s.stored;
    } else {
      OthersDeliverNothing(cfg, s, t, e);
      assert d + [] == d;
    }
  }

  // ----- Whole runs -----

  ghost predicate HonestWorld(w: nat -> Oracle) {
    forall k: nat :: Honest(w(k))
  }

  ghost predicate Kept(cfg: Config, s: Sess) {
    Shape(s) && Recorded(s) && Tracked(cfg, s) && Ledger(cfg, s)
  }

  lemma StepKeeps(cfg: Config, s: Sess, o: Oracle)
    requires Kept(cfg, s) && Honest(o)
    ensures Kept(cfg, Step(cfg, s, o))
  {
    hide Step, Advances, Recorded, OpenTransaction, InStep, Ledger;
    var t := Step(cfg, s, o);
    StepKeepsShape(cfg, s, o);
    StepAdvances(cfg, s, o);
    if Advances(cfg, s, t) {
      AdvanceRecorded(cfg, s, t);
      AdvanceTracked(cfg, s, t);
      AdvanceLedger(cfg, s, t);
    } else {
      QuietKeeps(cfg, s, t);
    }
  }

  lemma QuietKeeps(cfg: Config, s: Sess, t: Sess)
    requires Quiet(s, t) && Recorded(s) && Tracked(cfg, s) && Ledger(cfg, s)
    ensures Recorded(t) && Tracked(cfg, t) && Ledger(cfg, t)
  {
    hide Delivered, HostOf, HasUpgrade, ErrorsIn, BytesIn, PathIn, AcceptedRecipients;
  }

  lemma StartKeeps(cfg: Config, input: Stream, o: Oracle)
    ensures Kept(cfg, Start(cfg, input, o))
  {
    hide Say, Bytes, Passed;
  }

  /** The refinement theorem: in every run, with the sender policy and the mailbox rejecting only
      by negative replies, the messages stored are exactly, in order, those whose DATA was
      answered 250, each as the log describes it. */
  lemma {:induction false} RunKeeps(cfg: Config, input: Stream, w: nat -> Oracle, n: nat)
    requires HonestWorld(w)
    ensures Kept(cfg, Run(cfg, input, w, n))
  {
    hide Step, Start, Kept;
    if n == 0 {
      StartKeeps(cfg, input, w(0));
    } else {
      RunKeeps(cfg, input, w, n - 1);
      StepKeeps(cfg, Run(cfg, input, w, n - 1), w(n));
    }
  }
}
