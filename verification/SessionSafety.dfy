/** Limits over whole runs, and TLS where it is required. */
module SessionSafety {
  import opened Text
  import opened Conn
  import opened Protocol
  import opened StateMachine
  import opened Parser
  import opened DataCodec
  import opened Phrases
  import opened Reply
  import opened Envelopes
  import opened Session
  import opened SessionStates
  import opened SessionLog
  import opened SessionEffects
  import opened SessionHistory

  // ----- Bounds and TLS -----

  predicate WithinLimit(max: int, n: nat) { max <= 0 || n <= max }

  /** A message as the configuration promises it. */
  predicate GoodMessage(cfg: Config, c: Content) {
    && c.recipients != [] && WithinLimit(cfg.limits.maxRecipients, |c.recipients|)
    && SizeFits(cfg.limits.maxMessageSize, |c.data|)
    && (cfg.tlsPolicy == TLSRequired ==> c.metadata.tlsActive)
    && c.metadata.clientHostname != ""
  }

  predicate GoodDraft(cfg: Config, d: Draft) {
    && WithinLimit(cfg.limits.maxRecipients, |d.recipients|)
    && (cfg.tlsPolicy == TLSRequired ==> d.metadata.tlsActive)
    && d.metadata.clientHostname != ""
  }

  predicate Bounded(cfg: Config, s: Sess) {
    && (forall c :: c in Delivered(cfg, s.log) ==> GoodMessage(cfg, c))
    && (InTransaction(s) ==> GoodDraft(cfg, s.envelope.value))
    && (InStep(s) && s.state != Greeted ==> s.host != "")
    && WithinLimit(cfg.limits.maxTransactions, s.stats.transactions)
    && (InTransaction(s) && cfg.limits.maxTransactions > 0 ==>
          s.stats.transactions < cfg.limits.maxTransactions)
  }

  lemma DraftAfter(cfg: Config, s: Sess, t: Sess, e: Event)
    requires Effect(cfg, s, t, e) && Bounded(cfg, s)
    ensures InTransaction(t) ==> GoodDraft(cfg, t.envelope.value)
  {
    hide Say, ParseMailPath, ParseHeloHostname, ParseCommand, DeclaredTooLarge, Delivered;
    hide IsTerminator, Unstuffed, SizeFits, AllBytes, GoodMessage, PathIn, Effect;
    if InTransaction(t) {
      if Accepts(e, MAIL) {
        MailDraft(cfg, s, t, e);
      } else {
        OpenMeansNotEnded(cfg, s, t, e);
        if Accepts(e, RCPT) {
          RcptDraft(cfg, s, t, e);
        }
      }
    }
  }

  lemma MailDraft(cfg: Config, s: Sess, t: Sess, e: Event)
    requires Effect(cfg, s, t, e) && Bounded(cfg, s) && Accepts(e, MAIL)
    ensures t.envelope.Some? && GoodDraft(cfg, t.envelope.value)
  {
    hide Say, ParseMailPath, ParseCommand, DeclaredTooLarge, Delivered, AllBytes, GoodMessage;
  }

  lemma RcptDraft(cfg: Config, s: Sess, t: Sess, e: Event)
    requires Effect(cfg, s, t, e) && Accepts(e, RCPT)
    ensures s.envelope.Some?
    ensures WithinLimit(cfg.limits.maxRecipients, |s.envelope.value.recipients| + 1)
  {
    hide Say, ParseMailPath, ParseCommand, AllBytes, InStep;
  }

  lemma NamedAfter(cfg: Config, s: Sess, t: Sess, e: Event)
    requires Effect(cfg, s, t, e) && Bounded(cfg, s)
    ensures InStep(t) && t.state != Greeted ==> t.host != ""
  {
    hide Say, ParseMailPath, ParseHeloHostname, ParseCommand, DeclaredTooLarge, Delivered;
    hide EndsAtTerminator, Unstuffed, SizeFits, AllBytes, GoodMessage, GoodDraft, MetadataOf;
  }

  lemma CountAfter(cfg: Config, s: Sess, t: Sess, e: Event)
    requires Effect(cfg, s, t, e) && Bounded(cfg, s)
    ensures WithinLimit(cfg.limits.maxTransactions, t.stats.transactions)
    ensures InTransaction(t) && cfg.limits.maxTransactions > 0 ==>
              t.stats.transactions < cfg.limits.maxTransactions
  {
    hide Effect, InTransaction, Delivered, GoodDraft, GoodMessage, Accepts, PathIn;
    if Accepts(e, DATA) {
      DataCounts(cfg, s, t, e);
    } else {
      OthersDeliverNothing(cfg, s, t, e);
      if InTransaction(t) && Accepts(e, MAIL) {
        MailGuards(cfg, s, t, e);
      } else if InTransaction(t) {
        OpenMeansNotEnded(cfg, s, t, e);
      }
    }
  }

  lemma DataCounts(cfg: Config, s: Sess, t: Sess, e: Event)
    requires Effect(cfg, s, t, e) && Accepts(e, DATA)
    ensures InTransaction(s) && !InTransaction(t) && t.stats.transactions == s.stats.transactions + 1
  {
    hide Effect, Accepts, EndsAtTerminator, SizeFits, Unstuffed;
    AcceptedDelivers(cfg, s, t, e);
  }

  lemma MailGuards(cfg: Config, s: Sess, t: Sess, e: Event)
    requires Effect(cfg, s, t, e) && Accepts(e, MAIL)
    ensures cfg.limits.maxTransactions > 0 ==> s.stats.transactions < cfg.limits.maxTransactions
  {
    hide Say, ParseMailPath, ParseCommand, DeclaredTooLarge, AllBytes, InStep;
    hide IdentifyEffect, DeliverEffect, RcptEffect;
  }

  lemma DeliveredIsGood(cfg: Config, s: Sess, t: Sess, e: Event)
    requires Effect(cfg, s, t, e) && Accepts(e, DATA) && Tracked(cfg, s) && Bounded(cfg, s)
    ensures LastMail(s.log) >= 0 && GoodMessage(cfg, MessageAt(cfg, s.log, e))
  {
    hide Effect, Accepts, IsTerminator, SizeFits, Unstuffed, PathIn, HostOf, HasUpgrade, AcceptedRecipients;
    hide Delivered, LastMail;
    AcceptedDelivers(cfg, s, t, e);
  }

  lemma AdvanceBounded(cfg: Config, s: Sess, t: Sess)
    requires Tracked(cfg, s) && Bounded(cfg, s) && Advances(cfg, s, t)
    ensures Bounded(cfg, t)
  {
    hide Effect, Tracked, Delivered, MessageAt, Accepts, GoodMessage, GoodDraft, InStep;
    var e := t.log[|t.log| - 1];
    EffectExtends(cfg, s, t, e);
    DeliveredSnoc(cfg, s.log, e);
    DraftAfter(cfg, s, t, e);
    NamedAfter(cfg, s, t, e);
    CountAfter(cfg, s, t, e);
    if Accepts(e, DATA) {
      DeliveredIsGood(cfg, s, t, e);
    }
  }

  lemma StepBounded(cfg: Config, s: Sess, o: Oracle)
    requires Kept(cfg, s) && Bounded(cfg, s) && Honest(o)
    ensures Bounded(cfg, Step(cfg, s, o))
  {
    hide Step, Advances, Tracked, Bounded, Kept;
    var t := Step(cfg, s, o);
    KeptParts(cfg, s);
    StepAdvances(cfg, s, o);
    if Advances(cfg, s, t) {
      AdvanceBounded(cfg, s, t);
    } else {
      QuietBounded(cfg, s, t);
    }
  }

  lemma StartBounded(cfg: Config, input: Stream, o: Oracle)
    ensures Bounded(cfg, Start(cfg, input, o))
  {
    hide Say, Bytes, Passed;
  }

  lemma {:induction false} RunBounded(cfg: Config, input: Stream, w: nat -> Oracle, n: nat)
    requires HonestWorld(w)
    ensures Bounded(cfg, Run(cfg, input, w, n))
  {
    hide Step, Start, Kept, Bounded;
    if n == 0 {
      StartBounded(cfg, input, w(0));
    } else {
      RunBounded(cfg, input, w, n - 1);
      RunKeeps(cfg, input, w, n - 1);
      StepBounded(cfg, Run(cfg, input, w, n - 1), w(n));
    }
  }

  lemma KeptParts(cfg: Config, s: Sess)
    requires Kept(cfg, s)
    ensures Shape(s) && Recorded(s) && Tracked(cfg, s) && Ledger(cfg, s)
  {
  }

  lemma QuietBounded(cfg: Config, s: Sess, t: Sess)
    requires Quiet(s, t) && Bounded(cfg, s)
    ensures Bounded(cfg, t)
  {
    hide Delivered, GoodMessage, GoodDraft;
  }

  lemma {:induction false} RecipientBound(cfg: Config, cs: seq<Content>)
    requires cfg.limits.maxRecipients > 0
    requires forall c :: c in cs ==> GoodMessage(cfg, c)
    ensures TotalRecipients(cs) <= cfg.limits.maxRecipients * |cs|
  {
    if cs != [] {
      RecipientBound(cfg, cs[..|cs| - 1]);
      assert GoodMessage(cfg, cs[|cs| - 1]);
    }
  }

  /** Limits over whole runs, whatever sizes were declared: transactions and messages are counted
      alike and stay within their limit, every stored message is within the limits on
      recipients and size, and so is the number of all recipients; under TLSRequired every
      stored message came over TLS; and every one names its client. */
  lemma RunWithinLimits(cfg: Config, input: Stream, w: nat -> Oracle, n: nat)
    requires HonestWorld(w)
    ensures var s := Run(cfg, input, w, n);
            && s.stats.transactions == s.stats.messages
            && WithinLimit(cfg.limits.maxTransactions, s.stats.transactions)
            && (forall i :: 0 <= i < |s.stored| ==> GoodMessage(cfg, s.stored[i].content))
            && (cfg.limits.maxRecipients > 0 && cfg.limits.maxTransactions > 0 ==>
                  s.stats.recipients <= cfg.limits.maxRecipients * cfg.limits.maxTransactions)
  {
    hide Run, Delivered, GoodMessage, Shape, Recorded, Tracked;
    RunKeeps(cfg, input, w, n);
    RunBounded(cfg, input, w, n);
    var s := Run(cfg, input, w, n);
    var d := Delivered(cfg, s.log);
    forall i | 0 <= i < |s.stored|
      ensures GoodMessage(cfg, s.stored[i].content)
    {
      assert Contents(s.stored)[i] == d[i] && d[i] in d;
    }
    if cfg.limits.maxRecipients > 0 && cfg.limits.maxTransactions > 0 {
      RecipientBound(cfg, d);
      MulMonotone(cfg.limits.maxRecipients, |d|, cfg.limits.maxTransactions);
    }
  }

  lemma MulMonotone(a: nat, b: nat, c: nat)
    requires b <= c
    ensures a * b <= a * c
  {
  }
}
