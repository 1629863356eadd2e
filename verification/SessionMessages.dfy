/** The messages of a run: each explained by the log, none changed, every octet accounted for. */
module SessionMessages {
  import opened Text
  import opened Conn
  import opened Protocol
  import opened StateMachine
  import opened Parser
  import opened DataCodec
  import opened Phrases
  import opened Reply
  import opened Envelopes
  import opened Session
  import opened SessionStates
  import opened SessionLog
  import opened SessionEffects
  import opened SessionHistory
  import opened SessionSafety
  import opened SessionFailure
  import opened SessionIdentifiers
  import opened SessionRecord
  import opened SessionInput

  function AcceptedData(log: seq<Event>): nat {
    if log == [] then 0
    else AcceptedData(log[..|log| - 1]) + if Accepts(log[|log| - 1], DATA) then 1 else 0
  }

  /** The exchange in which message k was accepted. */
  lemma {:induction false} DeliveredWhere(cfg: Config, log: seq<Event>, k: nat) returns (j: nat)
    requires k < |Delivered(cfg, log)|
    ensures j < |log| && Accepts(log[j], DATA) && LastMail(log[..j]) >= 0
    ensures Delivered(cfg, log)[k] == MessageAt(cfg, log[..j], log[j])
    ensures |Delivered(cfg, log[..j])| == k
  {
    hide Accepts, MessageAt, LastMail;
    var n := |log| - 1;
    if k < |Delivered(cfg, log[..n])| {
      j := DeliveredWhere(cfg, log[..n], k);
      assert log[..n][..j] == log[..j];
    } else {
      j := n;
    }
  }

  lemma {:induction false} DeliveredCount(cfg: Config, log: seq<Event>)
    requires Explained(log)
    ensures |Delivered(cfg, log)| == AcceptedData(log)
  {
    hide Accepts, MessageAt, EndsTransaction, LastMail;
    if log != [] {
      var n := |log| - 1;
      ExplainedPrefix(log, n);
      DeliveredCount(cfg, log[..n]);
      if Accepts(log[n], DATA) {
        assert ExplainedAt(log, n);
      }
    }
  }

  lemma ExplainedPrefix(log: seq<Event>, n: nat)
    requires Explained(log) && n <= |log|
    ensures Explained(log[..n])
  {
    hide Accepts, EndsTransaction, LastMail;
    forall j | 0 <= j < n && Accepts(log[..n][j], DATA)
      ensures ExplainedAt(log[..n], j)
    {
      assert log[..n][j] == log[j] && log[..n][..j] == log[..j];
      assert ExplainedAt(log, j);
    }
  }

  /** Message k as the log explains it: accepted in exchange j, opened by the MAIL at i. */
  ghost predicate IsTransaction(cfg: Config, log: seq<Event>, k: nat, c: Content, i: nat, j: nat) {
    && i < j < |log|
    && Accepts(log[i], MAIL) && Accepts(log[j], DATA) && AcceptedData(log[..j]) == k
    && (forall m :: i < m < j ==> !Accepts(log[m], MAIL) && !EndsTransaction(log[m]))
    && EndsAtTerminator(log[j].body)
    && c == Content(PathIn(log[i], "FROM"), log[i].how.cmd.params, AcceptedRecipients(log[i + 1..j]),
                    DataIn(log[j]), Metadata(HostOf(log[..i]), cfg.serverHostname, HasUpgrade(log[..i])))
  }

  lemma DeliveredExplained(cfg: Config, log: seq<Event>, k: nat) returns (i: nat, j: nat)
    requires Explained(log) && k < |Delivered(cfg, log)|
    ensures IsTransaction(cfg, log, k, Delivered(cfg, log)[k], i, j)
  {
    hide Delivered, Explained, PathIn, DataIn, HostOf, HasUpgrade, AcceptedRecipients, AcceptedData;
    hide EndsAtTerminator;
    j := DeliveredWhere(cfg, log, k);
    ExplainedHere(log, j);
    ExplainedPrefix(log, j);
    DeliveredCount(cfg, log[..j]);
    i := LastMail(log[..j]);
    SlicesOf(log, i, j);
  }

  /** The refinement theorem in full. With a storage, the messages stored are as many as the DATA
      commands answered 250, and message k is the one accepted in the k-th of those exchanges, j:
      its sender is that of the latest accepted MAIL, i; its recipients are precisely those
      accepted between, in order; nothing between i and j has ended the transaction; its data are
      the lines of j up to the first terminator, without their stuffing. What the log says is what
      the client sent: its lines are those of the input, one by one, and its commands are what
      these lines parse to. */
  lemma MessagesAreTransactions(cfg: Config, input: Stream, w: nat -> Oracle, n: nat, k: nat)
    returns (i: nat, j: nat)
    requires HonestWorld(w)
    ensures var s := Run(cfg, input, w, n);
            && FromInput(cfg, input, w, n) && (forall e :: e in s.log ==> Genuine(cfg, e))
            && |s.stored| == (if cfg.storage then AcceptedData(s.log) else 0)
            && (k < |s.stored| ==> IsTransaction(cfg, s.log, k, s.stored[k].content, i, j))
  {
    hide Run, Shape, Recorded, Tracked, OneUpgrade, LimitKept, IsTransaction, Delivered, Explained;
    hide FromInput, Genuine;
    RunKeeps(cfg, input, w, n);
    RunTraced(cfg, input, w, n);
    RunFromInput(cfg, input, w, n);
    RunRecords(cfg, input, w, n);
    var s := Run(cfg, input, w, n);
    i, j := 0, 0;
    DeliveredCount(cfg, s.log);
    if k < |s.stored| {
      assert Contents(s.stored)[k] == s.stored[k].content;
      i, j := DeliveredExplained(cfg, s.log, k);
    }
  }

  lemma ExplainedHere(log: seq<Event>, j: nat)
    requires Explained(log) && j < |log| && Accepts(log[j], DATA)
    ensures ExplainedAt(log, j)
  {
    hide Accepts, ExplainedAt;
  }

  lemma SlicesOf(log: seq<Event>, i: nat, j: nat)
    requires i < j <= |log|
    ensures log[..j][i] == log[i] && log[..j][i + 1..] == log[i + 1..j] && log[..j][..i] == log[..i]
    ensures forall m :: i < m < j ==> log[..j][m] == log[m]
  {
  }

  lemma StepStores(cfg: Config, s: Sess, o: Oracle)
    ensures s.stored <= Step(cfg, s, o).stored
  {
    hide Step;
    StepIds(cfg, s, o);
  }

  /** Conservation of octets: all complete lines taken are counted, and an accepted DATA exchange
      counts its command line, the message, one octet for every line that began with a dot, and
      the terminator. */
  lemma BytesConserved(cfg: Config, input: Stream, w: nat -> Oracle, n: nat, j: nat)
    requires HonestWorld(w)
    ensures var s := Run(cfg, input, w, n);
            && s.stats.bytesRead == BytesIn(s.log)
            && (j < |s.log| && Accepts(s.log[j], DATA) ==>
               var e := s.log[j];
               && EndsAtTerminator(e.body)
               && EventBytes(e) == |e.line| + |DataIn(e)| + DotLines(e.body[..|e.body| - 1])
                                   + |e.body[|e.body| - 1]|)
  {
    hide Shape, Tracked, Ledger, Run, DotLines, OneUpgrade, LimitKept, Unstuffed;
    RunKeeps(cfg, input, w, n);
    RunTraced(cfg, input, w, n);
    var s := Run(cfg, input, w, n);
    if !(j < |s.log| && Accepts(s.log[j], DATA)) {
      return;
    }
    var e := s.log[j];
    ExplainedHere(s.log, j);
    var init, t := e.body[..|e.body| - 1], e.body[|e.body| - 1];
    StuffingIsCounted(init);
    ConcatAppend(init, [t]);
    assert e.body == init + [t];
    assert Concat([t]) == t;
  }
}
