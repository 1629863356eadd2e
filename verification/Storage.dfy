/** The in-memory store behind the engine. */
module Storage {
  import opened Text
  import opened Parser
  import opened Envelopes

  ghost function DataSize(es: seq<Envelope>): nat {
    if es == [] then 0 else DataSize(es[..|es| - 1]) + |es[|es| - 1].content.data|
  }

  function ById(es: seq<Envelope>): map<string, Envelope> {
    if es == [] then map[]
    else var e := es[|es| - 1]; ById(es[..|es| - 1])[e.id := e]
  }

  lemma {:induction false} KeysAreIds(es: seq<Envelope>, k: string)
    requires k in ById(es)
    ensures exists i :: 0 <= i < |es| && es[i].id == k
  {
    var n := |es| - 1;
    if es[n].id != k {
      KeysAreIds(es[..n], k);
      var i :| 0 <= i < n && es[..n][i].id == k;
      assert es[i].id == k;
    }
  }

  predicate DistinctIds(es: seq<Envelope>) {
    forall i, j :: 0 <= i < j < |es| ==> es[i].id != es[j].id
  }

  /** With distinct identifiers the table holds every envelope under its own identifier. */
  lemma {:induction false} DistinctIdsKeepAll(es: seq<Envelope>)
    requires DistinctIds(es)
    ensures |ById(es)| == |es|
    ensures forall i :: 0 <= i < |es| ==> es[i].id in ById(es) && ById(es)[es[i].id] == es[i]
  {
    if es != [] {
      var n := |es| - 1;
      var m := ById(es[..n]);
      DistinctIdsKeepAll(es[..n]);
      if es[n].id in m {
        KeysAreIds(es[..n], es[n].id);
        assert false;
      }
      assert ById(es) == m[es[n].id := es[n]];
      hide ById;
      forall i | 0 <= i < |es|
        ensures es[i].id in ById(es) && ById(es)[es[i].id] == es[i]
      {
        if i < n {
          assert es[i] == es[..n][i];
        }
      }
    }
  }

  /** Storing more drops no identifier, and replaces no envelope unless an identifier comes again. */
  lemma {:induction false} ByIdGrows(a: seq<Envelope>, b: seq<Envelope>)
    requires a <= b
    ensures ById(a).Keys <= ById(b).Keys
    ensures DistinctIds(b) ==> forall k :: k in ById(a) ==> ById(b)[k] == ById(a)[k]
    decreases |b|
  {
    if |a| < |b| {
      var n := |b| - 1;
      ByIdGrows(a, b[..n]);
      if DistinctIds(b) && b[n].id in ById(a) {
        KeysAreIds(a, b[n].id);
        assert false;
      }
    } else {
      assert a == b;
    }
  }

  lemma SameSize<T, U>(m: map<string, T>, n: map<string, U>)
    requires m.Keys == n.Keys
    ensures |m| == |n|
  {
    assert |m| == |m.Keys| && |n| == |n.Keys|;
  }

  lemma TotalsSnoc(es: seq<Envelope>, e: Envelope)
    ensures DataSize(es + [e]) == DataSize(es) + |e.content.data|
    ensures ById(es + [e]) == ById(es)[e.id := e]
  {
    assert (es + [e])[..|es|] == es;
  }

  /** The arrays that some envelopes are slices of. */
  ghost function ArraysOf(h: seq<EnvelopeRef>): (r: set<object>)
    ensures forall e :: e in h ==> e.recipients in r && e.data in r
    ensures forall o :: o in r ==> o is Backing<MailPath> || o is Backing<char>
  {
    (set e | e in h :: e.recipients as object) + (set e | e in h :: e.data as object)
  }

  lemma ArraysSnoc(h: seq<EnvelopeRef>, e: EnvelopeRef)
    ensures ArraysOf(h + [e]) == ArraysOf(h) + {e.recipients, e.data}
  {
  }

  /** Every envelope stored still is what it was then. */
  ghost predicate Unchanged(h: seq<EnvelopeRef>, vs: seq<Envelope>)
    reads ArraysOf(h)
  {
    && |h| == |vs|
    && forall i :: 0 <= i < |h| ==> h[i].Valid() && h[i].Value() == vs[i]
  }

  /** Reading the table gives, under every identifier, the envelope stored last with it. */
  ghost predicate Holds(m: map<string, EnvelopeRef>, h: seq<EnvelopeRef>, vs: seq<Envelope>)
    reads ArraysOf(h)
  {
    && m.Keys == ById(vs).Keys
    && forall k :: k in m ==> m[k] in h && m[k].Valid() && m[k].Value() == ById(vs)[k]
  }

  /** Every entry of the table is one of the envelopes stored, that of the latest with its
      identifier. */
  ghost predicate Indexed(m: map<string, EnvelopeRef>, h: seq<EnvelopeRef>, vs: seq<Envelope>) {
    && |h| == |vs| && m.Keys == ById(vs).Keys
    && forall k :: k in m ==> exists i :: 0 <= i < |h| && h[i] == m[k] && vs[i] == ById(vs)[k]
  }

  lemma UnchangedSnoc(h: seq<EnvelopeRef>, vs: seq<Envelope>, e: EnvelopeRef)
    requires Unchanged(h, vs) && e.Valid()
    ensures Unchanged(h + [e], vs + [e.Value()])
  {
    hide ArraysOf;
  }

  lemma HoldsSnoc(m: map<string, EnvelopeRef>, h: seq<EnvelopeRef>, vs: seq<Envelope>, e: EnvelopeRef)
    requires Holds(m, h, vs) && e.Valid()
    ensures Holds(m[e.id := e], h + [e], vs + [e.Value()])
  {
    hide ArraysOf, ById;
    TotalsSnoc(vs, e.Value());
  }

  /** The messages are references to envelopes; `values` is what each envelope was when it was
      stored. */
  class MemStorage {
    var messages: map<string, EnvelopeRef>
    var messagesStored: nat
    var bytesStored: nat
    ghost var history: seq<EnvelopeRef>
    ghost var values: seq<Envelope>

    ghost function Arrays(): set<object>
      reads this
    {
      ArraysOf(history)
    }

    ghost predicate Valid()
      reads this, Arrays()
    {
      && Unchanged(history, values) && Holds(messages, history, values)
      && messagesStored == |values| && bytesStored == DataSize(values)
    }

    /** What a reader of the table gets, through the shared arrays. */
    ghost function Table(): (r: map<string, Envelope>)
      requires Valid()
      reads this, Arrays()
      ensures r == ById(values)
    {
      map k | k in messages :: messages[k].Value()
    }

    lemma Indexes()
      requires Valid()
      ensures Indexed(messages, history, values)
    {
      hide ArraysOf, ById, DataSize;
    }

    /** The envelopes of an earlier table still are what they were. */
    lemma StillHeld(m: map<string, EnvelopeRef>, h: seq<EnvelopeRef>, vs: seq<Envelope>)
      requires Valid() && Indexed(m, h, vs) && h <= history && vs <= values
      ensures forall k :: k in m ==> m[k].Valid() && m[k].Value() == ById(vs)[k]
    {
      hide ArraysOf, ById, DataSize, Holds;
    }

    /** With distinct identifiers the table holds every envelope that was stored, and no other. */
    lemma TableKeepsAll()
      requires Valid() && DistinctIds(values)
      ensures |messages| == |values|
      ensures forall i :: 0 <= i < |values| ==>
                && values[i].id in messages && messages[values[i].id].Valid()
                && messages[values[i].id].Value() == values[i]
    {
      hide ArraysOf, ById, DataSize;
      DistinctIdsKeepAll(values);
      SameSize(messages, ById(values));
    }

    constructor ()
      ensures Valid() && history == [] && values == []
    {
      messages, messagesStored, bytesStored, history, values := map[], 0, 0, [], [];
    }

    method Store(e: EnvelopeRef)
      requires Valid() && e.Valid()
      modifies this
      ensures Valid()
      ensures history == old(history) + [e] && values == old(values) + [e.Value()]
      ensures messages == old(messages)[e.id := e]
      ensures Table() == old(Table())[e.id := e.Value()]
      ensures Arrays() == old(Arrays()) + {e.recipients, e.data}
    {
      hide DataSize, ById, ArraysOf, Table, Unchanged, Holds;
      ghost var before := values;
      ArraysSnoc(history, e);
      UnchangedSnoc(history, values, e);
      HoldsSnoc(messages, history, values, e);
      messages := messages[e.id := e];
      messagesStored := messagesStored + 1;
      bytesStored := bytesStored + e.size;
      history, values := history + [e], values + [e.Value()];
      TotalsSnoc(before, e.Value());
    }
  }
}
