/** Envelopes, first as values, then as the objects that share memory with their builder. */
module Envelopes {
  import opened Text
  import opened Parser

  datatype Metadata = Metadata(clientHostname: string, serverHostname: string, tlsActive: bool)

  /** What a message is, apart from its random identifier. */
  datatype Content = Content(mailFrom: MailPath, params: Params, recipients: seq<MailPath>,
                             data: string, metadata: Metadata)

  datatype Envelope = Envelope(id: string, content: Content)

  datatype WriterState = NoWriter | Writing | Closed

  /** The state of a builder. An operation that the builder refuses is an Err. */
  datatype Draft = Draft(id: string, mailFrom: Option<MailPath>, params: Params,
                         recipients: seq<MailPath>, data: string, writer: WriterState,
                         finalized: bool, metadata: Metadata)
  {
    function SetMailFrom(p: MailPath, ps: Params): Result<Draft> {
      if finalized then Err else Ok(this.(mailFrom := Some(p), params := ps))
    }

    function AddRecipient(p: MailPath): Result<Draft> {
      if finalized then Err else Ok(this.(recipients := recipients + [p]))
    }

    function OpenWriter(): Result<Draft> {
      if finalized || writer != NoWriter then Err else Ok(this.(writer := Writing))
    }

    function Write(p: string): Result<Draft> {
      if writer != Writing then Err else Ok(this.(data := data + p))
    }

    function CloseWriter(): Draft {
      this.(writer := Closed)
    }

    function Finalize(): Result<Envelope> {
      if finalized || mailFrom.None? || recipients == [] || writer == Writing then Err
      else Ok(Envelope(id, Content(mailFrom.value, params, recipients, data, metadata)))
    }
  }

  function NewDraft(id: string, m: Metadata): Draft {
    Draft(id, None, map[], [], "", NoWriter, false, m)
  }

  // ----- Shared memory -----

  /** The array under a slice. Every slice of it sees what is written to it. */
  class Backing<T> {
    var items: seq<T>

    constructor ()
      ensures items == []
    {
      items := [];
    }

    /** Writes xs from position at on, over whatever is there. */
    method Put(at: nat, xs: seq<T>)
      requires at <= |items|
      modifies this
      ensures items == Overwrite(old(items), at, xs)
    {
      items := Overwrite(items, at, xs);
    }
  }

  function Overwrite<T>(items: seq<T>, at: nat, xs: seq<T>): (r: seq<T>)
    requires at <= |items|
    ensures |r| >= at + |xs|
    ensures r[..at + |xs|] == items[..at] + xs
    ensures r[at + |xs|..] == if at + |xs| <= |items| then items[at + |xs|..] else []
  {
    items[..at] + xs + if at + |xs| <= |items| then items[at + |xs|..] else []
  }

  /** A finalized envelope: slices of the builder's own arrays, not copies. */
  datatype EnvelopeRef = EnvelopeRef(id: string, mailFrom: MailPath, params: Params, metadata: Metadata,
                                     recipients: Backing<MailPath>, recipientCount: nat,
                                     data: Backing<char>, size: nat)
  {
    ghost predicate Valid()
      reads recipients, data
    {
      recipientCount <= |recipients.items| && size <= |data.items|
    }

    ghost function Value(): Envelope
      requires Valid()
      reads recipients, data
    {
      Envelope(id, Content(mailFrom, params, recipients.items[..recipientCount], data.items[..size], metadata))
    }
  }

  class EnvelopeBuilder {
    var id: string
    var mailFrom: Option<MailPath>
    var params: Params
    var recipients: Backing<MailPath>
    var recipientCount: nat
    var data: Backing<char>
    var size: nat
    var writer: WriterState
    var finalized: bool
    var metadata: Metadata

    ghost predicate Valid()
      reads this, recipients, data
    {
      recipientCount <= |recipients.items| && size <= |data.items|
    }

    ghost function Value(): Draft
      requires Valid()
      reads this, recipients, data
    {
      Draft(id, mailFrom, params, recipients.items[..recipientCount], data.items[..size],
            writer, finalized, metadata)
    }

    constructor (id: string, m: Metadata)
      ensures Valid() && Value() == NewDraft(id, m)
      ensures fresh(recipients) && fresh(data)
    {
      this.id, mailFrom, params, metadata := id, None, map[], m;
      recipients := new Backing<MailPath>();
      data := new Backing<char>();
      recipientCount, size, writer, finalized := 0, 0, NoWriter, false;
    }

    method SetMailFrom(p: MailPath, ps: Params) returns (ok: bool)
      requires Valid()
      modifies this`mailFrom, this`params
      ensures Valid()
      ensures match old(Value()).SetMailFrom(p, ps)
              case Ok(d) => ok && Value() == d
              case Err => !ok && Value() == old(Value())
    {
      ok := !finalized;
      if ok {
        mailFrom, params := Some(p), ps;
      }
    }

    /** Appends in place: the array may be shared with slices handed out before. */
    method AddRecipient(p: MailPath) returns (ok: bool)
      requires Valid()
      modifies this`recipientCount, recipients
      ensures Valid()
      ensures match old(Value()).AddRecipient(p)
              case Ok(d) => ok && Value() == d
              case Err => !ok && Value() == old(Value())
    {
      ok := !finalized;
      if ok {
        recipients.Put(recipientCount, [p]);
        recipientCount := recipientCount + 1;
      }
    }

    method DataWriter() returns (ok: bool)
      requires Valid()
      modifies this`writer
      ensures Valid()
      ensures match old(Value()).OpenWriter()
              case Ok(d) => ok && Value() == d
              case Err => !ok && Value() == old(Value())
    {
      ok := !finalized && writer == NoWriter;
      if ok {
        writer := Writing;
      }
    }

    /** The writer appends to the builder's buffer in place. */
    method Write(p: string) returns (ok: bool)
      requires Valid()
      modifies this`size, data
      ensures Valid()
      ensures match old(Value()).Write(p)
              case Ok(d) => ok && Value() == d
              case Err => !ok && Value() == old(Value())
      ensures ok ==> size == old(size) + |p| && data.items == Overwrite(old(data.items), old(size), p)
    {
      ok := writer == Writing;
      if ok {
        data.Put(size, p);
        size := size + |p|;
      }
    }

    method CloseWriter()
      requires Valid()
      modifies this`writer
      ensures Valid() && Value() == old(Value()).CloseWriter()
    {
      writer := Closed;
    }

    /** Hands out the builder's own arrays. */
    method Finalize() returns (r: Result<EnvelopeRef>)
      requires Valid()
      modifies this`finalized
      ensures Valid()
      ensures match old(Value()).Finalize()
              case Ok(e) => r.Ok? && r.value.Valid() && r.value.Value() == e
                            && r.value.recipients == recipients && r.value.data == data
                            && r.value.size == size && r.value.recipientCount == recipientCount
                            && Value() == old(Value()).(finalized := true)
              case Err => r.Err? && Value() == old(Value())
    {
      if finalized || mailFrom.None? || recipientCount == 0 || writer == Writing {
        return Err;
      }
      finalized := true;
      r := Ok(EnvelopeRef(id, mailFrom.value, params, metadata, recipients, recipientCount, data, size));
    }

    /** A snapshot for inspection: the recipients are copied, the data are not. */
    method Build() returns (r: EnvelopeRef)
      requires Valid()
      ensures r.Valid() && fresh(r.recipients) && r.data == data
      ensures r.recipientCount == |Value().recipients| && r.Value().content.recipients == Value().recipients
      ensures r.Value().content.data == Value().data
    {
      var copy := new Backing<MailPath>();
      copy.Put(0, recipients.items[..recipientCount]);
      var from := if mailFrom.Some? then mailFrom.value else MailPath("", "", false);
      r := EnvelopeRef(id, from, params, metadata, copy, recipientCount, data, size);
    }

    /** The recipients get a new array; the data buffer keeps its array and is only rewound. */
    method Reset(newId: string)
      requires Valid()
      modifies this
      ensures Valid() && Value() == NewDraft(newId, old(metadata))
      ensures data == old(data) && data.items == old(data.items) && size == 0 && fresh(recipients)
    {
      id, mailFrom, params, size, writer, finalized := newId, None, map[], 0, NoWriter, false;
      recipients := new Backing<MailPath>();
      recipientCount := 0;
    }
  }

  /** Why a finalized builder must never be used again: after a reset, a write of no more than
      the stored size replaces the beginning of the envelope that was handed out. */
  method ReuseOverwritesEnvelope(b: EnvelopeBuilder, e: EnvelopeRef, id: string, p: string)
    requires b.Valid() && e.Valid() && e.data == b.data
    requires |p| <= e.size
    modifies b, b.data
    ensures e.Valid() && e.Value().content.data == p + old(e.Value()).content.data[|p|..]
  {
    b.Reset(id);
    var _ := b.DataWriter();
    var ok := b.Write(p);
    ghost var was := old(b.data.items);
    assert b.data.items == p + was[|p|..];
    assert (p + was[|p|..])[..e.size] == p + was[..e.size][|p|..];
  }
}
