/** Reference accounts of a connection, computed from the frames written and the frames received. */
module Http2Logs {
  import opened Common
  import opened Http2Types

  // ----- frames written -----

  /** The DATA payload written for a stream. */
  function DataOf(out: seq<Frame>, id: nat): seq<Byte>
  {
    if out == [] then []
    else
      var f := out[|out| - 1];
      DataOf(out[..|out| - 1], id) + (if f.typ == F_DATA && f.id == id then f.payload else [])
  }

  /** DATA bytes written on all streams. */
  function DataTotal(out: seq<Frame>): nat
  {
    if out == [] then 0
    else
      var f := out[|out| - 1];
      DataTotal(out[..|out| - 1]) + (if f.typ == F_DATA then |f.payload| else 0)
  }

  predicate Ends(f: Frame, id: nat)
  {
    f.id == id && (f.typ == F_DATA || f.typ == F_HEADERS) && f.EndStream()
  }

  /** END_STREAM has been written for the stream. */
  function Ended(out: seq<Frame>, id: nat): bool
  {
    out != [] && (Ended(out[..|out| - 1], id) || Ends(out[|out| - 1], id))
  }

  /** No DATA was written for the stream after its END_STREAM. */
  predicate NothingAfterEnd(out: seq<Frame>, id: nat)
  {
    out == [] ||
    (var f := out[|out| - 1];
     NothingAfterEnd(out[..|out| - 1], id) && (f.typ == F_DATA && f.id == id ==> !Ended(out[..|out| - 1], id)))
  }

  /** What the log says of a request body: a prefix was sent, END_STREAM exactly on the frame that completes it. */
  ghost predicate BodySent(out: seq<Frame>, id: nat, body: seq<Byte>)
  {
    && NothingAfterEnd(out, id)
    && DataOf(out, id) <= body
    && (Ended(out, id) <==> DataOf(out, id) == body)
  }

  /** Nothing has been written for this stream or any later one. */
  ghost predicate Untouched(out: seq<Frame>, from: nat)
  {
    forall f :: f in out ==> f.id < from
  }

  lemma Snoc(out: seq<Frame>, f: Frame)
    ensures (out + [f])[..|out + [f]| - 1] == out && (out + [f])[|out + [f]| - 1] == f
  {
  }

  /** Frames that carry neither headers nor data. */
  predicate Control(f: Frame) { f.typ != F_DATA && f.typ != F_HEADERS }

  lemma ControlFrame(out: seq<Frame>, f: Frame, id: nat)
    requires Control(f)
    ensures DataOf(out + [f], id) == DataOf(out, id) && DataTotal(out + [f]) == DataTotal(out)
    ensures Ended(out + [f], id) == Ended(out, id) && NothingAfterEnd(out + [f], id) == NothingAfterEnd(out, id)
  {
    Snoc(out, f);
  }

  /** A frame for another stream does not count. */
  lemma OtherFrame(out: seq<Frame>, f: Frame, id: nat)
    requires f.id != id
    ensures DataOf(out + [f], id) == DataOf(out, id) && Ended(out + [f], id) == Ended(out, id)
    ensures NothingAfterEnd(out + [f], id) == NothingAfterEnd(out, id)
  {
    Snoc(out, f);
  }

  lemma DataFrame(out: seq<Frame>, f: Frame)
    requires f.typ == F_DATA
    ensures DataTotal(out + [f]) == DataTotal(out) + |f.payload|
    ensures DataOf(out + [f], f.id) == DataOf(out, f.id) + f.payload
    ensures Ended(out + [f], f.id) <==> Ended(out, f.id) || f.EndStream()
    ensures NothingAfterEnd(out + [f], f.id) <==> NothingAfterEnd(out, f.id) && !Ended(out, f.id)
  {
    Snoc(out, f);
  }

  lemma HeadersFrame(out: seq<Frame>, f: Frame)
    requires f.typ == F_HEADERS
    ensures DataTotal(out + [f]) == DataTotal(out)
    ensures DataOf(out + [f], f.id) == DataOf(out, f.id)
    ensures Ended(out + [f], f.id) <==> Ended(out, f.id) || f.EndStream()
    ensures NothingAfterEnd(out + [f], f.id) == NothingAfterEnd(out, f.id)
  {
    Snoc(out, f);
  }

  lemma {:induction false} NothingYet(out: seq<Frame>, from: nat, id: nat)
    requires Untouched(out, from) && id >= from
    ensures DataOf(out, id) == [] && !Ended(out, id) && NothingAfterEnd(out, id)
  {
    if out != [] {
      var front := out[..|out| - 1];
      assert forall f :: f in front ==> f in out;
      NothingYet(front, from, id);
      assert out[|out| - 1] in out;
    }
  }

  // ----- frames received -----

  /** What a received frame adds to the send window of `id` (0 for the connection). */
  function Increment(f: Frame, id: nat): nat
  {
    if f.typ == F_WINDOW_UPDATE && f.id == id && |f.payload| == 4 then U31(f.payload) else 0
  }

  function Increments(fs: seq<Frame>, id: nat): nat
  {
    if fs == [] then 0 else Increments(fs[..|fs| - 1], id) + Increment(fs[|fs| - 1], id)
  }

  /** What a received frame adds to the response body of `id`. */
  function BodyPart(f: Frame, id: nat): seq<Byte>
  {
    if f.typ == F_DATA && f.id == id && DataBytes(f).Ok? then DataBytes(f).value else []
  }

  function BodyOf(fs: seq<Frame>, id: nat): seq<Byte>
  {
    if fs == [] then [] else BodyOf(fs[..|fs| - 1], id) + BodyPart(fs[|fs| - 1], id)
  }

  lemma Received(fs: seq<Frame>, from: nat, f: Frame, id: nat)
    requires from <= |fs|
    ensures Increments((fs + [f])[from..], id) == Increments(fs[from..], id) + Increment(f, id)
    ensures BodyOf((fs + [f])[from..], id) == BodyOf(fs[from..], id) + BodyPart(f, id)
  {
    assert (fs + [f])[from..] == fs[from..] + [f];
    Snoc(fs[from..], f);
  }
}
