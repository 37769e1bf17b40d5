/** The inbound side of a connection in the early server: each `conn.Read`
    returns what it put in the buffer and an error value, and the read loop
    either ends the session or broadcasts the text without its last byte. */
module ReadPath {
  import opened Wire

  /** The error a read returns: nil, io.EOF, or anything else. */
  datatype ReadError = NoError | EndOfStream | Failed

  /** One `conn.Read`: the characters it delivered and its error. */
  datatype Chunk = Chunk(data: string, err: ReadError)

  /** What the loop does with one read. */
  datatype Outcome =
    | Closed            // nothing read: announce `下线` and stop
    | Broken            // a non-EOF error: stop silently
    | Line(msg: string) // broadcast the text without its terminator

  /** The tests of the read loop, in its order.  A read that delivers text
      together with io.EOF still counts as a line. */
  function Classify(r: Chunk): (o: Outcome)
    ensures o.Closed? <==> r.data == []
    ensures o.Broken? <==> r.data != [] && r.err == Failed
    ensures o.Line? ==> |o.msg| + 1 == |r.data| && o.msg + [r.data[|r.data| - 1]] == r.data
  {
    if |r.data| == 0 then Closed
    else if r.err.Failed? then Broken  // err != nil && err != io.EOF
    else
      assert r.data == r.data[..|r.data| - 1] + [r.data[|r.data| - 1]];
      Line(r.data[..|r.data| - 1])
  }

  /** The messages one read hands to `BroadCast`. */
  function Announces(o: Outcome): seq<string>
  {
    match o
    case Closed => [Dropped]
    case Broken => []
    case Line(msg) => [msg]
  }

  /** The session goes on after every one of these chunks. */
  ghost predicate Open(chunks: seq<Chunk>)
  {
    forall i :: 0 <= i < |chunks| ==> Classify(chunks[i]).Line?
  }

  /** A session stays open over one more read exactly when that read is a line. */
  lemma OpenSnoc(chunks: seq<Chunk>, r: Chunk)
    ensures Open(chunks + [r]) <==> Open(chunks) && Classify(r).Line?
  {
    if Open(chunks) && Classify(r).Line? {
      forall i | 0 <= i < |chunks + [r]| ensures Classify((chunks + [r])[i]).Line? {
        if i < |chunks| {
          assert (chunks + [r])[i] == chunks[i];
        }
      }
    }
    if Open(chunks + [r]) {
      assert (chunks + [r])[|chunks|] == r;
      forall i | 0 <= i < |chunks| ensures Classify(chunks[i]).Line? {
        assert (chunks + [r])[i] == chunks[i];
      }
    }
  }

  /** The messages a session hands to `BroadCast`, in order, for a run of reads;
      reads after the one that ends the session are never made, so there
      is at most one message per read. */
  function Said(chunks: seq<Chunk>): (said: seq<string>)
    ensures |said| <= |chunks|
  {
    if chunks == [] then []
    else
      var o := Classify(chunks[0]);
      if o.Line? then Announces(o) + Said(chunks[1..]) else Announces(o)
  }

  /** While the session is open, one more read adds exactly its own announcement. */
  lemma {:induction false} SaidSnoc(chunks: seq<Chunk>, r: Chunk)
    requires Open(chunks)
    ensures Said(chunks + [r]) == Said(chunks) + Announces(Classify(r))
  {
    if chunks != [] {
      assert (chunks + [r])[1..] == chunks[1..] + [r];
      SaidSnoc(chunks[1..], r);
    }
  }

  /** Once a read has ended the session, later chunks change nothing. */
  lemma {:induction false} SaidAfterEnd(chunks: seq<Chunk>, more: seq<Chunk>)
    requires chunks != [] && !Classify(chunks[|chunks| - 1]).Line?
    ensures Said(chunks + more) == Said(chunks)
  {
    if |chunks| > 1 {
      assert (chunks + more)[1..] == chunks[1..] + more;
      SaidAfterEnd(chunks[1..], more);
    }
  }

  /** An open session broadcasts every read, each without exactly its last character. */
  lemma {:induction false} SaidWhileOpen(chunks: seq<Chunk>)
    requires Open(chunks)
    ensures |Said(chunks)| == |chunks|
    ensures forall i :: 0 <= i < |chunks| ==>
      Said(chunks)[i] + [chunks[i].data[|chunks[i].data| - 1]] == chunks[i].data
  {
    if chunks != [] {
      SaidWhileOpen(chunks[1..]);
      forall i | 0 <= i < |chunks|
        ensures Said(chunks)[i] + [chunks[i].data[|chunks[i].data| - 1]] == chunks[i].data
      {
        if i > 0 {
          assert Said(chunks)[i] == Said(chunks[1..])[i - 1];
        }
      }
    }
  }
}
