/** Octet streams cut into frames by a delimiter. */
module Framing {
  import opened Sequences

  type Octet = o: int | 0 <= o < 256

  const DELIMITER: Octet := 0

  /** The octets after the last delimiter. */
  function Tail(stream: seq<Octet>): (t: seq<Octet>)
    ensures |t| <= |stream|
  {
    if stream == [] then []
    else
      var last := |stream| - 1;
      if stream[last] == DELIMITER then [] else Tail(stream[..last]) + [stream[last]]
  }

  /** The delimited frames, in order, without their delimiters. */
  function Frames(stream: seq<Octet>): seq<seq<Octet>> {
    if stream == [] then []
    else
      var last := |stream| - 1;
      if stream[last] == DELIMITER then Frames(stream[..last]) + [Tail(stream[..last])]
      else Frames(stream[..last])
  }

  lemma Snoc(stream: seq<Octet>, octet: Octet)
    ensures Tail(stream + [octet]) == if octet == DELIMITER then [] else Tail(stream) + [octet]
    ensures Frames(stream + [octet])
         == if octet == DELIMITER then Frames(stream) + [Tail(stream)] else Frames(stream)
  {
    assert (stream + [octet])[..|stream|] == stream;
  }

  /** Each frame followed by a delimiter. */
  function Delimited(frames: seq<seq<Octet>>): seq<Octet> {
    if frames == [] then []
    else
      var last := |frames| - 1;
      Delimited(frames[..last]) + frames[last] + [DELIMITER]
  }

  ghost predicate Plain(frame: seq<Octet>) { DELIMITER !in frame }

  /** Frames and Tail lose nothing. */
  lemma {:induction false} FramesCover(stream: seq<Octet>)
    ensures Delimited(Frames(stream)) + Tail(stream) == stream
    ensures Plain(Tail(stream)) && forall f :: f in Frames(stream) ==> Plain(f)
  {
    if stream != [] {
      var last := |stream| - 1;
      var front := stream[..last];
      FramesCover(front);
      assert stream == front + [stream[last]];
      if stream[last] == DELIMITER {
        assert Frames(stream)[..|Frames(front)|] == Frames(front);
      }
    }
  }

  lemma {:induction false} PlainTail(stream: seq<Octet>, octets: seq<Octet>)
    requires Plain(octets)
    ensures Frames(stream + octets) == Frames(stream)
    ensures Tail(stream + octets) == Tail(stream) + octets
    decreases |octets|
  {
    hide Frames, Tail;
    if octets == [] {
      EmptyRight(stream);
      EmptyRight(Tail(stream));
    } else {
      var front, x := octets[..|octets| - 1], octets[|octets| - 1];
      FrontLast(octets);
      PlainTail(stream, front);
      Associate(stream, front, [x]);
      Snoc(stream + front, x);
      Associate(Tail(stream), front, [x]);
    }
  }

  /** There is only one way to cut a stream into plain frames and a plain tail. */
  lemma {:induction false} FramesUnique(frames: seq<seq<Octet>>, tail: seq<Octet>)
    requires Plain(tail) && forall f :: f in frames ==> Plain(f)
    ensures Frames(Delimited(frames) + tail) == frames
    ensures Tail(Delimited(frames) + tail) == tail
    decreases |frames|
  {
    PlainTail(Delimited(frames), tail);
    if frames != [] {
      var last := |frames| - 1;
      var front := Delimited(frames[..last]);
      FramesUnique(frames[..last], frames[last]);
      Snoc(front + frames[last], DELIMITER);
      assert frames == frames[..last] + [frames[last]];
    }
  }

  /** No frame, finished or not, is longer than the limit. */
  ghost predicate Fits(stream: seq<Octet>, limit: nat) {
    forall i :: 0 <= i <= |stream| ==> |Tail(stream[..i])| <= limit
  }

  lemma FitsPrefix(stream: seq<Octet>, prefix: seq<Octet>, limit: nat)
    requires Fits(stream, limit) && prefix <= stream
    ensures Fits(prefix, limit)
    ensures |Tail(prefix)| <= limit
  {
    forall i | 0 <= i <= |prefix| ensures |Tail(prefix[..i])| <= limit {
      assert prefix[..i] == stream[..i];
    }
    assert prefix == stream[..|prefix|];
  }
}
