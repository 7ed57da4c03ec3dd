/** How the received stream is cut into frames, whatever portions it arrives in. */
module TransportFraming {
  import opened Sequences
  import opened Framing
  import opened TransportModel
  import opened TransportLists
  import opened TransportInvariant
  import opened TransportSteps

  datatype Parsed = Parsed(blocks: seq<Block>, rest: seq<Octet>)

  function Window(stream: seq<Octet>, limit: nat): seq<Octet> {
    if |stream| < limit then stream else stream[..limit]
  }

  /** The whole stream at once: up to each delimiter within the limit, or else up to the limit. */
  function Parse(stream: seq<Octet>, limit: nat): Parsed
    requires limit > 0
    decreases |stream|
  {
    if DELIMITER in Window(stream, limit) then
      var size := FirstDelimiter(Window(stream, limit)) + 1;
      var p := Parse(stream[size..], limit);
      Parsed([Delivered(stream[..size])] + p.blocks, p.rest)
    else if |stream| >= limit then
      var p := Parse(stream[limit..], limit);
      Parsed([Dropped(stream[..limit])] + p.blocks, p.rest)
    else Parsed([], stream)
  }

  /** Octets that make no block yet. */
  predicate Quiescent(rest: seq<Octet>, limit: nat) { DELIMITER !in rest && |rest| < limit }

  lemma NotBefore(stream: seq<Octet>, i: nat)
    requires i <= |stream| && DELIMITER !in stream[..i]
    ensures forall k :: 0 <= k < i ==> stream[k] != DELIMITER
  {
    forall k | 0 <= k < i ensures stream[k] != DELIMITER {
      assert stream[..i][k] == stream[k];
    }
  }

  lemma FirstIs(stream: seq<Octet>, i: nat)
    requires i < |stream| && stream[i] == DELIMITER && DELIMITER !in stream[..i]
    ensures FirstDelimiter(stream) == i
  {
    hide FirstDelimiter;
    NotBefore(stream, i);
    NotBefore(stream, FirstDelimiter(stream));
  }

  /** A well-formed block at the head of a stream is the first block of its parse. */
  lemma ParseBlock(block: Block, rest: seq<Octet>, limit: nat)
    requires limit > 0 && WellFormed(block, limit)
    ensures var p := Parse(rest, limit);
            Parse(block.octets + rest, limit) == Parsed([block] + p.blocks, p.rest)
  {
    hide FirstDelimiter;
    var s := block.octets;
    var stream := s + rest;
    var w := Window(stream, limit);
    assert stream[..|s|] == s && stream[|s|..] == rest;
    if block.Delivered? {
      var i := |s| - 1;
      assert w[i] == DELIMITER;
      assert w[..i] == s[..i];
      FirstIs(w, i);
    } else {
      assert w == s;
    }
  }

  lemma {:induction false} ParseJoined(blocks: seq<Block>, rest: seq<Octet>, limit: nat)
    requires limit > 0 && AllWellFormed(blocks, limit)
    ensures var p := Parse(rest, limit);
            Parse(Joined(blocks) + rest, limit) == Parsed(blocks + p.blocks, p.rest)
    decreases |blocks|
  {
    var p := Parse(rest, limit);
    if blocks == [] {
      assert Joined(blocks) + rest == rest && blocks + p.blocks == p.blocks;
    } else {
      hide Joined, Parse, WellFormed;
      var front, x := blocks[..|blocks| - 1], blocks[|blocks| - 1];
      FrontLast(blocks);
      JoinedSnoc(front, x);
      Associate(Joined(front), x.octets, rest);
      ParseJoined(front, x.octets + rest, limit);
      ParseBlock(x, rest, limit);
      Associate(front, [x], p.blocks);
    }
  }

  /** Every stream is its parse joined again: well-formed blocks, then octets that make no block yet. */
  lemma {:induction false} ParseFactors(stream: seq<Octet>, limit: nat)
    requires limit > 0
    ensures var p := Parse(stream, limit);
            stream == Joined(p.blocks) + p.rest && AllWellFormed(p.blocks, limit) && Quiescent(p.rest, limit)
    decreases |stream|
  {
    hide FirstDelimiter;
    var w := Window(stream, limit);
    if DELIMITER in w {
      var size := FirstDelimiter(w) + 1;
      HeadFrame(w, size - 1, limit);
      assert w[..size] == stream[..size];
      FactorStep(stream, size, Delivered(stream[..size]), limit);
    } else if |stream| >= limit {
      FactorStep(stream, limit, Dropped(stream[..limit]), limit);
    } else {
      assert Joined([]) + stream == stream;
    }
  }

  lemma {:induction false} FactorStep(stream: seq<Octet>, size: nat, block: Block, limit: nat)
    requires limit > 0 && 0 < size <= |stream| && block.octets == stream[..size] && WellFormed(block, limit)
    ensures var p := Parse(stream[size..], limit);
            && stream == Joined([block] + p.blocks) + p.rest
            && AllWellFormed([block] + p.blocks, limit) && Quiescent(p.rest, limit)
    decreases |stream|, 0
  {
    hide Parse, Joined, WellFormed;
    var p := Parse(stream[size..], limit);
    ParseFactors(stream[size..], limit);
    JoinedCons(block, p.blocks);
    Associate(stream[..size], Joined(p.blocks), p.rest);
    assert stream == stream[..size] + stream[size..];
  }

  lemma {:induction false} JoinedCons(block: Block, blocks: seq<Block>)
    ensures Joined([block] + blocks) == block.octets + Joined(blocks)
    decreases |blocks|
  {
    hide Joined;
    EmptyLog();
    if blocks == [] {
      assert [block] + blocks == [] + [block];
      JoinedSnoc([], block);
      EmptyRight(block.octets);
    } else {
      var front, x := blocks[..|blocks| - 1], blocks[|blocks| - 1];
      FrontLast(blocks);
      JoinedCons(block, front);
      JoinedTurn(block, front, x);
    }
  }

  lemma JoinedTurn(block: Block, front: seq<Block>, x: Block)
    requires Joined([block] + front) == block.octets + Joined(front)
    ensures Joined([block] + (front + [x])) == block.octets + Joined(front + [x])
  {
    hide Joined;
    Associate([block], front, [x]);
    JoinedSnoc(front, x);
    JoinedSnoc([block] + front, x);
    Associate(block.octets, Joined(front), x.octets);
  }

  /** No other cut of the stream into well-formed blocks leaves such a rest. */
  lemma FactorsAreUnique(stream: seq<Octet>, blocks: seq<Block>, rest: seq<Octet>, limit: nat)
    requires limit > 0 && stream == Joined(blocks) + rest && AllWellFormed(blocks, limit) && Quiescent(rest, limit)
    ensures Parse(stream, limit) == Parsed(blocks, rest)
  {
    hide Joined, WellFormed, FirstDelimiter;
    ParseJoined(blocks, rest, limit);
    NothingToParse(rest, limit);
    EmptyRight(blocks);
  }

  lemma NothingToParse(rest: seq<Octet>, limit: nat)
    requires limit > 0 && Quiescent(rest, limit)
    ensures Parse(rest, limit) == Parsed([], rest)
  {
  }

  // ----- The transport -----

  /** While open, the blocks so far and the parse of the buffer make the parse of all that was received. */
  lemma ReceivesAsParsed(m: State)
    requires Reachable(m) && !m.stopped
    ensures |m.rxBuffer| <= m.config.rxBufferMaxSize && m.config.rxBufferMaxSize > 0
    ensures m.received == Joined(BlocksIn(m.log)) + m.rxBuffer
    ensures AllWellFormed(BlocksIn(m.log), m.config.rxBufferMaxSize)
    ensures var buffered := Parse(m.rxBuffer, m.config.rxBufferMaxSize);
            Parse(m.received, m.config.rxBufferMaxSize) == Parsed(BlocksIn(m.log) + buffered.blocks, buffered.rest)
  {
    hide Reachable, WritesInv, Life, ReadsOk, WritesOk, OnWire, Joined, BlocksIn, Parse, AllWellFormed;
    ReachableKeepsInv(m);
    ParseJoined(BlocksIn(m.log), m.rxBuffer, m.config.rxBufferMaxSize);
  }

  /** The read under way has nothing to report: it waits for more octets. */
  predicate Waits(m: State) { Quiescent(m.rxBuffer, m.config.rxBufferMaxSize) }

  /**
    * Two sessions with the same limit that have received the same octets, in any portions and between any
    * other steps, have delivered and dropped the same blocks as far as both have come; once both wait for
    * more, exactly the same ones.
    */
  lemma ChunkingIndependent(m: State, m': State)
    requires Reachable(m) && Reachable(m') && !m.stopped && !m'.stopped
    requires m.config.rxBufferMaxSize == m'.config.rxBufferMaxSize && m.received == m'.received
    ensures BlocksIn(m.log) <= BlocksIn(m'.log) || BlocksIn(m'.log) <= BlocksIn(m.log)
    ensures Waits(m) && Waits(m') ==> BlocksIn(m.log) == BlocksIn(m'.log) && m.rxBuffer == m'.rxBuffer
  {
    hide Reachable, Joined, BlocksIn, Parse, AllWellFormed;
    var limit := m.config.rxBufferMaxSize;
    ReceivesAsParsed(m);
    ReceivesAsParsed(m');
    SamePrefix(BlocksIn(m.log), Parse(m.rxBuffer, limit).blocks, BlocksIn(m'.log), Parse(m'.rxBuffer, limit).blocks);
    if Waits(m) && Waits(m') {
      NothingToParse(m.rxBuffer, limit);
      NothingToParse(m'.rxBuffer, limit);
      EmptyRight(BlocksIn(m.log));
      EmptyRight(BlocksIn(m'.log));
    }
  }

  lemma SamePrefix(a: seq<Block>, b: seq<Block>, c: seq<Block>, d: seq<Block>)
    requires a + b == c + d
    ensures a <= c || c <= a
  {
    if |a| <= |c| {
      assert a == (a + b)[..|a|] && c[..|a|] == (c + d)[..|a|];
    } else {
      assert c == (c + d)[..|c|] && a[..|c|] == (a + b)[..|c|];
    }
  }
}
