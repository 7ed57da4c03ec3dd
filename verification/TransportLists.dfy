/** The lists inside a transport state that its invariant talks about. */
module TransportLists {
  import opened Framing
  import opened Sequences
  import opened TransportModel

  // ----- Writes that threads have claimed but not posted -----

  function ClaimOf(producer: Producer): seq<Packet> {
    if producer.Claimed? then [producer.packet] else []
  }

  function ClaimedIn(producers: seq<Producer>): seq<Packet> {
    if producers == [] then []
    else ClaimedIn(producers[..|producers| - 1]) + ClaimOf(producers[|producers| - 1])
  }

  lemma ClaimedSnoc(producers: seq<Producer>, producer: Producer)
    ensures ClaimedIn(producers + [producer]) == ClaimedIn(producers) + ClaimOf(producer)
  {
    assert (producers + [producer])[..|producers|] == producers;
  }

  lemma Carry(u: seq<Packet>, f: seq<Packet>, x: seq<Packet>, before: seq<Packet>, after: seq<Packet>)
    requires multiset(u) + multiset(before) == multiset(f) + multiset(after)
    ensures multiset(u + x) + multiset(before) == multiset(f + x) + multiset(after)
  {
    assert multiset(u + x) + multiset(before) == multiset(u) + multiset(before) + multiset(x);
    assert multiset(f + x) + multiset(after) == multiset(f) + multiset(after) + multiset(x);
  }

  lemma Replace(f: seq<Packet>, before: seq<Packet>, after: seq<Packet>)
    ensures multiset(f + after) + multiset(before) == multiset(f + before) + multiset(after)
  {
  }

  lemma {:induction false} ClaimedUpdate(producers: seq<Producer>, p: nat, now: Producer)
    requires p < |producers|
    ensures var u := producers[p := now];
            && multiset(ClaimedIn(u)) + multiset(ClaimOf(producers[p]))
               == multiset(ClaimedIn(producers)) + multiset(ClaimOf(now))
            && |ClaimedIn(u)| + |ClaimOf(producers[p])| == |ClaimedIn(producers)| + |ClaimOf(now)|
    decreases |producers|
  {
    hide ClaimedIn, ClaimOf;
    var last := |producers| - 1;
    var front, x := producers[..last], producers[last];
    assert producers == front + [x];
    ClaimedSnoc(front, x);
    if p < last {
      ClaimedUpdate(front, p, now);
      assert producers[p := now] == front[p := now] + [x];
      ClaimedSnoc(front[p := now], x);
      assert front[p] == producers[p];
      Carry(ClaimedIn(front[p := now]), ClaimedIn(front), ClaimOf(x), ClaimOf(producers[p]), ClaimOf(now));
    } else {
      assert producers[p := now] == front + [now];
      ClaimedSnoc(front, now);
      Replace(ClaimedIn(front), ClaimOf(x), ClaimOf(now));
    }
  }

  lemma {:induction false} ClaimedUnmoved(producers: seq<Producer>, p: nat, now: Producer)
    requires p < |producers| && ClaimOf(now) == ClaimOf(producers[p])
    ensures ClaimedIn(producers[p := now]) == ClaimedIn(producers)
    decreases |producers|
  {
    hide ClaimedIn, ClaimOf;
    var last := |producers| - 1;
    var front, x := producers[..last], producers[last];
    assert producers == front + [x];
    ClaimedSnoc(front, x);
    if p < last {
      ClaimedUnmoved(front, p, now);
      assert producers[p := now] == front[p := now] + [x];
      ClaimedSnoc(front[p := now], x);
    } else {
      assert producers[p := now] == front + [now];
      ClaimedSnoc(front, now);
    }
  }

  lemma ClaimedTaken(producers: seq<Producer>, p: nat, packet: Packet)
    requires p < |producers| && !producers[p].Claimed?
    ensures var u := ClaimedIn(producers[p := Claimed(packet)]);
            multiset(u) == multiset(ClaimedIn(producers)) + multiset{packet} && |u| == |ClaimedIn(producers)| + 1
  {
    ClaimedUpdate(producers, p, Claimed(packet));
    hide ClaimedIn;
    assert multiset([packet]) == multiset{packet};
  }

  lemma ClaimedReleased(producers: seq<Producer>, p: nat)
    requires p < |producers| && producers[p].Claimed?
    ensures var u := ClaimedIn(producers[p := Away]);
            && multiset(ClaimedIn(producers)) == multiset(u) + multiset{producers[p].packet}
            && |ClaimedIn(producers)| == |u| + 1
  {
    ClaimedUpdate(producers, p, Away);
    hide ClaimedIn;
    assert multiset([producers[p].packet]) == multiset{producers[p].packet};
  }

  lemma {:induction false} ClaimedMember(producers: seq<Producer>, packet: Packet)
    ensures packet in ClaimedIn(producers) <==> Claimed(packet) in producers
  {
    if producers != [] {
      var last := |producers| - 1;
      ClaimedMember(producers[..last], packet);
      assert producers == producers[..last] + [producers[last]];
    }
  }

  lemma {:induction false} NoneClaimed(producers: seq<Producer>)
    requires forall p :: 0 <= p < |producers| ==> producers[p].Away?
    ensures ClaimedIn(producers) == []
  {
    if producers != [] {
      NoneClaimed(producers[..|producers| - 1]);
    }
  }

  // ----- Writes waiting on the strand -----

  function WaitOf(event: Event): seq<Packet> {
    if event.WriteEvent? then [event.packet] else []
  }

  function WaitingIn(queue: seq<Event>): seq<Packet> {
    if queue == [] then [] else WaitOf(queue[0]) + WaitingIn(queue[1..])
  }

  lemma WaitingCons(event: Event, queue: seq<Event>)
    ensures WaitingIn([event] + queue) == WaitOf(event) + WaitingIn(queue)
  {
    assert ([event] + queue)[1..] == queue;
  }

  lemma {:induction false} WaitingSnoc(queue: seq<Event>, event: Event)
    ensures WaitingIn(queue + [event]) == WaitingIn(queue) + WaitOf(event)
    decreases |queue|
  {
    if queue == [] {
      assert queue + [event] == [event] + [];
      WaitingCons(event, []);
      EmptyRight(WaitOf(event));
    } else {
      hide WaitingIn, WaitOf;
      var x, rest := queue[0], queue[1..];
      assert queue == [x] + rest;
      WaitingSnoc(rest, event);
      Associate([x], rest, [event]);
      WaitingCons(x, rest);
      WaitingCons(x, rest + [event]);
      Associate(WaitOf(x), WaitingIn(rest), WaitOf(event));
    }
  }

  lemma {:induction false} NoneWaiting(queue: seq<Event>)
    requires forall k :: 0 <= k < |queue| ==> !queue[k].WriteEvent?
    ensures WaitingIn(queue) == []
  {
    if queue != [] {
      NoneWaiting(queue[1..]);
    }
  }

  // ----- Operations of the current generation -----

  function CurrentOf(op: Op, generation: nat): seq<Op> {
    if op.generation == generation then [op] else []
  }

  function Current(ops: seq<Op>, generation: nat): seq<Op> {
    if ops == [] then []
    else Current(ops[..|ops| - 1], generation) + CurrentOf(ops[|ops| - 1], generation)
  }

  lemma CurrentSnoc(ops: seq<Op>, op: Op, generation: nat)
    ensures Current(ops + [op], generation) == Current(ops, generation) + CurrentOf(op, generation)
  {
    assert (ops + [op])[..|ops|] == ops;
  }

  lemma {:induction false} CurrentConcat(a: seq<Op>, b: seq<Op>, generation: nat)
    ensures Current(a + b, generation) == Current(a, generation) + Current(b, generation)
    decreases |b|
  {
    if b == [] {
      assert a + b == a;
    } else {
      hide Current, CurrentOf;
      var front, x := b[..|b| - 1], b[|b| - 1];
      CurrentConcat(a, front, generation);
      FrontLast(b);
      Associate(a, front, [x]);
      CurrentSnoc(front, x, generation);
      CurrentSnoc(a + front, x, generation);
      Associate(Current(a, generation), Current(front, generation), CurrentOf(x, generation));
    }
  }

  /** The current operations are split around the one at index i. */
  lemma CurrentAround(ops: seq<Op>, i: nat, generation: nat)
    requires i < |ops|
    ensures Current(ops, generation)
         == Current(ops[..i], generation) + CurrentOf(ops[i], generation) + Current(ops[i + 1..], generation)
    ensures Current(Without(ops, i), generation) == Current(ops[..i], generation) + Current(ops[i + 1..], generation)
  {
    assert ops == ops[..i] + [ops[i]] + ops[i + 1..];
    CurrentConcat(ops[..i] + [ops[i]], ops[i + 1..], generation);
    CurrentSnoc(ops[..i], ops[i], generation);
    CurrentConcat(ops[..i], ops[i + 1..], generation);
  }

  lemma CurrentUpdate(ops: seq<Op>, i: nat, now: Op, generation: nat)
    requires i < |ops| && now.generation == ops[i].generation
    ensures Current(ops[i := now], generation)
         == Current(ops[..i], generation) + CurrentOf(now, generation) + Current(ops[i + 1..], generation)
  {
    var u := ops[i := now];
    CurrentAround(u, i, generation);
    assert u[..i] == ops[..i] && u[i + 1..] == ops[i + 1..];
  }

  lemma {:induction false} NoneCurrent(ops: seq<Op>, generation: nat)
    requires forall i :: 0 <= i < |ops| ==> ops[i].generation != generation
    ensures Current(ops, generation) == []
  {
    if ops != [] {
      NoneCurrent(ops[..|ops| - 1], generation);
    }
  }

  // ----- What a log of notices says -----

  function WrittenOf(n: Notice): seq<Packet> {
    if n.WriteNotice? && n.result.Written? then [n.packet] else []
  }

  /** The packets given the outcome Written, in order. */
  function WrittenIn(log: seq<Notice>): seq<Packet> {
    if log == [] then [] else WrittenIn(log[..|log| - 1]) + WrittenOf(log[|log| - 1])
  }

  function SettledOf(n: Notice): seq<Packet> {
    if n.WriteNotice? then [n.packet] else []
  }

  /** The packets given any outcome, in order. */
  function SettledIn(log: seq<Notice>): seq<Packet> {
    if log == [] then [] else SettledIn(log[..|log| - 1]) + SettledOf(log[|log| - 1])
  }

  /** A piece of the received stream that has left the buffer. */
  datatype Block = Delivered(octets: seq<Octet>) | Dropped(octets: seq<Octet>)

  function BlockOf(n: Notice): seq<Block> {
    if n.FrameNotice? then [Delivered(n.frame)] else if n.RecoverableNotice? then [Dropped(n.dropped)] else []
  }

  /** What has left the receive buffer, in order. */
  function BlocksIn(log: seq<Notice>): seq<Block> {
    if log == [] then [] else BlocksIn(log[..|log| - 1]) + BlockOf(log[|log| - 1])
  }

  lemma LogSnoc(log: seq<Notice>, n: Notice)
    ensures WrittenIn(log + [n]) == WrittenIn(log) + WrittenOf(n)
    ensures SettledIn(log + [n]) == SettledIn(log) + SettledOf(n)
    ensures BlocksIn(log + [n]) == BlocksIn(log) + BlockOf(n)
  {
    assert (log + [n])[..|log|] == log;
  }

  lemma {:induction false} SettledConcat(a: seq<Notice>, b: seq<Notice>)
    ensures SettledIn(a + b) == SettledIn(a) + SettledIn(b)
    decreases |b|
  {
    if b == [] {
      assert a + b == a;
    } else {
      hide SettledIn, WrittenIn, BlocksIn, SettledOf, WrittenOf, BlockOf;
      var front, x := b[..|b| - 1], b[|b| - 1];
      SettledConcat(a, front);
      FrontLast(b);
      Associate(a, front, [x]);
      LogSnoc(front, x);
      LogSnoc(a + front, x);
      Associate(SettledIn(a), SettledIn(front), SettledOf(x));
    }
  }

  /** The octets of packets one after the other. */
  function BytesOf(packets: seq<Packet>): seq<Octet> {
    if packets == [] then [] else BytesOf(packets[..|packets| - 1]) + packets[|packets| - 1].bytes
  }

  lemma BytesSnoc(packets: seq<Packet>, packet: Packet)
    ensures BytesOf(packets + [packet]) == BytesOf(packets) + packet.bytes
  {
    assert (packets + [packet])[..|packets|] == packets;
  }
}
