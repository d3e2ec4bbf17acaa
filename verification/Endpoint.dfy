/** One worker's end of its two TCP connections: receive caches and retried sends.

    The driver is an oracle. A list of replies says what it answers to the calls made before the
    deadline, so a contract below holds for every batching and every timing. */
module Endpoint {
  import opened Payload

  type Body = seq<byte>

  datatype Message = Message(connection: nat, payload: Body)

  datatype PollReply = Quiet | PollError | Batch(messages: seq<Message>)

  datatype SendReply = Admitted | Busy(consumed: bool) | SendError

  /** A body, or the exception of an expired deadline or of anything else. */
  datatype Outcome = Received(body: Body) | Expired | Threw

  // ----- One receive, as a function of the cache and the driver's replies -----

  function Payloads(messages: seq<Message>): (r: seq<Body>)
    ensures |r| == |messages| && forall i :: 0 <= i < |r| ==> r[i] == messages[i].payload
  {
    seq(|messages|, i requires 0 <= i < |messages| => messages[i].payload)
  }

  /** The messages in front of the first one of another connection. */
  function Own(connection: nat, messages: seq<Message>): (r: seq<Message>)
    ensures |r| <= |messages| && forall i :: 0 <= i < |r| ==> r[i] == messages[i] && r[i].connection == connection
    ensures |r| < |messages| ==> messages[|r|].connection != connection
  {
    if messages == [] || messages[0].connection != connection then []
    else [messages[0]] + Own(connection, messages[1..])
  }

  predicate GoodSize(limit: nat, messages: seq<Message>) {
    1 <= |messages| <= limit
  }

  /** What one reply puts into the cache. */
  function Taken(connection: nat, limit: nat, reply: PollReply): seq<Body> {
    if reply.Batch? && GoodSize(limit, reply.messages) then Payloads(Own(connection, reply.messages)) else []
  }

  /** What a list of replies puts into the cache, in order. */
  function TakenAll(connection: nat, limit: nat, replies: seq<PollReply>): seq<Body> {
    if replies == [] then [] else Taken(connection, limit, replies[0]) + TakenAll(connection, limit, replies[1..])
  }

  /** No correct driver gives such a reply. */
  predicate Bad(connection: nat, limit: nat, reply: PollReply) {
    || reply.PollError?
    || (reply.Batch? && !(GoodSize(limit, reply.messages) && Own(connection, reply.messages) == reply.messages))
  }

  /** An error, an empty batch, one above the limit, or one with a message of another connection. */
  lemma BadIff(connection: nat, limit: nat, reply: PollReply)
    ensures Bad(connection, limit, reply) <==>
            || reply == PollError
            || (reply.Batch? && (|reply.messages| == 0 || |reply.messages| > limit
                                 || exists m :: m in reply.messages && m.connection != connection))
  {
    if reply.Batch? {
      var messages, own := reply.messages, Own(connection, reply.messages);
      if |own| < |messages| {
        assert messages[|own|] in messages;
      } else {
        assert own == messages;
      }
    }
  }

  /** The outcome of a receive, the polls it made, and the cache it leaves. */
  datatype Turn = Turn(outcome: Outcome, used: nat, cache: seq<Body>)

  function Serve(connection: nat, limit: nat, cache: seq<Body>, replies: seq<PollReply>): (r: Turn)
    ensures r.used <= |replies|
    decreases |replies|
  {
    if cache != [] then Turn(Received(cache[0]), 0, cache[1..])
    else if replies == [] then Turn(Expired, 0, [])
    else if Bad(connection, limit, replies[0]) then Turn(Threw, 1, Taken(connection, limit, replies[0]))
    else
      var r := Serve(connection, limit, Taken(connection, limit, replies[0]), replies[1..]);
      r.(used := r.used + 1)
  }

  function BodyOf(outcome: Outcome): seq<Body> {
    if outcome.Received? then [outcome.body] else []
  }

  predicate Quiets(replies: seq<PollReply>) {
    forall i :: 0 <= i < |replies| ==> replies[i].Quiet?
  }

  /** What a receive returns and what it leaves is what was cached and what the driver handed over, in order. */
  lemma {:induction false} ServeConserves(connection: nat, limit: nat, cache: seq<Body>, replies: seq<PollReply>)
    ensures var r := Serve(connection, limit, cache, replies);
            cache + TakenAll(connection, limit, replies[..r.used]) == BodyOf(r.outcome) + r.cache
    decreases |replies|
  {
    var r := Serve(connection, limit, cache, replies);
    if cache == [] && replies != [] {
      var first := Taken(connection, limit, replies[0]);
      if Bad(connection, limit, replies[0]) {
        assert replies[..1][1..] == [];
      } else {
        ServeConserves(connection, limit, first, replies[1..]);
        assert replies[..r.used][1..] == replies[1..][..r.used - 1];
      }
    }
  }

  lemma ServePolls(connection: nat, limit: nat, replies: seq<PollReply>)
    requires replies != [] && !Bad(connection, limit, replies[0])
    ensures var r := Serve(connection, limit, Taken(connection, limit, replies[0]), replies[1..]);
            Serve(connection, limit, [], replies) == r.(used := r.used + 1)
  {
    hide Bad, Taken;
  }

  lemma ServesCached(connection: nat, limit: nat, cache: seq<Body>, replies: seq<PollReply>)
    requires cache != [] || replies == []
    ensures var r := Serve(connection, limit, cache, replies);
            r == if cache != [] then Turn(Received(cache[0]), 0, cache[1..]) else Turn(Expired, 0, [])
  {}

  lemma GoodBatchFills(connection: nat, limit: nat, reply: PollReply)
    requires !Bad(connection, limit, reply)
    ensures Taken(connection, limit, reply) == [] <==> reply.Quiet?
  {
    hide Own;
  }

  lemma ServeThrows(connection: nat, limit: nat, replies: seq<PollReply>)
    requires replies != [] && Bad(connection, limit, replies[0])
    ensures Serve(connection, limit, [], replies) == Turn(Threw, 1, Taken(connection, limit, replies[0]))
    ensures !replies[0].Quiet?
  {
    hide Taken, Own;
  }

  /** A cached body is returned without a poll. With an empty cache the call expires exactly when all its polls are
      quiet, and throws exactly when the first poll that is not quiet is bad; otherwise that poll brings the body. */
  lemma {:induction false} ServeOutcome(connection: nat, limit: nat, cache: seq<Body>, replies: seq<PollReply>)
    ensures var r := Serve(connection, limit, cache, replies);
            && (cache != [] ==> r == Turn(Received(cache[0]), 0, cache[1..]))
            && (r.outcome.Expired? <==> cache == [] && Quiets(replies))
            && (r.outcome.Expired? ==> r.used == |replies| && r.cache == [])
            && (cache == [] && !r.outcome.Expired? ==>
                  && r.used > 0 && Quiets(replies[..r.used - 1]) && !replies[r.used - 1].Quiet?
                  && (r.outcome.Threw? <==> Bad(connection, limit, replies[r.used - 1])))
    decreases |replies|
  {
    hide Serve, Bad, Taken;
    if cache != [] || replies == [] {
      ServesCached(connection, limit, cache, replies);
    } else if Bad(connection, limit, replies[0]) {
      ServeThrows(connection, limit, replies);
    } else {
      var taken := Taken(connection, limit, replies[0]);
      var r := Serve(connection, limit, cache, replies);
      ServePolls(connection, limit, replies);
      GoodBatchFills(connection, limit, replies[0]);
      ServeOutcome(connection, limit, taken, replies[1..]);
      QuietsSplit(replies);
      if replies[0].Quiet? && !r.outcome.Expired? {
        QuietsSplit(replies[..r.used - 1]);
        assert replies[..r.used - 1][1..] == replies[1..][..r.used - 2];
      }
    }
  }

  lemma QuietsSplit(replies: seq<PollReply>)
    requires replies != []
    ensures Quiets(replies) <==> replies[0].Quiet? && Quiets(replies[1..])
  {
    if replies[0].Quiet? && Quiets(replies[1..]) {
      forall i | 0 <= i < |replies| ensures replies[i].Quiet? {
        if i > 0 { assert replies[i] == replies[1..][i - 1]; }
      }
    }
  }

  // ----- What travels on the wire -----

  /** The replies cut the bodies of `wire` into consecutive batches, each non-empty, within the limit and carrying its
      bodies in wire order; in between the driver may have nothing. */
  ghost predicate Cuts(connection: nat, limit: nat, replies: seq<PollReply>, wire: seq<Body>) {
    if replies == [] then wire == []
    else
      match replies[0]
      case Quiet => Cuts(connection, limit, replies[1..], wire)
      case PollError => false
      case Batch(messages) =>
        && 1 <= |messages| <= limit && |messages| <= |wire|
        && (forall i :: 0 <= i < |messages| ==> messages[i] == Message(connection, wire[i]))
        && Cuts(connection, limit, replies[1..], wire[|messages|..])
  }

  /** A correct batch goes into the cache body by body, in wire order. */
  lemma BatchOnTheWire(connection: nat, limit: nat, messages: seq<Message>, wire: seq<Body>)
    requires 1 <= |messages| <= limit && |messages| <= |wire|
    requires forall i :: 0 <= i < |messages| ==> messages[i] == Message(connection, wire[i])
    ensures !Bad(connection, limit, Batch(messages))
    ensures Taken(connection, limit, Batch(messages)) == wire[..|messages|]
  {
    assert Own(connection, messages) == messages;
  }

  /** One poll of a cut is good, and what it puts into the cache is the next part of the wire. */
  lemma PollOnTheWire(connection: nat, limit: nat, polls: seq<PollReply>, wire: seq<Body>) returns (rest: seq<Body>)
    requires polls != [] && Cuts(connection, limit, polls, wire)
    ensures !Bad(connection, limit, polls[0]) && Taken(connection, limit, polls[0]) + rest == wire
    ensures Cuts(connection, limit, polls[1..], rest)
    ensures polls[0].Batch? || rest == wire
  {
    hide Own;
    rest := wire;
    if polls[0].Batch? {
      BatchOnTheWire(connection, limit, polls[0].messages, wire);
      rest := wire[|polls[0].messages|..];
    }
  }

  /** A receive that is offered the first part of a cut takes bodies off the wire in order: what it returns and keeps
      is what was cached followed by the next bodies of the wire, and the polls it left cut what is left. It expires
      only when nothing was cached and all it was offered is quiet. */
  lemma {:induction false} ServeFollowsTheWire(connection: nat, limit: nat, cache: seq<Body>, polls: seq<PollReply>,
                                               n: nat, wire: seq<Body>) returns (left: seq<Body>)
    requires n <= |polls| && Cuts(connection, limit, polls, wire)
    ensures var r := Serve(connection, limit, cache, polls[..n]);
            && !r.outcome.Threw? && BodyOf(r.outcome) + r.cache + left == cache + wire
            && Cuts(connection, limit, polls[r.used..], left)
            && (r.outcome.Expired? ==> cache == r.cache == [] && r.used == n && left == wire)
    decreases n
  {
    hide Bad, Taken, Serve, Cuts;
    var r := Serve(connection, limit, cache, polls[..n]);
    if cache == [] && n > 0 {
      var rest := PollOnTheWire(connection, limit, polls, wire);
      ServePolls(connection, limit, polls[..n]);
      assert polls[..n][1..] == polls[1..][..n - 1];
      left := ServeFollowsTheWire(connection, limit, Taken(connection, limit, polls[0]), polls[1..], n - 1, rest);
      assert polls[1..][r.used - 1..] == polls[r.used..];
    } else {
      left := wire;
      ServesCached(connection, limit, cache, polls[..n]);
      assert polls[0..] == polls;
    }
  }

  /** Whatever wire the replies cut: the receive returns and keeps the next bodies of it, in order, and returns none
      exactly when there is none. */
  ghost predicate InWireOrder(connection: nat, limit: nat, cache: seq<Body>, replies: seq<PollReply>, outcome: Outcome,
                              cache': seq<Body>)
  {
    forall wire :: Cuts(connection, limit, replies, wire) ==>
      && !outcome.Threw? && BodyOf(outcome) + cache' <= cache + wire
      && (outcome.Expired? <==> cache + wire == [])
  }

  lemma ServesInWireOrder(connection: nat, limit: nat, cache: seq<Body>, replies: seq<PollReply>)
    ensures var r := Serve(connection, limit, cache, replies);
            InWireOrder(connection, limit, cache, replies, r.outcome, r.cache)
  {
    hide Serve, Cuts;
    var r := Serve(connection, limit, cache, replies);
    forall wire | Cuts(connection, limit, replies, wire)
      ensures !r.outcome.Threw? && BodyOf(r.outcome) + r.cache <= cache + wire
      ensures r.outcome.Expired? <==> cache + wire == []
    {
      assert replies[..|replies|] == replies;
      var left := ServeFollowsTheWire(connection, limit, cache, replies, |replies|, wire);
      assert BodyOf(r.outcome) + r.cache + left == cache + wire;
      if r.outcome.Expired? { NothingLeft(connection, limit, replies, left); }
    }
  }

  lemma NothingLeft(connection: nat, limit: nat, replies: seq<PollReply>, left: seq<Body>)
    requires Cuts(connection, limit, replies[|replies|..], left)
    ensures left == []
  {}

  // ----- Receive caches -----

  /** The received bodies of one connection that no caller has taken yet. */
  class ReceiveCache {
    var cache: seq<Body>

    constructor ()
      ensures cache == []
    {
      cache := [];
    }

    /** Appends the messages of one batch; stops at a message of another connection. */
    method Append(connection: nat, messages: seq<Message>) returns (ok: bool)
      modifies this
      ensures ok <==> Own(connection, messages) == messages
      ensures var n := |Own(connection, messages)|;
              && |cache| == |old(cache)| + n && old(cache) <= cache
              && forall i :: 0 <= i < n ==> cache[|old(cache)| + i] == messages[i].payload
    {
      ghost var own := Own(connection, messages);
      for i := 0 to |messages|
        invariant i <= |own| && cache == old(cache) + Payloads(own[..i])
      {
        if messages[i].connection != connection {
          assert own[..i] == own;
          return false;
        }
        assert Payloads(own[..i + 1]) == Payloads(own[..i]) + [messages[i].payload];
        cache := cache + [messages[i].payload];
      }
      assert own[..|messages|] == own == messages;
      return true;
    }

    /** The next body of the connection, whatever batches the driver makes of its stream. */
    method Receive(connection: nat, limit: nat, replies: seq<PollReply>) returns (outcome: Outcome, used: nat)
      modifies this
      ensures Turn(outcome, used, cache) == Serve(connection, limit, old(cache), replies)
      ensures old(cache) + TakenAll(connection, limit, replies[..used]) == BodyOf(outcome) + cache
      ensures InWireOrder(connection, limit, old(cache), replies, outcome, cache)
    {
      hide InWireOrder, Cuts, TakenAll;
      ServeConserves(connection, limit, cache, replies);
      ServesInWireOrder(connection, limit, cache, replies);
      used := 0;
      while used < |replies| && cache == []
        invariant used <= |replies|
        invariant var r := Serve(connection, limit, cache, replies[used..]);
                  r.(used := r.used + used) == Serve(connection, limit, old(cache), replies)
      {
        var reply := replies[used];
        assert replies[used..][1..] == replies[used + 1..];
        used := used + 1;
        if reply.Quiet? {
          continue;
        }
        if reply.PollError? {
          return Threw, used;
        }
        if |reply.messages| == 0 || |reply.messages| > limit {
          return Threw, used;
        }
        var ok := Append(connection, reply.messages);
        assert cache == Taken(connection, limit, reply);
        if !ok {
          return Threw, used;
        }
      }
      if cache == [] {
        return Expired, used;
      }
      var body := cache[0];
      cache := cache[1..];
      return Received(body), used;
    }
  }

  // ----- The two connections of a worker -----

  datatype Side = Input | Output

  datatype Ends = Ends(input: Option<nat>, output: Option<nat>, limit: nat)

  /** Which connection's cache serves a connection id. */
  function SideOf(e: Ends, connection: nat): (r: Option<Side>)
    ensures r.None? <==> e.input != Some(connection) && e.output != Some(connection)
  {
    if e.input == Some(connection) then Some(Input) else if e.output == Some(connection) then Some(Output) else None
  }

  datatype Caches = Caches(input: seq<Body>, output: seq<Body>)

  function CacheAt(c: Caches, side: Side): seq<Body> {
    if side == Input then c.input else c.output
  }

  function WithCache(c: Caches, side: Side, cache: seq<Body>): Caches {
    if side == Input then c.(input := cache) else c.(output := cache)
  }

  class MinoTcpPipeline {
    const ends: Ends
    const inputCache: ReceiveCache
    const outputCache: ReceiveCache

    constructor (input: Option<nat>, output: Option<nat>, batch: nat)
      ensures ends == Ends(input, output, batch) && Valid() && Contents() == Caches([], [])
      ensures fresh(inputCache) && fresh(outputCache)
    {
      ends := Ends(input, output, batch);
      inputCache := new ReceiveCache();
      outputCache := new ReceiveCache();
    }

    ghost predicate Valid() {
      inputCache != outputCache
    }

    ghost function Contents(): Caches
      reads inputCache, outputCache
    {
      Caches(inputCache.cache, outputCache.cache)
    }

    /** Serves the named connection as `Serve` says and leaves the other connection's bodies alone; a connection the
        worker does not have throws and changes nothing. */
    method Receive(connection: nat, replies: seq<PollReply>) returns (outcome: Outcome, used: nat)
      requires Valid()
      modifies inputCache, outputCache
      ensures (outcome, used, Contents()) == CallOnce(ends, old(Contents()), Call(connection, replies))
      ensures var side := SideOf(ends, connection);
              side.Some? ==> InWireOrder(connection, ends.limit, CacheAt(old(Contents()), side.value), replies, outcome,
                                         CacheAt(Contents(), side.value))
    {
      hide InWireOrder;
      var side := SideOf(ends, connection);
      if side.None? {
        return Threw, 0;
      }
      var cache := if side.value == Input then inputCache else outputCache;
      outcome, used := cache.Receive(connection, ends.limit, replies);
    }
  }

  // ----- Whole runs of receives -----

  datatype Call = Call(connection: nat, replies: seq<PollReply>)

  function CallOnce(e: Ends, c: Caches, call: Call): (r: (Outcome, nat, Caches))
    ensures r.1 <= |call.replies|
  {
    var side := SideOf(e, call.connection);
    if side.None? then (Threw, 0, c)
    else
      var r := Serve(call.connection, e.limit, CacheAt(c, side.value), call.replies);
      (r.outcome, r.used, WithCache(c, side.value, r.cache))
  }

  predicate Within(calls: seq<Call>, used: seq<nat>) {
    |calls| == |used| && forall i :: 0 <= i < |calls| ==> used[i] <= |calls[i].replies|
  }

  lemma WithinGrows(calls: seq<Call>, used: seq<nat>, more: nat)
    requires calls != [] && Within(calls[..|calls| - 1], used) && more <= |calls[|calls| - 1].replies|
    ensures Within(calls, used + [more])
  {
    var all, n := used + [more], |calls| - 1;
    forall i | 0 <= i < |calls| ensures all[i] <= |calls[i].replies| {
      if i < n { assert calls[..n][i] == calls[i]; }
    }
  }

  /** The outcomes of a series of calls, the polls they made, and the caches after it. */
  function Series(e: Ends, c: Caches, calls: seq<Call>): (r: (seq<Outcome>, seq<nat>, Caches))
    ensures |r.0| == |calls| && Within(calls, r.1)
    decreases |calls|
  {
    if calls == [] then ([], [], c)
    else
      var n := |calls| - 1;
      var before := Series(e, c, calls[..n]);
      var last := CallOnce(e, before.2, calls[n]);
      WithinGrows(calls, before.1, last.1);
      (before.0 + [last.0], before.1 + [last.1], last.2)
  }

  /** The bodies that calls on one side returned, in order. */
  function Bodies(e: Ends, side: Side, calls: seq<Call>, outcomes: seq<Outcome>): seq<Body>
    requires |calls| == |outcomes|
  {
    if calls == [] then []
    else
      var n := |calls| - 1;
      Bodies(e, side, calls[..n], outcomes[..n])
      + if SideOf(e, calls[n].connection) == Some(side) then BodyOf(outcomes[n]) else []
  }

  /** What the driver handed over during the calls on one side, in order. */
  function Stream(e: Ends, side: Side, calls: seq<Call>, used: seq<nat>): seq<Body>
    requires Within(calls, used)
  {
    if calls == [] then []
    else
      var n := |calls| - 1;
      Stream(e, side, calls[..n], used[..n])
      + if SideOf(e, calls[n].connection) == Some(side)
        then TakenAll(calls[n].connection, e.limit, calls[n].replies[..used[n]]) else []
  }

  /** The number of polls that the calls on one side made. */
  function PollsOn(e: Ends, side: Side, calls: seq<Call>, used: seq<nat>): nat
    requires Within(calls, used)
  {
    if calls == [] then 0
    else
      var n := |calls| - 1;
      PollsOn(e, side, calls[..n], used[..n]) + if SideOf(e, calls[n].connection) == Some(side) then used[n] else 0
  }

  lemma SeriesStarts(e: Ends, c: Caches, calls: seq<Call>)
    ensures Series(e, c, calls[..0]) == ([], [], c)
    ensures Bodies(e, Input, calls[..0], []) == Bodies(e, Output, calls[..0], []) == []
  {}

  lemma SeriesNext(e: Ends, c: Caches, calls: seq<Call>, i: nat)
    requires i < |calls|
    ensures var before := Series(e, c, calls[..i]);
            var last := CallOnce(e, before.2, calls[i]);
            Series(e, c, calls[..i + 1]) == (before.0 + [last.0], before.1 + [last.1], last.2)
  {
    hide CallOnce;
    assert calls[..i + 1][..i] == calls[..i];
  }

  lemma BodiesNext(e: Ends, side: Side, calls: seq<Call>, i: nat, outcomes: seq<Outcome>, outcome: Outcome)
    requires i < |calls| && |outcomes| == i
    ensures Bodies(e, side, calls[..i + 1], outcomes + [outcome])
            == Bodies(e, side, calls[..i], outcomes)
               + if SideOf(e, calls[i].connection) == Some(side) then BodyOf(outcome) else []
  {
    assert calls[..i + 1][..i] == calls[..i] && (outcomes + [outcome])[..i] == outcomes;
  }

  /** Any interleaving of receives on the two connections, call by call. */
  method ReceiveInterleaved(p: MinoTcpPipeline, calls: seq<Call>)
    returns (outcomes: seq<Outcome>, used: seq<nat>, fromInput: seq<Body>, fromOutput: seq<Body>)
    requires p.Valid()
    modifies p.inputCache, p.outputCache
    ensures (outcomes, used, p.Contents()) == Series(p.ends, old(p.Contents()), calls)
    ensures fromInput == Bodies(p.ends, Input, calls, outcomes)
    ensures fromOutput == Bodies(p.ends, Output, calls, outcomes)
  {
    hide InWireOrder, CallOnce, Series, Bodies;
    SeriesStarts(p.ends, p.Contents(), calls);
    outcomes, used, fromInput, fromOutput := [], [], [], [];
    for i := 0 to |calls|
      invariant (outcomes, used, p.Contents()) == Series(p.ends, old(p.Contents()), calls[..i])
      invariant fromInput == Bodies(p.ends, Input, calls[..i], outcomes)
      invariant fromOutput == Bodies(p.ends, Output, calls[..i], outcomes)
    {
      SeriesNext(p.ends, old(p.Contents()), calls, i);
      var outcome, polls := p.Receive(calls[i].connection, calls[i].replies);
      BodiesNext(p.ends, Input, calls, i, outcomes, outcome);
      BodiesNext(p.ends, Output, calls, i, outcomes, outcome);
      outcomes, used := outcomes + [outcome], used + [polls];
      if outcome.Received? {
        var side := SideOf(p.ends, calls[i].connection);
        if side == Some(Input) {
          fromInput := fromInput + [outcome.body];
        } else if side == Some(Output) {
          fromOutput := fromOutput + [outcome.body];
        }
      }
    }
    assert calls[..|calls|] == calls;
  }

  const EMPTY := Caches([], [])

  /** What a side returned over a whole series, and what the driver handed over on it. */
  function Returned(e: Ends, c: Caches, calls: seq<Call>, side: Side): seq<Body> {
    Bodies(e, side, calls, Series(e, c, calls).0)
  }

  function HandedOver(e: Ends, c: Caches, calls: seq<Call>, side: Side): seq<Body> {
    Stream(e, side, calls, Series(e, c, calls).1)
  }

  function PollsMade(e: Ends, c: Caches, calls: seq<Call>, side: Side): nat {
    PollsOn(e, side, calls, Series(e, c, calls).1)
  }

  function After(e: Ends, c: Caches, calls: seq<Call>): Caches {
    Series(e, c, calls).2
  }

  /** One more call. */
  lemma SeriesGrows(e: Ends, c: Caches, calls: seq<Call>, call: Call, side: Side)
    ensures var last := CallOnce(e, After(e, c, calls), call);
            var mine := SideOf(e, call.connection) == Some(side);
            && After(e, c, calls + [call]) == last.2 && last.1 <= |call.replies|
            && Returned(e, c, calls + [call], side)
               == Returned(e, c, calls, side) + (if mine then BodyOf(last.0) else [])
            && HandedOver(e, c, calls + [call], side)
               == HandedOver(e, c, calls, side)
                  + (if mine then TakenAll(call.connection, e.limit, call.replies[..last.1]) else [])
            && PollsMade(e, c, calls + [call], side) == PollsMade(e, c, calls, side) + (if mine then last.1 else 0)
            && OnlySide(e, side, calls + [call]) == OnlySide(e, side, calls) + (if mine then [call] else [])
  {
    hide Serve, TakenAll;
    var more := calls + [call];
    assert more[..|more| - 1] == calls;
    var r, before := Series(e, c, more), Series(e, c, calls);
    assert r.0[..|calls|] == before.0 && r.1[..|calls|] == before.1;
  }

  /** On each side of every series of calls, what was cached and handed over is what was returned and is still cached:
      no body is lost, repeated, reordered, or moved to the other connection. */
  lemma {:induction false} SeriesConserves(e: Ends, c: Caches, calls: seq<Call>, side: Side)
    ensures CacheAt(c, side) + HandedOver(e, c, calls, side)
            == Returned(e, c, calls, side) + CacheAt(After(e, c, calls), side)
    decreases |calls|
  {
    if calls != [] {
      hide Serve, TakenAll, Returned, HandedOver, After;
      var n := |calls| - 1;
      var call := calls[n];
      assert calls == calls[..n] + [call];
      SeriesConserves(e, c, calls[..n], side);
      SeriesGrows(e, c, calls[..n], call, side);
      if SideOf(e, call.connection) == Some(side) {
        var cache := CacheAt(After(e, c, calls[..n]), side);
        var turn := Serve(call.connection, e.limit, cache, call.replies);
        ServeConserves(call.connection, e.limit, cache, call.replies);
        Splice(CacheAt(c, side), HandedOver(e, c, calls[..n], side), Returned(e, c, calls[..n], side), cache,
               TakenAll(call.connection, e.limit, call.replies[..turn.used]), BodyOf(turn.outcome), turn.cache);
      } else {
        var handed, returned := HandedOver(e, c, calls[..n], side), Returned(e, c, calls[..n], side);
        assert handed + [] == handed && returned + [] == returned;
      }
    }
  }

  lemma Splice(start: seq<Body>, handed: seq<Body>, returned: seq<Body>, cache: seq<Body>, more: seq<Body>,
               body: seq<Body>, left: seq<Body>)
    requires start + handed == returned + cache && cache + more == body + left
    ensures start + (handed + more) == (returned + body) + left
  {
    assert start + (handed + more) == (start + handed) + more;
    assert (returned + cache) + more == returned + (cache + more);
    assert returned + (body + left) == (returned + body) + left;
  }

  /** The calls of one side on their own. */
  function OnlySide(e: Ends, side: Side, calls: seq<Call>): seq<Call> {
    if calls == [] then []
    else
      var n := |calls| - 1;
      OnlySide(e, side, calls[..n]) + if SideOf(e, calls[n].connection) == Some(side) then [calls[n]] else []
  }

  /** The calls on the other connection make no difference: a side returns and keeps what it would without them. */
  lemma {:induction false} SidesDoNotMix(e: Ends, c: Caches, calls: seq<Call>, side: Side)
    ensures var own := OnlySide(e, side, calls);
            && Returned(e, c, calls, side) == Returned(e, c, own, side)
            && CacheAt(After(e, c, calls), side) == CacheAt(After(e, c, own), side)
    decreases |calls|
  {
    if calls != [] {
      hide Serve, TakenAll, Returned, HandedOver, After;
      var n := |calls| - 1;
      assert calls == calls[..n] + [calls[n]];
      SidesDoNotMix(e, c, calls[..n], side);
      SeriesGrows(e, c, calls[..n], calls[n], side);
      var own := OnlySide(e, side, calls[..n]);
      if SideOf(e, calls[n].connection) == Some(side) {
        SeriesGrows(e, c, own, calls[n], side);
      } else {
        assert own + [] == own;
      }
    }
  }

  // ----- Any batching, any timing, any interleaving -----

  /** The driver of one side answers its polls with `polls`, whichever calls make them: each call on the side is offered
      as many of the polls not yet made as its deadline leaves time for. */
  ghost predicate Fed(e: Ends, calls: seq<Call>, side: Side, polls: seq<PollReply>)
    decreases |calls|
  {
    calls == []
    || var n := |calls| - 1;
       && Fed(e, calls[..n], side, polls)
       && (SideOf(e, calls[n].connection) == Some(side) ==>
             var made := PollsMade(e, EMPTY, calls[..n], side);
             made <= |polls| && calls[n].replies <= polls[made..])
  }

  /** Each call on the side has the time for at least one poll, unless the driver has no more to say. */
  ghost predicate Patient(e: Ends, calls: seq<Call>, side: Side, polls: seq<PollReply>)
    decreases |calls|
  {
    calls == []
    || var n := |calls| - 1;
       && Patient(e, calls[..n], side, polls)
       && (SideOf(e, calls[n].connection) == Some(side) ==>
             calls[n].replies != [] || PollsMade(e, EMPTY, calls[..n], side) == |polls|)
  }

  /** Returned, cached and still on the wire, in this order, is the wire. */
  lemma {:induction false} SeriesFollowsTheWire(e: Ends, calls: seq<Call>, side: Side, connection: nat,
                                                polls: seq<PollReply>, wire: seq<Body>) returns (left: seq<Body>)
    requires SideOf(e, connection) == Some(side) && Cuts(connection, e.limit, polls, wire) && Fed(e, calls, side, polls)
    ensures var made := PollsMade(e, EMPTY, calls, side);
            made <= |polls| && Cuts(connection, e.limit, polls[made..], left)
    ensures Returned(e, EMPTY, calls, side) + CacheAt(After(e, EMPTY, calls), side) + left == wire
    ensures Patient(e, calls, side, polls) ==>
              || Returned(e, EMPTY, calls, side) == wire
              || |OnlySide(e, side, calls)| <= |Returned(e, EMPTY, calls, side)| + PollsMade(e, EMPTY, calls, side)
    decreases |calls|
  {
    if calls == [] {
      assert polls[0..] == polls;
      left := wire;
    } else {
      var n := |calls| - 1;
      assert calls == calls[..n] + [calls[n]];
      left := SeriesFollowsTheWire(e, calls[..n], side, connection, polls, wire);
      left := CallFollowsTheWire(e, calls[..n], calls[n], side, connection, polls, wire, left);
    }
  }

  lemma CallFollowsTheWire(e: Ends, calls: seq<Call>, call: Call, side: Side, connection: nat, polls: seq<PollReply>,
                           wire: seq<Body>, left: seq<Body>) returns (left': seq<Body>)
    requires SideOf(e, connection) == Some(side)
    requires var made := PollsMade(e, EMPTY, calls, side);
             && made <= |polls| && Cuts(connection, e.limit, polls[made..], left)
             && (SideOf(e, call.connection) == Some(side) ==> call.replies <= polls[made..])
    requires Returned(e, EMPTY, calls, side) + CacheAt(After(e, EMPTY, calls), side) + left == wire
    ensures var made := PollsMade(e, EMPTY, calls + [call], side);
            made <= |polls| && Cuts(connection, e.limit, polls[made..], left')
    ensures Returned(e, EMPTY, calls + [call], side) + CacheAt(After(e, EMPTY, calls + [call]), side) + left' == wire
    ensures SideOf(e, call.connection) == Some(side) ==> !CallOnce(e, After(e, EMPTY, calls), call).0.Threw?
    ensures SideOf(e, call.connection) == Some(side)
            && (call.replies != [] || PollsMade(e, EMPTY, calls, side) == |polls|) ==>
              || Returned(e, EMPTY, calls + [call], side) == wire
              || |Returned(e, EMPTY, calls, side)| + PollsMade(e, EMPTY, calls, side)
                 < |Returned(e, EMPTY, calls + [call], side)| + PollsMade(e, EMPTY, calls + [call], side)
  {
    hide Serve, TakenAll, Returned, HandedOver, After, PollsMade, OnlySide, Cuts;
    SeriesGrows(e, EMPTY, calls, call, side);
    left' := left;
    if SideOf(e, call.connection) == Some(side) {
      var cache, made := CacheAt(After(e, EMPTY, calls), side), PollsMade(e, EMPTY, calls, side);
      var rest := polls[made..];
      assert call.replies == rest[..|call.replies|];
      left' := ServeFollowsTheWire(connection, e.limit, cache, rest, |call.replies|, left);
      var r := Serve(connection, e.limit, cache, call.replies);
      assert rest[r.used..] == polls[made + r.used..];
      Respliced(Returned(e, EMPTY, calls, side), cache, left, BodyOf(r.outcome), r.cache, left');
      if made == |polls| { Exhausted(connection, e.limit, rest, left); }
    }
  }

  lemma Exhausted(connection: nat, limit: nat, replies: seq<PollReply>, left: seq<Body>)
    requires replies == [] && Cuts(connection, limit, replies, left)
    ensures left == []
  {}

  lemma Respliced(returned: seq<Body>, cache: seq<Body>, left: seq<Body>, body: seq<Body>, cache': seq<Body>,
                  left': seq<Body>)
    requires body + cache' + left' == cache + left
    ensures returned + body + cache' + left' == returned + cache + left
  {
    assert returned + body + cache' + left' == returned + (body + cache' + left');
    assert returned + cache + left == returned + (cache + left);
  }

  /** However the driver cuts the bodies on the wire into batches and quiet polls, and however the polls fall on the
      calls of both sides, a side returns the bodies of its wire in wire order; and all of them once there have been
      enough calls. */
  lemma WireOrder(e: Ends, calls: seq<Call>, side: Side, connection: nat, polls: seq<PollReply>, wire: seq<Body>)
    requires SideOf(e, connection) == Some(side) && Cuts(connection, e.limit, polls, wire) && Fed(e, calls, side, polls)
    ensures Returned(e, EMPTY, calls, side) <= wire
    ensures Patient(e, calls, side, polls) && |OnlySide(e, side, calls)| >= |wire| + |polls| ==>
              Returned(e, EMPTY, calls, side) == wire
  {
    hide Returned, After, PollsMade, OnlySide, Cuts;
    var left := SeriesFollowsTheWire(e, calls, side, connection, polls, wire);
    var b := Returned(e, EMPTY, calls, side);
    assert b + CacheAt(After(e, EMPTY, calls), side) + left == b + (CacheAt(After(e, EMPTY, calls), side) + left);
  }

  /** No call on a side whose driver cuts a wire throws. */
  lemma {:induction false} NoneThrows(e: Ends, calls: seq<Call>, side: Side, connection: nat, polls: seq<PollReply>,
                                      wire: seq<Body>, k: nat)
    requires SideOf(e, connection) == Some(side) && Cuts(connection, e.limit, polls, wire) && Fed(e, calls, side, polls)
    requires k < |calls| && SideOf(e, calls[k].connection) == Some(side)
    ensures !Series(e, EMPTY, calls).0[k].Threw?
    decreases |calls|
  {
    hide Cuts, CallOnce;
    var n := |calls| - 1;
    assert calls == calls[..n] + [calls[n]];
    if k < n {
      NoneThrows(e, calls[..n], side, connection, polls, wire, k);
    } else {
      var left := SeriesFollowsTheWire(e, calls[..n], side, connection, polls, wire);
      left := CallFollowsTheWire(e, calls[..n], calls[n], side, connection, polls, wire, left);
    }
  }

  /** Two series, whatever their batches, limits, timing and interleavings, that are fed the same wire on a side return
      equal bodies for equally many, and one a prefix of the other otherwise. */
  lemma BatchingIsInvisible(e: Ends, calls: seq<Call>, polls: seq<PollReply>, connection: nat, e': Ends,
                            calls': seq<Call>, polls': seq<PollReply>, connection': nat, side: Side, wire: seq<Body>)
    requires SideOf(e, connection) == SideOf(e', connection') == Some(side)
    requires Cuts(connection, e.limit, polls, wire) && Fed(e, calls, side, polls)
    requires Cuts(connection', e'.limit, polls', wire) && Fed(e', calls', side, polls')
    ensures var b, b' := Returned(e, EMPTY, calls, side), Returned(e', EMPTY, calls', side);
            b <= wire && b' <= wire && (|b| <= |b'| ==> b <= b') && (|b| == |b'| ==> b == b')
  {
    hide Returned, Cuts, Fed;
    WireOrder(e, calls, side, connection, polls, wire);
    WireOrder(e', calls', side, connection', polls', wire);
  }

  function OneCall(connection: nat, body: Body): Call {
    Call(connection, [Batch([Message(connection, body)])])
  }

  /** One call per body, each with a driver that hands over that body alone. */
  function OneAtATime(connection: nat, wire: seq<Body>): (r: seq<Call>)
    ensures |r| == |wire|
  {
    seq(|wire|, i requires 0 <= i < |wire| => OneCall(connection, wire[i]))
  }

  lemma {:induction false} OneAtATimeReturns(e: Ends, connection: nat, side: Side, wire: seq<Body>)
    requires SideOf(e, connection) == Some(side) && e.limit >= 1
    ensures var calls := OneAtATime(connection, wire);
            Returned(e, EMPTY, calls, side) == wire && After(e, EMPTY, calls) == EMPTY
    decreases |wire|
  {
    hide CallOnce, TakenAll, Returned, HandedOver, After, PollsMade, OnlySide, OneAtATime;
    if wire == [] {
      NoneAtATime(e, connection, side);
    } else {
      var n := |wire| - 1;
      var call := OneCall(connection, wire[n]);
      OneMore(connection, wire);
      OneAtATimeReturns(e, connection, side, wire[..n]);
      SeriesGrows(e, EMPTY, OneAtATime(connection, wire[..n]), call, side);
      OneCallReturns(e, connection, side, wire[n]);
      assert wire == wire[..n] + [wire[n]];
    }
  }

  lemma NoneAtATime(e: Ends, connection: nat, side: Side)
    ensures Returned(e, EMPTY, OneAtATime(connection, []), side) == []
    ensures After(e, EMPTY, OneAtATime(connection, [])) == EMPTY
  {}

  lemma OneMore(connection: nat, wire: seq<Body>)
    requires wire != []
    ensures var n := |wire| - 1;
            OneAtATime(connection, wire) == OneAtATime(connection, wire[..n]) + [OneCall(connection, wire[n])]
  {}

  lemma OneCallReturns(e: Ends, connection: nat, side: Side, body: Body)
    requires SideOf(e, connection) == Some(side) && e.limit >= 1
    ensures CallOnce(e, EMPTY, OneCall(connection, body)) == (Received(body), 1, EMPTY)
  {
    hide Serve;
    OneBody(connection, e.limit, body);
  }

  lemma OneBody(connection: nat, limit: nat, body: Body)
    requires limit >= 1
    ensures Serve(connection, limit, [], [Batch([Message(connection, body)])]) == Turn(Received(body), 1, [])
  {
    var m := Message(connection, body);
    assert Own(connection, [m]) == [m];
    assert Payloads([m]) == [body];
  }

  /** For every batching of what the peer sent, a side returns what one-at-a-time delivery returns. */
  lemma SameAsOneAtATime(e: Ends, calls: seq<Call>, connection: nat, side: Side, polls: seq<PollReply>,
                         wire: seq<Body>)
    requires SideOf(e, connection) == Some(side) && e.limit >= 1
    requires Cuts(connection, e.limit, polls, wire) && Fed(e, calls, side, polls)
    ensures var b := Returned(e, EMPTY, calls, side);
            |b| <= |wire| && b == Returned(e, EMPTY, OneAtATime(connection, wire[..|b|]), side)
  {
    hide Returned, Cuts, Fed;
    WireOrder(e, calls, side, connection, polls, wire);
    OneAtATimeReturns(e, connection, side, wire[..|Returned(e, EMPTY, calls, side)|]);
  }

  // ----- Sending -----

  /** The driver admits the body on attempt `j`, having refused it without consuming it before. */
  predicate AdmittedAt(body: Body, replies: seq<SendReply>, j: nat) {
    && j < |replies| && replies[j] == Admitted && (j > 0 ==> body != [])
    && forall i :: 0 <= i < j ==> replies[i] == Busy(false)
  }

  class SendQueue {
    var queue: seq<Body>

    /** Retries until admission: the body is queued exactly once when the call returns, and not at all when it
        throws; it returns exactly when the driver admits the body before consuming or losing it. */
    method Send(body: Body, replies: seq<SendReply>) returns (sent: bool)
      modifies this
      ensures queue == if sent then old(queue) + [body] else old(queue)
      ensures sent <==> exists j :: AdmittedAt(body, replies, j)
    {
      var held := body;
      for i := 0 to |replies|
        invariant queue == old(queue) && held == body && (i > 0 ==> body != [])
        invariant forall k :: 0 <= k < i ==> replies[k] == Busy(false)
      {
        var reply := replies[i];
        if reply == Admitted {
          queue := queue + [held];
          assert AdmittedAt(body, replies, i);
          return true;
        }
        if reply == SendError {
          return false;
        }
        if reply.consumed {
          held := [];
        }
        if held == [] {
          return false;
        }
      }
      return false;
    }
  }
}
