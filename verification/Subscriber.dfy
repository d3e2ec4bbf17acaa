/** The stress publisher's payloads, and the subscriber's accounting of received and lost messages in 64-bit words. */
module Subscriber {
  import opened Bits
  import opened Payload
  import opened Arithmetic

  const LAST_SEQUENCE: word := U64 - 1
  const HEADER: nat := 16

  // ----- Payloads -----

  /** The bytes of a word in memory, lowest first. */
  function Little(v: nat, n: nat): (r: seq<byte>)
    ensures |r| == n
  {
    if n == 0 then [] else [v % 256] + Little(v / 256, n - 1)
  }

  function LittleValue(bytes: seq<byte>): nat {
    if bytes == [] then 0 else bytes[0] + 256 * LittleValue(bytes[1..])
  }

  lemma {:induction false} LittleRoundTrip(v: nat, n: nat)
    requires v < Pow2(8 * n)
    ensures LittleValue(Little(v, n)) == v
    decreases n
  {
    if n > 0 {
      Pow2Add(8, 8 * (n - 1));
      assert Pow2(8) == 256;
      assert v / 256 < Pow2(8 * (n - 1));
      LittleRoundTrip(v / 256, n - 1);
      assert Little(v, n)[1..] == Little(v / 256, n - 1);
    }
  }

  lemma {:induction false} BytesRoundTrip(bytes: seq<byte>)
    ensures LittleValue(bytes) < Pow2(8 * |bytes|) && Little(LittleValue(bytes), |bytes|) == bytes
    decreases |bytes|
  {
    if bytes != [] {
      BytesRoundTrip(bytes[1..]);
      Pow2Add(8, 8 * (|bytes| - 1));
      assert Pow2(8) == 256;
      assert LittleValue(bytes) / 256 == LittleValue(bytes[1..]) && LittleValue(bytes) % 256 == bytes[0];
    }
  }

  /** The byte a message carries behind its header at index `i`. */
  function Pattern(sequence: word, i: nat): byte {
    Xor(sequence, i) % 256
  }

  function PatternFrom(sequence: word, n: nat): (r: seq<byte>)
    ensures |r| == n && forall i :: 0 <= i < n ==> r[i] == Pattern(sequence, i + HEADER)
  {
    if n == 0 then [] else PatternFrom(sequence, n - 1) + [Pattern(sequence, n - 1 + HEADER)]
  }

  /** The payload of a message: origin time, sequence number, pattern. */
  function Filled(origin: word, sequence: word, size: nat): (r: seq<byte>)
    requires size >= HEADER
    ensures |r| == size
  {
    Little(origin, 8) + Little(sequence, 8) + PatternFrom(sequence, size - HEADER)
  }

  method FillPayload(buf: array<byte>, sequence: word, origin: word)
    requires buf.Length >= HEADER
    modifies buf
    ensures buf[..] == Filled(origin, sequence, buf.Length)
  {
    var time, number := Little(origin, 8), Little(sequence, 8);
    forall i | 0 <= i < 8 { buf[i] := time[i]; }
    forall i | 8 <= i < HEADER { buf[i] := number[i - 8]; }
    for i := HEADER to buf.Length
      invariant forall k :: 0 <= k < 8 ==> buf[k] == time[k]
      invariant forall k :: 8 <= k < HEADER ==> buf[k] == number[k - 8]
      invariant forall k :: HEADER <= k < i ==> buf[k] == Pattern(sequence, k)
    {
      buf[i] := Xor(sequence, i) % 256;
    }
    assert buf[..] == Filled(origin, sequence, buf.Length);
  }

  predicate Matches(bytes: seq<byte>, sequence: word) {
    forall i :: HEADER <= i < |bytes| ==> bytes[i] == Pattern(sequence, i)
  }

  method PayloadMatches(bytes: seq<byte>, sequence: word) returns (ok: bool)
    ensures ok <==> Matches(bytes, sequence)
  {
    var i := HEADER;
    while i < |bytes|
      invariant HEADER <= i && (i <= |bytes| || i == HEADER)
      invariant forall k :: HEADER <= k < i && k < |bytes| ==> bytes[k] == Xor(sequence, k) % 256
    {
      if bytes[i] != Xor(sequence, i) % 256 { return false; }
      i := i + 1;
    }
    return true;
  }

  /** The sequence number in the header of a payload. */
  function SequenceIn(bytes: seq<byte>): (r: word)
    requires |bytes| >= HEADER
  {
    WordsFit(bytes[8..HEADER]);
    LittleValue(bytes[8..HEADER])
  }

  lemma WordsFit(bytes: seq<byte>)
    requires |bytes| == 8
    ensures LittleValue(bytes) < U64
  {
    BytesRoundTrip(bytes);
    Pow64();
  }

  /** The subscriber reads back the number the publisher wrote, and the payload matches it. */
  lemma FilledReads(origin: word, sequence: word, size: nat)
    requires size >= HEADER
    ensures SequenceIn(Filled(origin, sequence, size)) == sequence && Matches(Filled(origin, sequence, size), sequence)
  {
    hide Pattern;
    var bytes := Filled(origin, sequence, size);
    assert bytes[8..HEADER] == Little(sequence, 8);
    Pow64();
    LittleRoundTrip(sequence, 8);
  }

  /** A payload that matches its own number is what the publisher fills in for that number. */
  lemma MatchingIsFilled(bytes: seq<byte>) returns (origin: word)
    requires |bytes| >= HEADER && Matches(bytes, SequenceIn(bytes))
    ensures bytes == Filled(origin, SequenceIn(bytes), |bytes|)
  {
    hide Pattern, Little, LittleValue, PatternFrom;
    WordsFit(bytes[..8]);
    origin := LittleValue(bytes[..8]);
    BytesRoundTrip(bytes[..8]);
    BytesRoundTrip(bytes[8..HEADER]);
    PatternBehind(bytes, SequenceIn(bytes));
    assert bytes == bytes[..8] + bytes[8..HEADER] + bytes[HEADER..];
  }

  lemma PatternBehind(bytes: seq<byte>, sequence: word)
    requires |bytes| >= HEADER && Matches(bytes, sequence)
    ensures bytes[HEADER..] == PatternFrom(sequence, |bytes| - HEADER)
  {
    hide Pattern;
    var n := |bytes| - HEADER;
    forall i | 0 <= i < n ensures bytes[HEADER..][i] == PatternFrom(sequence, n)[i] {
      assert bytes[i + HEADER] == Pattern(sequence, i + HEADER);
    }
  }

  /** The pattern of one number does not match a number that differs in its lowest byte. */
  lemma PatternTellsApart(a: word, b: word, i: nat)
    requires a % 256 != b % 256
    ensures Pattern(a, i) != Pattern(b, i)
  {
    assert Pow2(8) == 256;
    LowXor(a, i, 8);
    LowXor(b, i, 8);
    XorCancels(a % 256, i % 256);
    XorCancels(b % 256, i % 256);
  }

  lemma {:induction false} LowXor(x: nat, y: nat, w: nat)
    ensures Xor(x, y) % Pow2(w) == Xor(x % Pow2(w), y % Pow2(w))
    decreases w
  {
    hide Xor, Pow2;
    if w == 0 {
      ModOne(Xor(x, y));
      ModOne(x);
      ModOne(y);
      XorOfZero();
    } else {
      var p := Pow2(w - 1);
      LowXor(x / 2, y / 2, w - 1);
      PowDoubles(w);
      LowXorStep(x, y, p);
    }
  }

  lemma PowDoubles(w: nat)
    requires w > 0
    ensures Pow2(w) == 2 * Pow2(w - 1)
  {}

  lemma LowXorStep(x: nat, y: nat, p: nat)
    requires p > 0 && Xor(x / 2, y / 2) % p == Xor((x / 2) % p, (y / 2) % p)
    ensures Xor(x, y) % (2 * p) == Xor(x % (2 * p), y % (2 * p))
  {
    hide Xor;
    var z, low, high := Xor(x, y), x % (2 * p), y % (2 * p);
    ModHalves(x, p);
    ModHalves(y, p);
    ModHalves(z, p);
    Halves(x % 2, (x / 2) % p);
    Halves(y % 2, (y / 2) % p);
    XorDigits(x, y);
    XorDigits(low, high);
    assert Xor(low, high) == Xor(low, high) % 2 + 2 * (Xor(low, high) / 2);
  }

  lemma ModOne(x: nat)
    ensures x % Pow2(0) == 0
  {}

  lemma XorOfZero()
    ensures Xor(0, 0) == 0
  {}

  // ----- Polls -----

  /** What one poll brings; a list of polls ends where the overall deadline expires. */
  datatype Poll =
    | Timeout
    | Failed
    | Got(bytes: seq<byte>, released: bool)

  /** The number of a message; one too short to have a number is never asked for it. */
  function SequenceOf(p: Poll): word
    requires p.Got?
  {
    if |p.bytes| < HEADER then 0 else SequenceIn(p.bytes)
  }

  /** An error return, or the counters a finished loop reports and whether it calls them a success. */
  datatype SubResult = Aborted | Finished(received: nat, lost: word, ok: bool)

  function Wrap(x: int): word {
    x % U64
  }

  predicate Usable(p: Poll, payloadBytes: nat) {
    p.Got? && |p.bytes| == payloadBytes && |p.bytes| >= HEADER && p.released
  }

  /** The sequence number the subscriber expects after the first `n` polls. */
  function Expected(polls: seq<Poll>, n: nat): word
    requires n <= |polls| && (n > 0 ==> polls[n - 1].Got?)
  {
    if n == 0 then 0 else Wrap(SequenceOf(polls[n - 1]) + 1)
  }

  predicate AcceptsAt(polls: seq<Poll>, k: nat, messages: word, payloadBytes: nat)
    requires k < |polls| && (k > 0 ==> polls[k - 1].Got?)
  {
    Usable(polls[k], payloadBytes) && Expected(polls, k) < messages && Expected(polls, k) <= SequenceOf(polls[k])
  }

  /** The loop takes the first `n` polls as messages, one after the other. */
  predicate Accepts(polls: seq<Poll>, n: nat, messages: word, payloadBytes: nat) {
    n <= |polls|
    && if n == 0 then true
       else Accepts(polls, n - 1, messages, payloadBytes) && (n > 1 ==> polls[n - 2].Got?)
            && AcceptsAt(polls, n - 1, messages, payloadBytes)
  }

  predicate AllMatch(polls: seq<Poll>, n: nat) {
    n <= |polls| && forall k :: 0 <= k < n ==> polls[k].Got? && Matches(polls[k].bytes, SequenceOf(polls[k]))
  }

  /** No accepted message carries the last sequence number, so no counter wraps around. */
  predicate NoWrap(polls: seq<Poll>, n: nat) {
    n <= |polls| && forall k :: 0 <= k < n ==> polls[k].Got? && SequenceOf(polls[k]) != LAST_SEQUENCE
  }

  /** Exactly what makes the loop report success. */
  predicate Succeeds(polls: seq<Poll>, messages: word, payloadBytes: nat) {
    && Accepts(polls, messages, messages, payloadBytes) && AllMatch(polls, messages)
    && (var e := Expected(polls, messages);
        e == messages || (e < messages && (messages == |polls| || polls[messages].Timeout?)))
  }

  method RunSub(messages: word, payloadBytes: nat, polls: seq<Poll>) returns (r: SubResult)
    ensures r.Finished? ==> r.ok == Succeeds(polls, messages, payloadBytes)
    ensures r.Aborted? ==> !Succeeds(polls, messages, payloadBytes)
    ensures r.Finished? ==> Accepts(polls, r.received, messages, payloadBytes)
    ensures r.Finished? && NoWrap(polls, r.received) ==>
              r.received + r.lost == (if Expected(polls, r.received) < messages then messages
                                      else Expected(polls, r.received))
    ensures Delivered(polls, messages, payloadBytes) ==> r.Finished? && r.ok
    ensures r.Finished? && r.ok && NoWrap(polls, messages) ==> Delivered(polls, messages, payloadBytes)
  {
    hide Wrap, Succeeds, Delivered, Matches, SequenceIn;
    if Delivered(polls, messages, payloadBytes) { DeliveredSucceeds(polls, messages, payloadBytes); }
    if Succeeds(polls, messages, payloadBytes) { SuccessIsExactIff(polls, messages, payloadBytes); }
    CountersEnd(messages, 0);
    var received: nat, lost: word, expected: word := 0, 0, 0;
    var patternOk := true;
    while Wrap(received + lost) < messages
      invariant Accepts(polls, received, messages, payloadBytes)
      invariant expected == Expected(polls, received) == Wrap(received + lost)
      invariant NoWrap(polls, received) ==> received + lost == expected
      invariant patternOk <==> AllMatch(polls, received)
      decreases |polls| - received
    {
      if received == |polls| || polls[received].Timeout? {
        lost := Wrap(messages - received);
        TimeoutCounts(messages, received);
        break;
      }
      if !AcceptsAt(polls, received, messages, payloadBytes) {
        AbortedAt(polls, received, messages, payloadBytes);
      }
      if polls[received].Failed? {
        return Aborted;
      }
      var Got(bytes, released) := polls[received];
      if |bytes| != payloadBytes || |bytes| < HEADER {
        return Aborted;
      }
      var sequence := SequenceIn(bytes);
      if sequence < expected {
        return Aborted;
      }
      CountersStep(received, lost, expected, sequence);
      if sequence > expected {
        lost := Wrap(lost + sequence - expected);
      }
      var matches := PayloadMatches(bytes, sequence);
      if !matches {
        patternOk := false;
      }
      expected := Wrap(sequence + 1);
      received := received + 1;
      if !released {
        return Aborted;
      }
    }
    StoppedAt(polls, received, messages, payloadBytes);
    CountersEnd(messages, lost);
    r := Finished(received, lost, patternOk && received == messages && lost == 0);
  }

  lemma WrapTurns(x: int, turns: int)
    ensures Wrap(x + turns * U64) == Wrap(x)
  {
  }

  lemma WholeTurns(x: int)
    ensures x == x / U64 * U64 + Wrap(x)
  {
  }

  lemma CountersStep(received: nat, lost: word, expected: word, sequence: word)
    requires expected == Wrap(received + lost) && expected <= sequence
    ensures var more := if sequence > expected then Wrap(lost + sequence - expected) else lost;
            && Wrap(received + 1 + more) == Wrap(sequence + 1)
            && (received + lost == expected && sequence != LAST_SEQUENCE ==>
                  received + 1 + more == sequence + 1 == Wrap(sequence + 1))
  {
    var gap := lost + sequence - expected;
    WrapSmall(lost);
    WholeTurns(gap);
    WholeTurns(received + lost);
    hide Wrap;
    var more := if sequence > expected then Wrap(gap) else lost;
    var turns := (received + lost) / U64 - gap / U64;
    assert received + 1 + more == sequence + 1 + turns * U64;
    WrapTurns(sequence + 1, turns);
    WrapSmall(gap);
    WrapSmall(sequence + 1);
  }

  lemma WrapSmall(x: int)
    ensures 0 <= x < U64 ==> Wrap(x) == x
  {
  }

  lemma TimeoutCounts(messages: word, received: nat)
    ensures received <= messages ==> Wrap(messages - received) == messages - received
  {
  }

  lemma CountersEnd(messages: word, lost: word)
    ensures Wrap(messages + lost) == messages <==> lost == 0
    ensures Wrap(0) == 0
  {
  }

  lemma {:induction false} AcceptsPrefix(polls: seq<Poll>, n: nat, k: nat, messages: word, payloadBytes: nat)
    requires Accepts(polls, n, messages, payloadBytes) && k <= n
    ensures Accepts(polls, k, messages, payloadBytes)
    decreases n
  {
    if k < n {
      AcceptsPrefix(polls, n - 1, k, messages, payloadBytes);
    }
  }

  /** Success is decided where the loop stops. */
  lemma StoppedAt(polls: seq<Poll>, n: nat, messages: word, payloadBytes: nat)
    requires Accepts(polls, n, messages, payloadBytes)
    requires Expected(polls, n) >= messages || n == |polls| || polls[n].Timeout?
    ensures Succeeds(polls, messages, payloadBytes) <==>
            n == messages && AllMatch(polls, n) && Expected(polls, n) <= messages
  {
    if n < messages && Accepts(polls, messages, messages, payloadBytes) {
      AcceptsPrefix(polls, messages, n + 1, messages, payloadBytes);
    } else if messages < n {
      AcceptsPrefix(polls, n, messages + 1, messages, payloadBytes);
    }
  }

  lemma AbortedAt(polls: seq<Poll>, n: nat, messages: word, payloadBytes: nat)
    requires Accepts(polls, n, messages, payloadBytes) && n < |polls| && !polls[n].Timeout?
    requires Expected(polls, n) < messages && !AcceptsAt(polls, n, messages, payloadBytes)
    ensures !Succeeds(polls, messages, payloadBytes)
  {
    if n < messages && Accepts(polls, messages, messages, payloadBytes) {
      AcceptsPrefix(polls, messages, n + 1, messages, payloadBytes);
    } else if messages < n {
      AcceptsPrefix(polls, n, messages + 1, messages, payloadBytes);
    }
  }

  // ----- What success means -----

  /** Messages 0 to `messages - 1`, each once and in order. */
  predicate Exact(polls: seq<Poll>, messages: word) {
    messages <= |polls| && forall k :: 0 <= k < messages ==> polls[k].Got? && SequenceOf(polls[k]) == k
  }

  lemma {:induction false} ExpectedGrows(polls: seq<Poll>, n: nat, messages: word, payloadBytes: nat)
    requires Accepts(polls, n, messages, payloadBytes) && NoWrap(polls, n)
    ensures Expected(polls, n) >= n
    ensures Expected(polls, n) == n ==> forall k :: 0 <= k < n ==> polls[k].Got? && SequenceOf(polls[k]) == k
    decreases n
  {
    if n > 0 {
      ExpectedGrows(polls, n - 1, messages, payloadBytes);
    }
  }

  lemma {:induction false} ExactAccepted(polls: seq<Poll>, n: nat, messages: word, payloadBytes: nat)
    requires n <= messages && Exact(polls, messages)
    requires forall k :: 0 <= k < n ==> Usable(polls[k], payloadBytes)
    ensures Accepts(polls, n, messages, payloadBytes) && Expected(polls, n) == n
    decreases n
  {
    if n > 0 {
      ExactAccepted(polls, n - 1, messages, payloadBytes);
    }
  }

  /** Exact delivery of usable messages is a success. */
  lemma ExactSucceeds(polls: seq<Poll>, messages: word, payloadBytes: nat)
    requires Exact(polls, messages) && AllMatch(polls, messages)
    requires forall k :: 0 <= k < messages ==> Usable(polls[k], payloadBytes)
    ensures Succeeds(polls, messages, payloadBytes)
  {
    hide Matches;
    ExactAccepted(polls, messages, messages, payloadBytes);
  }

  /** The poll brought what the publisher fills in for the number `k`, at whatever time. */
  ghost predicate Brought(p: Poll, k: word, payloadBytes: nat) {
    p.Got? && p.released && payloadBytes >= HEADER && exists origin: word :: p.bytes == Filled(origin, k, payloadBytes)
  }

  /** The payloads of the messages 0 to `messages - 1`, byte for byte, each once and in order. */
  ghost predicate Delivered(polls: seq<Poll>, messages: word, payloadBytes: nat) {
    messages <= |polls| && forall k :: 0 <= k < messages ==> Brought(polls[k], k, payloadBytes)
  }

  lemma BroughtReads(p: Poll, k: word, payloadBytes: nat)
    requires Brought(p, k, payloadBytes)
    ensures Usable(p, payloadBytes) && SequenceOf(p) == k && Matches(p.bytes, k)
  {
    hide Filled, Matches;
    var origin: word :| p.bytes == Filled(origin, k, payloadBytes);
    FilledReads(origin, k, payloadBytes);
  }

  /** Whenever all messages arrive as published, that is reported as a success. */
  lemma DeliveredSucceeds(polls: seq<Poll>, messages: word, payloadBytes: nat)
    requires Delivered(polls, messages, payloadBytes)
    ensures Succeeds(polls, messages, payloadBytes)
  {
    hide Brought, Matches, Usable;
    forall k | 0 <= k < messages
      ensures polls[k].Got? && Usable(polls[k], payloadBytes) && SequenceOf(polls[k]) == k && Matches(polls[k].bytes, k)
    {
      BroughtReads(polls[k], k, payloadBytes);
      UsableIsGot(polls[k], payloadBytes);
    }
    ExactSucceeds(polls, messages, payloadBytes);
  }

  lemma UsableIsGot(p: Poll, payloadBytes: nat)
    requires Usable(p, payloadBytes)
    ensures p.Got?
  {}

  lemma {:induction false} AcceptedIsUsable(polls: seq<Poll>, n: nat, messages: word, payloadBytes: nat)
    requires Accepts(polls, n, messages, payloadBytes)
    ensures forall k :: 0 <= k < n ==> Usable(polls[k], payloadBytes)
    decreases n
  {
    if n > 0 {
      AcceptedIsUsable(polls, n - 1, messages, payloadBytes);
    }
  }

  lemma MatchingIsBrought(p: Poll, payloadBytes: nat)
    requires Usable(p, payloadBytes) && Matches(p.bytes, SequenceOf(p))
    ensures Brought(p, SequenceOf(p), payloadBytes)
  {
    var origin := MatchingIsFilled(p.bytes);
  }

  /** A reported success brought every payload as published if and only if none of its messages carried the last
      sequence number. */
  lemma SuccessIsExactIff(polls: seq<Poll>, messages: word, payloadBytes: nat)
    requires Succeeds(polls, messages, payloadBytes)
    ensures Delivered(polls, messages, payloadBytes) <==> NoWrap(polls, messages)
  {
    hide Brought, Matches, Usable;
    if NoWrap(polls, messages) {
      ExpectedGrows(polls, messages, messages, payloadBytes);
      AcceptedIsUsable(polls, messages, messages, payloadBytes);
      forall k | 0 <= k < messages ensures Brought(polls[k], k, payloadBytes) {
        MatchingIsBrought(polls[k], payloadBytes);
      }
    }
    if Delivered(polls, messages, payloadBytes) {
      forall k | 0 <= k < messages ensures polls[k].Got? && SequenceOf(polls[k]) != LAST_SEQUENCE {
        BroughtReads(polls[k], k, payloadBytes);
        UsableIsGot(polls[k], payloadBytes);
      }
    }
  }

  /** Two ways to a false success: the counters wrap around to zero, or the timeout's correction hides the wrap. */
  lemma WrappedSuccesses()
    ensures var a, b := Got(Filled(0, LAST_SEQUENCE, HEADER), true), Got(Filled(0, 1, HEADER), true);
            && Succeeds([a, b], 2, 16) && !Exact([a, b], 2) && !Delivered([a, b], 2, 16)
            && Succeeds([a], 1, 16) && !Exact([a], 1) && !Delivered([a], 1, 16)
  {
    var a, b := Got(Filled(0, LAST_SEQUENCE, HEADER), true), Got(Filled(0, 1, HEADER), true);
    FilledReads(0, LAST_SEQUENCE, HEADER);
    FilledReads(0, 1, HEADER);
    assert Wrap(LAST_SEQUENCE + 1) == 0;
    assert Accepts([a, b], 0, 2, 16) && Accepts([a, b], 1, 2, 16);
    assert Accepts([a], 0, 1, 16);
    assert !NoWrap([a, b], 2) && !NoWrap([a], 1);
    SuccessIsExactIff([a, b], 2, 16);
    SuccessIsExactIff([a], 1, 16);
  }
}
