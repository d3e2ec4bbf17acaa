/** The order in which the comparison runner starts its backends. */
module RunOrder {
  import opened Bits
  import opened Payload

  predicate Distinct(s: seq<string>) {
    forall i, j :: 0 <= i < j < |s| ==> s[i] != s[j]
  }

  function Rotated(base: seq<string>, round: nat): (r: seq<string>)
    requires base != []
    ensures |r| == |base|
  {
    var offset := round % |base|;
    base[offset..] + base[..offset]
  }

  /** `shuffled` is what the seeded generator makes of `backends`. */
  method BackendOrder(known: set<string>, profiles: set<string>, profile: string, round: int, backends: seq<string>,
                      shuffled: seq<string>) returns (order: Option<seq<string>>)
    requires multiset(shuffled) == multiset(backends)
    ensures order.None? <==>
            profile !in profiles || round < 0 || backends == [] || (exists b :: b in backends && b !in known)
            || !Distinct(backends)
    ensures order.Some? ==> shuffled != [] && order.value == Rotated(shuffled, round)
    ensures order.Some? ==> multiset(order.value) == multiset(backends)
  {
    if profile !in profiles || round < 0 || backends == [] || (exists b :: b in backends && b !in known) {
      return None;
    }
    DistinctIffAsMany(backends);
    if |(set b | b in backends)| != |backends| {
      return None;
    }
    assert |multiset(shuffled)| == |shuffled| && |multiset(backends)| == |backends|;
    var offset := round % |shuffled|;
    assert shuffled == shuffled[..offset] + shuffled[offset..];
    return Some(shuffled[offset..] + shuffled[..offset]);
  }

  lemma {:induction false} DistinctIffAsMany(s: seq<string>)
    ensures |(set x | x in s)| <= |s|
    ensures |(set x | x in s)| == |s| <==> Distinct(s)
    decreases |s|
  {
    if s != [] {
      var t, last := s[..|s| - 1], s[|s| - 1];
      DistinctIffAsMany(t);
      assert s == t + [last];
      assert (set x | x in s) == (set x | x in t) + {last};
      if last in t {
        assert (set x | x in s) == (set x | x in t);
      } else {
        assert |(set x | x in s)| == |(set x | x in t)| + 1;
        assert Distinct(t) ==> Distinct(s);
      }
      assert Distinct(s) ==> Distinct(t);
    } else {
      assert (set x | x in s) == {};
    }
  }

  // ----- Balance over rounds -----

  lemma RotatedAt(base: seq<string>, round: nat, p: nat)
    requires p < |base|
    ensures Rotated(base, round)[p] == base[(p + round) % |base|]
  {
    ModShift(round, p, |base|);
  }

  /** In any `k` consecutive rounds of `k` distinct backends, each backend holds each position exactly once. */
  lemma EachPositionOnce(base: seq<string>, start: nat, backend: string, p: nat) returns (round: nat)
    requires Distinct(base) && backend in base && p < |base|
    ensures start <= round < start + |base| && Rotated(base, round)[p] == backend
    ensures forall r :: start <= r < start + |base| && Rotated(base, r)[p] == backend ==> r == round
  {
    hide Rotated;
    var k := |base|;
    var j :| 0 <= j < k && base[j] == backend;
    var at := (p + start) % k;
    var d := if j >= at then j - at else j - at + k;
    round := start + d;
    ModShift(p + start, d, k);
    RotatedAt(base, round, p);
    forall r | start <= r < start + k && Rotated(base, r)[p] == backend
      ensures r == round
    {
      RotatedAt(base, r, p);
      OneShift(p + start, r - start, d, k);
    }
  }

  /** Less than a whole turn on, each place is reached once. */
  lemma OneShift(x: nat, a: nat, b: nat, k: nat)
    requires a < k && b < k && (x + a) % k == (x + b) % k
    ensures a == b
  {
    ModShift(x, a, k);
    ModShift(x, b, k);
  }
}
