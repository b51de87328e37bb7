/** Concurrent collection of signatures into three parallel arrays. */
module Signatures {
  import opened Wrappers
  import opened Message
  import Hex

  /** Every fetch completes once, in any order. */
  predicate CompletionOrder(order: seq<nat>, n: nat) {
    multiset(order) == multiset(seq(n, i => i))
  }

  predicate InRange(order: seq<nat>, n: nat) {
    forall k :: 0 <= k < |order| ==> order[k] < n
  }

  function Pick<T>(xs: seq<T>, order: seq<nat>): seq<T>
    requires InRange(order, |xs|)
  {
    seq(|order|, k requires 0 <= k < |order| => xs[order[k]])
  }

  lemma OrderInRange(order: seq<nat>, n: nat)
    requires CompletionOrder(order, n)
    ensures |order| == n && InRange(order, n)
  {
    assert |multiset(order)| == |order| && |multiset(seq(n, i => i))| == n;
    forall k | 0 <= k < |order| ensures order[k] < n {
      assert order[k] in multiset(order);
      assert order[k] in seq(n, j => j);
    }
  }

  lemma WithoutOne<T>(b: seq<T>, j: nat)
    requires j < |b|
    ensures multiset(b[..j] + b[j+1..]) == multiset(b) - multiset{b[j]}
  {
    assert b == b[..j] + [b[j]] + b[j+1..];
  }

  lemma PickWithoutOne<T>(xs: seq<T>, b: seq<nat>, j: nat)
    requires InRange(b, |xs|) && j < |b|
    ensures InRange(b[..j] + b[j+1..], |xs|)
    ensures multiset(Pick(xs, b[..j] + b[j+1..])) == multiset(Pick(xs, b)) - multiset{xs[b[j]]}
    ensures xs[b[j]] in multiset(Pick(xs, b))
  {
    var picked := Pick(xs, b);
    assert Pick(xs, b[..j] + b[j+1..]) == picked[..j] + picked[j+1..];
    WithoutOne(picked, j);
    assert picked[j] in picked;
  }

  /** Reading a list in two orders that have the same indices gives the same items. */
  lemma {:induction false} PickPermuted<T>(xs: seq<T>, a: seq<nat>, b: seq<nat>)
    requires InRange(a, |xs|) && InRange(b, |xs|)
    requires multiset(a) == multiset(b)
    ensures multiset(Pick(xs, a)) == multiset(Pick(xs, b))
    decreases |a|
  {
    if a == [] {
      assert |multiset(b)| == 0;
    } else {
      var k := |a| - 1;
      assert a[k] in multiset(b);
      var j :| 0 <= j < |b| && b[j] == a[k];
      WithoutOne(a, k);
      WithoutOne(b, j);
      PickWithoutOne(xs, a, k);
      PickWithoutOne(xs, b, j);
      PickPermuted(xs, a[..k] + a[k+1..], b[..j] + b[j+1..]);
      AddBack(multiset(Pick(xs, a)), multiset(Pick(xs, b)), xs[a[k]]);
    }
  }

  lemma AddBack<T>(m: multiset<T>, n: multiset<T>, x: T)
    requires x in m && x in n && m - multiset{x} == n - multiset{x}
    ensures m == n
  {
    assert m == (m - multiset{x}) + multiset{x};
    assert n == (n - multiset{x}) + multiset{x};
  }

  function Parts(signatures: seq<string>): seq<VRS>
    requires forall k :: 0 <= k < |signatures| ==> SignatureToVRS(signatures[k]).Some?
  {
    seq(|signatures|, k requires 0 <= k < |signatures| => SignatureToVRS(signatures[k]).value)
  }

  function Zip(v: seq<nat>, r: seq<string>, s: seq<string>): seq<VRS>
    requires |v| == |r| == |s|
  {
    seq(|v|, k requires 0 <= k < |v| => VRS(v[k], r[k], s[k]))
  }

  /** The callbacks of the fetches, run in the order they complete; one malformed signature rejects the whole. */
  method Gather(signatures: seq<string>, order: seq<nat>)
    returns (ok: bool, v: seq<nat>, r: seq<string>, s: seq<string>)
    requires CompletionOrder(order, |signatures|)
    ensures |v| == |r| == |s|
    ensures ok <==> forall k :: 0 <= k < |signatures| ==> SignatureToVRS(signatures[k]).Some?
    ensures ok ==> multiset(Zip(v, r, s)) == multiset(Parts(signatures))
    ensures ok ==> Gathered(signatures, order, v, r, s)
  {
    OrderInRange(order, |signatures|);
    ok, v, r, s := true, [], [], [];
    for k := 0 to |order|
      invariant |v| == |r| == |s|
      invariant ok <==> forall i :: 0 <= i < k ==> SignatureToVRS(signatures[order[i]]).Some?
      invariant ok ==> |v| == k && forall i :: 0 <= i < k ==>
                  Some(VRS(v[i], r[i], s[i])) == SignatureToVRS(signatures[order[i]])
    {
      var recover := SignatureToVRS(signatures[order[k]]);
      if recover.Some? {
        v := v + [recover.value.v];
        r := r + [recover.value.r];
        s := s + [recover.value.s];
      } else {
        ok := false;
      }
    }
    EveryIndexCompletes(signatures, order);
    if k :| 0 <= k < |signatures| && SignatureToVRS(signatures[k]).None? {
      assert k in order;
      var i :| 0 <= i < |order| && order[i] == k;
      assert !ok;
    } else {
      assert ok;
    }
    if ok {
      var parts := Parts(signatures);
      assert Zip(v, r, s) == Pick(parts, order);
      PickAll(parts, order);
    }
  }

  lemma EveryIndexCompletes(signatures: seq<string>, order: seq<nat>)
    requires CompletionOrder(order, |signatures|)
    ensures forall k :: 0 <= k < |signatures| ==> k in order
  {
    forall k | 0 <= k < |signatures| ensures k in order {
      assert seq(|signatures|, i => i)[k] == k;
      assert k in multiset(seq(|signatures|, i => i));
      assert k in multiset(order);
    }
  }

  function Joined(v: seq<nat>, r: seq<string>, s: seq<string>): seq<string>
    requires |v| == |r| == |s|
  {
    seq(|v|, k requires 0 <= k < |v| => JoinVRS(VRS(v[k], r[k], s[k])))
  }

  /** The arrays hold, place by place, the parts of the signatures in the order their fetches completed. */
  predicate Gathered(signatures: seq<string>, order: seq<nat>, v: seq<nat>, r: seq<string>, s: seq<string>) {
    && |v| == |r| == |s| == |order|
    && forall k :: 0 <= k < |v| ==>
         order[k] < |signatures| && Some(VRS(v[k], r[k], s[k])) == SignatureToVRS(signatures[order[k]])
  }

  /** An entry of the arrays joins back to its signature exactly when that has its recovery byte in lower case. */
  lemma EntryRecovers(signatures: seq<string>, order: seq<nat>, v: seq<nat>, r: seq<string>, s: seq<string>, k: nat)
    requires Gathered(signatures, order, v, r, s) && k < |order|
    requires IsSignature(signatures[order[k]])
    ensures Joined(v, r, s)[k] == signatures[order[k]] <==> Hex.AllLowerHex(signatures[order[k]][130..])
  {
    JoinExactly(signatures[order[k]]);
  }

  lemma PickAll<T>(xs: seq<T>, order: seq<nat>)
    requires CompletionOrder(order, |xs|)
    ensures InRange(order, |xs|) && multiset(Pick(xs, order)) == multiset(xs)
  {
    var indices: seq<nat> := seq(|xs|, i => i);
    OrderInRange(order, |xs|);
    PickPermuted(xs, order, indices);
    assert Pick(xs, indices) == xs;
  }

  /** For every completion order the signatures come back from the gathered arrays, as a permutation. */
  lemma GatheredRecover(signatures: seq<string>, order: seq<nat>, v: seq<nat>, r: seq<string>, s: seq<string>)
    requires CompletionOrder(order, |signatures|) && Gathered(signatures, order, v, r, s)
    requires forall k :: 0 <= k < |signatures| ==> IsSignature(signatures[k]) && Hex.AllLowerHex(signatures[k][130..])
    ensures multiset(Joined(v, r, s)) == multiset(signatures)
  {
    forall k | 0 <= k < |order| ensures Joined(v, r, s)[k] == signatures[order[k]] {
      EntryRecovers(signatures, order, v, r, s, k);
    }
    PickAll(signatures, order);
    assert Joined(v, r, s) == Pick(signatures, order);
  }
}
