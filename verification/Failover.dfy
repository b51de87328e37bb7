/** Two RPC failovers: one keeps an index into a fixed URL list, the other rotates the list itself. */
module Failover {
  import opened Wrappers

  type Url = string

  /** The answers to the attempts of one pass, in the order of the attempts. */
  type Pass<T> = seq<Outcome<T>>

  function Rotate(urls: seq<Url>, index: nat): seq<Url>
    requires index <= |urls|
  {
    urls[index..] + urls[..index]
  }

  /** The first attempt that is answered, or the number of attempts when none is. */
  function FirstAnswer<T>(pass: Pass<T>): (k: nat)
    ensures k <= |pass|
    ensures k < |pass| ==> pass[k].Returned?
    ensures forall i :: 0 <= i < k ==> pass[i].Threw?
  {
    if pass == [] || pass[0].Returned? then 0 else 1 + FirstAnswer(pass[1..])
  }

  /** The answer of a request: that of the first attempt answered in any of its passes. */
  function ResultOf<T>(passes: seq<Pass<T>>): Outcome<T> {
    if passes == [] then Threw
    else if Answered(passes[0]) then passes[0][FirstAnswer(passes[0])]
    else ResultOf(passes[1..])
  }

  predicate Answered<T>(pass: Pass<T>) {
    FirstAnswer(pass) < |pass|
  }

  /** The number of attempts a pass makes. */
  function Attempts<T>(pass: Pass<T>): nat {
    if Answered(pass) then FirstAnswer(pass) + 1 else |pass|
  }

  /** A request makes passes until one is answered. */
  function PassesUsed<T>(passes: seq<Pass<T>>): (n: nat)
    ensures n <= |passes|
  {
    if passes == [] then 0 else if Answered(passes[0]) then 1 else 1 + PassesUsed(passes[1..])
  }

  lemma {:induction false} UsedAtLeast<T>(passes: seq<Pass<T>>, k: nat)
    requires k <= |passes| && forall i :: 0 <= i < k ==> !Answered(passes[i])
    ensures k <= PassesUsed(passes)
    ensures k < |passes| && Answered(passes[k]) ==>
              PassesUsed(passes) == k + 1 && ResultOf(passes) == passes[k][FirstAnswer(passes[k])]
    ensures k == |passes| ==> ResultOf(passes) == Threw
  {
    if k > 0 {
      UsedAtLeast(passes[1..], k - 1);
    }
  }

  /** A request fails exactly when no attempt of any pass is answered. */
  lemma {:induction false} FailsExactly<T>(passes: seq<Pass<T>>)
    ensures ResultOf(passes) == Threw <==> forall k :: 0 <= k < |passes| ==> !Answered(passes[k])
  {
    if passes != [] {
      FailsExactly(passes[1..]);
      if forall k :: 0 <= k < |passes| ==> !Answered(passes[k]) {
        assert forall k :: 0 <= k < |passes[1..]| ==> passes[1..][k] == passes[k+1];
      } else if !Answered(passes[0]) {
        var k :| 0 <= k < |passes| && Answered(passes[k]);
        assert passes[1..][k-1] == passes[k];
      }
    }
  }

  /** What the URLs tried tell of a pass: all but the last attempt failed, and the last one only if all did. */
  ghost predicate Tells<T>(tried: seq<Url>, pass: Pass<T>, result: Outcome<T>) {
    && |tried| <= |pass|
    && match result
       case Threw => |tried| == |pass| && forall i :: 0 <= i < |pass| ==> pass[i].Threw?
       case Returned(_) =>
         && tried != [] && pass[|tried|-1] == result && forall i :: 0 <= i < |tried| - 1 ==> pass[i].Threw?
  }

  /** The last URL tried in the last pass. */
  function LastTried(tried: seq<seq<Url>>): Option<Url> {
    if tried == [] || tried[|tried|-1] == [] then None
    else
      var last := tried[|tried|-1];
      Some(last[|last|-1])
  }

  // ---- what each of the two does, on values ----

  function NextIndex<T>(index: nat, n: nat, pass: Pass<T>): nat
    requires n > 0
  {
    if Answered(pass) then (index + FirstAnswer(pass)) % n else index
  }

  function IndexAfter<T>(index: nat, n: nat, passes: seq<Pass<T>>): nat
    requires n > 0
  {
    if passes == [] then index
    else NextIndex(IndexAfter(index, n, passes[..|passes|-1]), n, passes[|passes|-1])
  }

  function NextList<T>(urls: seq<Url>, pass: Pass<T>): seq<Url>
    requires |pass| == |urls|
  {
    if Answered(pass) then Rotate(urls, FirstAnswer(pass)) else urls
  }

  predicate Fit<T>(passes: seq<Pass<T>>, n: nat) {
    forall k :: 0 <= k < |passes| ==> |passes[k]| == n
  }

  function ListAfter<T>(urls: seq<Url>, passes: seq<Pass<T>>): (r: seq<Url>)
    requires Fit(passes, |urls|)
    ensures |r| == |urls|
  {
    if passes == [] then urls
    else NextList(ListAfter(urls, passes[..|passes|-1]), passes[|passes|-1])
  }

  /** The URLs tried in each pass. */
  function ListTried<T>(urls: seq<Url>, passes: seq<Pass<T>>): seq<seq<Url>>
    requires Fit(passes, |urls|)
  {
    if passes == [] then []
    else
      var before, last := passes[..|passes|-1], passes[|passes|-1];
      ListTried(urls, before) + [ListAfter(urls, before)[..Attempts(last)]]
  }

  function IndexTried<T>(urls: seq<Url>, index: nat, passes: seq<Pass<T>>): seq<seq<Url>>
    requires index < |urls| && Fit(passes, |urls|)
  {
    if passes == [] then []
    else
      var before, last := passes[..|passes|-1], passes[|passes|-1];
      IndexStays(index, |urls|, before);
      IndexTried(urls, index, before) + [Rotate(urls, IndexAfter(index, |urls|, before))[..Attempts(last)]]
  }

  lemma {:induction false} IndexStays<T>(index: nat, n: nat, passes: seq<Pass<T>>)
    requires index < n
    ensures IndexAfter(index, n, passes) < n
    decreases |passes|
  {
    if passes != [] {
      IndexStays(index, n, passes[..|passes|-1]);
    }
  }

  // ---- the provider with a moving index ----

  lemma WrappedIndex(urls: seq<Url>, initial: nat, count: nat)
    requires initial < |urls| && count < |urls|
    ensures urls[(initial + count) % |urls|] == Rotate(urls, initial)[count]
    ensures ((initial + count) % |urls| + 1) % |urls| == (initial + count + 1) % |urls|
  {
    var n := |urls|;
    Wraps(initial + count, n);
    Wraps((initial + count) % n + 1, n);
    Wraps(initial + count + 1, n);
  }

  lemma Wraps(x: nat, n: nat)
    requires x < 2 * n
    ensures x % n == if x < n then x else x - n
  {
    if x >= n {
      assert x == n + (x - n);
    }
  }

  class HttpRetryProvider {
    const urls: seq<Url>
    var currentIndex: nat

    ghost predicate Valid()
      reads this
    {
      currentIndex < |urls|
    }

    constructor (urls: seq<Url>)
      requires urls != []
      ensures Valid() && this.urls == urls && currentIndex == 0
    {
      this.urls := urls;
      currentIndex := 0;
    }

    /** One pass: every URL at most once, from the given index around, until one answers. */
    method TrySend<T>(initialIndex: nat, pass: Pass<T>) returns (result: Outcome<(T, nat)>, tried: seq<Url>)
      requires initialIndex < |urls| == |pass|
      ensures tried == Rotate(urls, initialIndex)[..Attempts(pass)]
      ensures result == if !Answered(pass) then Threw
                        else Returned((pass[FirstAnswer(pass)].value, (initialIndex + FirstAnswer(pass)) % |urls|))
      ensures Tells(tried, pass, if result.Threw? then Threw else Returned(result.value.0))
      ensures forall k :: 0 <= k < |tried| ==> tried[k] == urls[(initialIndex + k) % |urls|]
      ensures result.Returned? ==> result.value.1 < |urls| && tried[|tried|-1] == urls[result.value.1]
    {
      tried := [];
      var index := initialIndex;
      Wraps(initialIndex, |urls|);
      for count := 0 to |urls|
        invariant index == (initialIndex + count) % |urls|
        invariant tried == Rotate(urls, initialIndex)[..count]
        invariant forall k :: 0 <= k < count ==> tried[k] == urls[(initialIndex + k) % |urls|]
        invariant forall i :: 0 <= i < count ==> pass[i].Threw?
      {
        WrappedIndex(urls, initialIndex, count);
        tried := tried + [urls[index]];
        if pass[count].Returned? {
          FirstAnswerIs(pass, count);
          return Returned((pass[count].value, index)), tried;
        }
        index := (index + 1) % |urls|;
      }
      result := Threw;
    }

    /** A request: passes from the same index until one is answered; only an answer moves the index. */
    method Send<T>(passes: seq<Pass<T>>) returns (result: Outcome<T>, tried: seq<seq<Url>>)
      requires Valid() && Fit(passes, |urls|)
      modifies this
      ensures Valid()
      ensures var used := passes[..PassesUsed(passes)];
              && currentIndex == IndexAfter(old(currentIndex), |urls|, used)
              && tried == IndexTried(urls, old(currentIndex), used)
      ensures result == ResultOf(passes)
    {
      var initialIndex := currentIndex;
      tried := [];
      for k := 0 to |passes|
        invariant currentIndex == initialIndex
        invariant forall i :: 0 <= i < k ==> !Answered(passes[i])
        invariant IndexAfter(initialIndex, |urls|, passes[..k]) == initialIndex
        invariant tried == IndexTried(urls, initialIndex, passes[..k])
      {
        var r, t := TrySend(initialIndex, passes[k]);
        assert passes[..k+1][..k] == passes[..k];
        tried := tried + [t];
        if r.Returned? {
          UsedAtLeast(passes, k);
          currentIndex := r.value.1;
          return Returned(r.value.0), tried;
        }
      }
      UsedAtLeast(passes, |passes|);
      assert passes[..|passes|] == passes;
      result := Threw;
    }
  }

  lemma {:induction false} FirstAnswerIs<T>(pass: Pass<T>, k: nat)
    requires k < |pass| && pass[k].Returned? && forall i :: 0 <= i < k ==> pass[i].Threw?
    ensures FirstAnswer(pass) == k
  {
    if k > 0 {
      FirstAnswerIs(pass[1..], k - 1);
    }
  }

  // ---- the manager that rotates its list ----

  /** The first success over a list, with its position; every failure before it is collected. */
  method FirstSuccess<T>(urls: seq<Url>, pass: Pass<T>) returns (result: Outcome<(T, nat)>, tried: seq<Url>)
    requires |pass| == |urls|
    ensures tried == urls[..Attempts(pass)]
    ensures result == if !Answered(pass) then Threw
                      else Returned((pass[FirstAnswer(pass)].value, FirstAnswer(pass)))
    ensures Tells(tried, pass, if result.Threw? then Threw else Returned(result.value.0))
    ensures tried == urls[..|tried|] && (result.Returned? ==> result.value.1 == |tried| - 1)
  {
    tried := [];
    for i := 0 to |urls|
      invariant tried == urls[..i]
      invariant forall k :: 0 <= k < i ==> pass[k].Threw?
    {
      tried := tried + [urls[i]];
      if pass[i].Returned? {
        FirstAnswerIs(pass, i);
        return Returned((pass[i].value, i)), tried;
      }
    }
    result := Threw;
  }

  class RpcUrlsManager {
    var urls: seq<Url>

    constructor (urls: seq<Url>)
      ensures this.urls == urls
    {
      this.urls := urls;
    }

    method TryEach<T>(passes: seq<Pass<T>>) returns (result: Outcome<T>, tried: seq<seq<Url>>)
      requires Fit(passes, |urls|)
      modifies this
      ensures var used := passes[..PassesUsed(passes)];
              && urls == ListAfter(old(urls), used)
              && tried == ListTried(old(urls), used)
      ensures result == ResultOf(passes)
    {
      var saved := urls;
      tried := [];
      for k := 0 to |passes|
        invariant urls == saved
        invariant forall i :: 0 <= i < k ==> !Answered(passes[i])
        invariant ListAfter(saved, passes[..k]) == saved
        invariant tried == ListTried(saved, passes[..k])
      {
        var r, t := FirstSuccess(saved, passes[k]);
        assert passes[..k+1][..k] == passes[..k];
        tried := tried + [t];
        if r.Returned? {
          UsedAtLeast(passes, k);
          var index := r.value.1;
          if index > 0 {
            var failed := saved[..index];
            urls := saved[index..] + failed;
          }
          return Returned(r.value.0), tried;
        }
      }
      UsedAtLeast(passes, |passes|);
      assert passes[..|passes|] == passes;
      result := Threw;
    }
  }

  // ---- the two agree ----

  lemma RotateFurther(urls: seq<Url>, i: nat, k: nat)
    requires i + k < |urls|
    ensures Rotate(Rotate(urls, i), k) == Rotate(urls, i + k)
  {
    var once := Rotate(urls, i);
    assert once[k..] == urls[i+k..] + urls[..i];
    assert once[..k] == urls[i..i+k];
  }

  lemma RotateAround(urls: seq<Url>, i: nat, k: nat)
    requires i < |urls| && k < |urls| <= i + k
    ensures Rotate(Rotate(urls, i), k) == Rotate(urls, i + k - |urls|)
  {
    var once, m := Rotate(urls, i), i + k - |urls|;
    assert once[k..] == urls[m..i];
    assert once[..k] == urls[i..] + urls[..m];
  }

  lemma RotateTwice(urls: seq<Url>, i: nat, k: nat)
    requires i < |urls| && k < |urls|
    ensures (i + k) % |urls| < |urls|
    ensures Rotate(Rotate(urls, i), k) == Rotate(urls, (i + k) % |urls|)
  {
    Wraps(i + k, |urls|);
    if i + k < |urls| {
      RotateFurther(urls, i, k);
    } else {
      RotateAround(urls, i, k);
    }
  }

  lemma NextRefines<T>(urls: seq<Url>, index: nat, pass: Pass<T>)
    requires index < |urls| == |pass|
    ensures NextIndex(index, |urls|, pass) < |urls|
    ensures NextList(Rotate(urls, index), pass) == Rotate(urls, NextIndex(index, |urls|, pass))
  {
    if Answered(pass) {
      RotateTwice(urls, index, FirstAnswer(pass));
    }
  }

  /** After an answered pass the manager's list begins with the URL that answered; otherwise it stays as it was. */
  lemma AnswerLeadsList<T>(urls: seq<Url>, passes: seq<Pass<T>>)
    requires urls != [] && Fit(passes, |urls|) && passes != []
    ensures var pass := passes[|passes|-1];
            var before := ListAfter(urls, passes[..|passes|-1]);
            && (Answered(pass) ==>
                  && LastTried(ListTried(urls, passes)) == Some(ListAfter(urls, passes)[0])
                  && ListAfter(urls, passes)[0] == before[FirstAnswer(pass)])
            && (!Answered(pass) ==> ListAfter(urls, passes) == before)
            && multiset(ListAfter(urls, passes)) == multiset(before)
  {
    var pass := passes[|passes|-1];
    var before := ListAfter(urls, passes[..|passes|-1]);
    if Answered(pass) {
      assert before == before[..FirstAnswer(pass)] + before[FirstAnswer(pass)..];
    }
  }

  /** After an answered pass the provider's index is that of the URL that answered; otherwise it stays as it was. */
  lemma AnswerMovesIndex<T>(urls: seq<Url>, index: nat, passes: seq<Pass<T>>)
    requires index < |urls| && Fit(passes, |urls|) && passes != []
    ensures var pass := passes[|passes|-1];
            var before, after := IndexAfter(index, |urls|, passes[..|passes|-1]), IndexAfter(index, |urls|, passes);
            && after < |urls|
            && (Answered(pass) ==> LastTried(IndexTried(urls, index, passes)) == Some(urls[after]))
            && (!Answered(pass) ==> after == before)
  {
    var pass := passes[|passes|-1];
    IndexStays(index, |urls|, passes);
    IndexStays(index, |urls|, passes[..|passes|-1]);
    if Answered(pass) {
      WrappedIndex(urls, IndexAfter(index, |urls|, passes[..|passes|-1]), FirstAnswer(pass));
    }
  }

  /**
   Over any run the rotated list is the original list rotated by the index, and both try the same
   URLs in the same order.
   */
  lemma {:induction false} IndexRefinesList<T>(urls: seq<Url>, passes: seq<Pass<T>>)
    requires urls != [] && Fit(passes, |urls|)
    ensures IndexAfter(0, |urls|, passes) < |urls|
    ensures ListAfter(urls, passes) == Rotate(urls, IndexAfter(0, |urls|, passes))
    ensures ListTried(urls, passes) == IndexTried(urls, 0, passes)
    decreases |passes|
  {
    if passes == [] {
      assert Rotate(urls, 0) == urls;
    } else {
      var before := passes[..|passes|-1];
      IndexRefinesList(urls, before);
      NextRefines(urls, IndexAfter(0, |urls|, before), passes[|passes|-1]);
    }
  }

  /** A pass tries no URL more often than it is listed; an unanswered one has tried them all, and all failed. */
  lemma PassCoverage<T>(urls: seq<Url>, index: nat, pass: Pass<T>)
    requires index < |urls| == |pass|
    ensures multiset(Rotate(urls, index)[..Attempts(pass)]) <= multiset(urls)
    ensures !Answered(pass) <==> forall i :: 0 <= i < |pass| ==> pass[i].Threw?
    ensures !Answered(pass) ==> multiset(Rotate(urls, index)[..Attempts(pass)]) == multiset(urls)
  {
    var all, n := Rotate(urls, index), Attempts(pass);
    assert urls == urls[..index] + urls[index..];
    assert multiset(all) == multiset(urls);
    assert all == all[..n] + all[n..];
    assert multiset(all) == multiset(all[..n]) + multiset(all[n..]);
  }
}
