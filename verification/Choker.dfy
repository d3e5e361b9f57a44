/** The classic choking policy: three slots for the fastest peers and one for an optimist who keeps it for a while. */
module Choker {
  import opened Bytes
  import opened Sorting

  const HIGH_BANDWIDTH_SLOTS: nat := 3
  const OPTIMISTIC_UNCHOKE_INDEX: nat := HIGH_BANDWIDTH_SLOTS
  const OPTIMISTIC_UNCHOKE_COUNT: nat := 3

  /** The memory of the policy: who was unchoked optimistically, and for how many further calls. */
  datatype Policy<T> = Policy(optimist: Option<T>, counter: int)

  ghost predicate TopSorted<T>(rate: T -> real, after: seq<T>) {
    forall i, j | 0 <= i < j < |after| && i < HIGH_BANDWIDTH_SLOTS :: rate(after[i]) >= rate(after[j])
  }

  function Top<T>(after: seq<T>): seq<T> {
    after[..Min(HIGH_BANDWIDTH_SLOTS, |after|)]
  }

  /** The optimist is a candidate, is not among the fastest, and its time is not up. */
  ghost predicate Stays<T>(p: Policy<T>, after: seq<T>) {
    && p.optimist.Some? && p.optimist.value in after && p.optimist.value !in Top(after)
    && p.counter + 1 < OPTIMISTIC_UNCHOKE_COUNT
  }

  /** One call: the fastest come first, and then the optimist, who stays or is drawn anew. */
  ghost predicate ChokeStep<T>(p: Policy<T>, rate: T -> real, before: seq<T>, p': Policy<T>, after: seq<T>) {
    && multiset(after) == multiset(before)
    && TopSorted(rate, after)
    && if Stays(p, after) then
         && |after| > HIGH_BANDWIDTH_SLOTS && after[HIGH_BANDWIDTH_SLOTS] == p.optimist.value
         && p' == Policy(p.optimist, p.counter + 1)
       else if |after| > HIGH_BANDWIDTH_SLOTS then p' == Policy(Some(after[HIGH_BANDWIDTH_SLOTS]), 0)
       else p' == p
  }

  datatype Call<!T> = Call(rate: T -> real, before: seq<T>, after: seq<T>)

  /** The policy goes through `states`, one call after the other. */
  ghost predicate Run<T>(states: seq<Policy<T>>, calls: seq<Call<T>>) {
    && |states| == |calls| + 1
    && forall i | 0 <= i < |calls| ::
         ChokeStep(states[i], calls[i].rate, calls[i].before, states[i + 1], calls[i].after)
  }

  class ClassicChokePolicy<T(==)> {
    var optimisticUnchoker: Option<T>
    var counter: int
    ghost var states: seq<Policy<T>>
    ghost var calls: seq<Call<T>>  // all calls so far

    /** The calls so far are a run that has led to the present state. */
    ghost predicate Valid()
      reads this
    {
      Run(states, calls) && states[0] == Policy(None, 0) && states[|calls|] == State()
    }

    ghost function State(): Policy<T>
      reads this
    {
      Policy(optimisticUnchoker, counter)
    }

    constructor ()
      ensures Valid() && State() == Policy(None, 0) && calls == []
    {
      optimisticUnchoker, counter := None, 0;
      states, calls := [Policy(None, 0)], [];
    }

    method FindOptimist(chokers: array<T>) returns (index: int)
      ensures -1 <= index < chokers.Length
      ensures index >= 0 ==> Some(chokers[index]) == optimisticUnchoker
      ensures forall i | 0 <= i < index :: Some(chokers[i]) != optimisticUnchoker
      ensures index < 0 ==> forall i | 0 <= i < chokers.Length :: Some(chokers[i]) != optimisticUnchoker
    {
      for i := 0 to chokers.Length
        invariant forall k | 0 <= k < i :: Some(chokers[k]) != optimisticUnchoker
      {
        if Some(chokers[i]) == optimisticUnchoker {
          return i;
        }
      }
      return -1;
    }

    /** A fresh draw among the candidates below the top, if there are any. */
    method DrawOptimist(chokers: array<T>, ghost rate: T -> real, ghost before: seq<T>)
      requires chokers[..] == before && TopSorted(rate, before)
      modifies this`optimisticUnchoker, this`counter, chokers
      ensures TopSorted(rate, chokers[..]) && Top(chokers[..]) == Top(before)
      ensures multiset(chokers[..]) == multiset(before)
      ensures forall x :: x in chokers[..] <==> x in before
      ensures State() == if chokers.Length > HIGH_BANDWIDTH_SLOTS then Policy(Some(chokers[HIGH_BANDWIDTH_SLOTS]), 0)
                         else old(State())
    {
      var candidateCount := chokers.Length - OPTIMISTIC_UNCHOKE_INDEX;
      if candidateCount > 0 {
        var draw: nat :| draw < candidateCount;
        var candidate := OPTIMISTIC_UNCHOKE_INDEX + draw;
        Swap(chokers, OPTIMISTIC_UNCHOKE_INDEX, candidate);
        SwapBelow(rate, before, candidate);
        counter := 0;
        optimisticUnchoker := Some(chokers[OPTIMISTIC_UNCHOKE_INDEX]);
      }
    }

    /** `rate` is the download rate of each candidate at the time of the call. */
    method Choke(chokers: array<T>, rate: T -> real) returns (unchokeCount: nat)
      requires Valid()
      modifies this, chokers
      ensures Valid() && calls == old(calls) + [Call(rate, old(chokers[..]), chokers[..])]
      ensures unchokeCount == Min(OPTIMISTIC_UNCHOKE_INDEX + 1, chokers.Length)
    {
      ghost var before := chokers[..];
      unchokeCount := Rank(chokers, rate);
      states, calls := states + [State()], calls + [Call(rate, before, chokers[..])];
    }

    /** The ranking of one call. */
    method Rank(chokers: array<T>, rate: T -> real) returns (unchokeCount: nat)
      modifies this`optimisticUnchoker, this`counter, chokers
      ensures ChokeStep(old(State()), rate, old(chokers[..]), State(), chokers[..])
      ensures unchokeCount == Min(OPTIMISTIC_UNCHOKE_INDEX + 1, chokers.Length)
    {
      Sort(chokers, c => -rate(c));
      ghost var sorted := chokers[..];
      assert TopSorted(rate, sorted) by {
        assert SortedBy(sorted, c => -rate(c));
      }
      var optimistIndex := FindOptimist(chokers);
      if optimistIndex >= 0 {
        if optimistIndex < OPTIMISTIC_UNCHOKE_INDEX {
          optimistIndex := -1;
        } else {
          Swap(chokers, OPTIMISTIC_UNCHOKE_INDEX, optimistIndex);
          SwapBelow(rate, sorted, optimistIndex);
          optimistIndex := OPTIMISTIC_UNCHOKE_INDEX;
        }
      }
      ghost var middle := chokers[..];
      if optimistIndex >= 0 {
        counter := counter + 1;
        if counter >= OPTIMISTIC_UNCHOKE_COUNT {
          counter := 0;
          optimistIndex := -1;
        }
      }
      if optimistIndex < 0 {
        DrawOptimist(chokers, rate, middle);
      }
      unchokeCount := OPTIMISTIC_UNCHOKE_INDEX + 1;
      if unchokeCount > chokers.Length {
        unchokeCount := chokers.Length;
      }
    }
  }

  /** Exchanging two candidates below the top leaves the top and the set of candidates as they were. */
  lemma SwapBelow<T>(rate: T -> real, s: seq<T>, k: nat)
    requires HIGH_BANDWIDTH_SLOTS <= k < |s| && TopSorted(rate, s)
    ensures TopSorted(rate, Swapped(s, HIGH_BANDWIDTH_SLOTS, k)) && Top(Swapped(s, HIGH_BANDWIDTH_SLOTS, k)) == Top(s)
    ensures Swapped(s, HIGH_BANDWIDTH_SLOTS, k)[HIGH_BANDWIDTH_SLOTS] == s[k]
    ensures forall x :: x in Swapped(s, HIGH_BANDWIDTH_SLOTS, k) <==> x in s
  {
    SwappedPermutes(s, HIGH_BANDWIDTH_SLOTS, k);
    PermutationOf(Swapped(s, HIGH_BANDWIDTH_SLOTS, k), s);
  }

  // ---- Runs of calls ----

  lemma {:induction false} CounterInRange<T>(states: seq<Policy<T>>, calls: seq<Call<T>>, i: nat)
    requires Run(states, calls) && i < |states| && 0 <= states[0].counter < OPTIMISTIC_UNCHOKE_COUNT
    ensures 0 <= states[i].counter < OPTIMISTIC_UNCHOKE_COUNT
  {
    if i > 0 {
      CounterInRange(states, calls, i - 1);
      assert ChokeStep(states[i - 1], calls[i - 1].rate, calls[i - 1].before, states[i], calls[i - 1].after);
    }
  }

  /** After a call with at least four candidates the fourth is the optimist on record. */
  lemma OptimistIsFourth<T>(states: seq<Policy<T>>, calls: seq<Call<T>>, i: nat)
    requires Run(states, calls) && i < |calls| && |calls[i].before| > HIGH_BANDWIDTH_SLOTS
    ensures |calls[i].after| > HIGH_BANDWIDTH_SLOTS
    ensures states[i + 1].optimist == Some(calls[i].after[HIGH_BANDWIDTH_SLOTS])
  {
    assert ChokeStep(states[i], calls[i].rate, calls[i].before, states[i + 1], calls[i].after);
    PermutationOf(calls[i].after, calls[i].before);
  }

  /** The call finds the optimist among the candidates but not among the fastest. */
  ghost predicate Outside<T>(call: Call<T>, x: T) {
    x in call.before && x !in Top(call.after)
  }

  /** An optimist drawn in call i that stays a candidate outside the top keeps the slot in the next two calls,
      and the third draws anew. */
  lemma Tenure<T>(states: seq<Policy<T>>, calls: seq<Call<T>>, i: nat, x: T)
    requires Run(states, calls) && i + 3 < |calls|
    requires states[i + 1] == Policy(Some(x), 0)
    requires Outside(calls[i + 1], x) && Outside(calls[i + 2], x) && Outside(calls[i + 3], x)
    ensures |calls[i + 1].after| > HIGH_BANDWIDTH_SLOTS && calls[i + 1].after[HIGH_BANDWIDTH_SLOTS] == x
    ensures states[i + 2] == Policy(Some(x), 1)
    ensures |calls[i + 2].after| > HIGH_BANDWIDTH_SLOTS && calls[i + 2].after[HIGH_BANDWIDTH_SLOTS] == x
    ensures states[i + 3] == Policy(Some(x), 2)
    ensures |calls[i + 3].after| > HIGH_BANDWIDTH_SLOTS
    ensures states[i + 4] == Policy(Some(calls[i + 3].after[HIGH_BANDWIDTH_SLOTS]), 0)
  {
    TenureStep(states[i + 1], calls[i + 1], states[i + 2], x);
    TenureStep(states[i + 2], calls[i + 2], states[i + 3], x);
    TenureStep(states[i + 3], calls[i + 3], states[i + 4], x);
  }

  lemma TenureStep<T>(p: Policy<T>, call: Call<T>, p': Policy<T>, x: T)
    requires ChokeStep(p, call.rate, call.before, p', call.after) && Outside(call, x) && p.optimist == Some(x)
    ensures |call.after| > HIGH_BANDWIDTH_SLOTS
    ensures p' == if p.counter + 1 < OPTIMISTIC_UNCHOKE_COUNT then Policy(Some(x), p.counter + 1)
                  else Policy(Some(call.after[HIGH_BANDWIDTH_SLOTS]), 0)
    ensures p.counter + 1 < OPTIMISTIC_UNCHOKE_COUNT ==> call.after[HIGH_BANDWIDTH_SLOTS] == x
  {
    PermutationOf(call.after, call.before);
    assert x in call.after && x !in Top(call.after);
  }
}
