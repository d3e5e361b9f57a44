/** How the provider divides its memory over the RAM caches: by the square roots of the torrent lengths. */
module CacheBudget {
  import opened Arith
  import opened Bytes
  import opened Files
  import opened Geometry
  import opened RamCaches
  import opened Sorting

  /** The square root, of which only the sign matters. Floating point is taken as real arithmetic. */
  type Root = r: nat -> real | forall n :: r(n) >= 0.0 && (n > 0 ==> r(n) > 0.0)
    witness (n: nat) => if n > 0 then 1.0 else 0.0

  function Sum(xs: seq<real>): real {
    if xs == [] then 0.0 else Sum(xs[..|xs| - 1]) + xs[|xs| - 1]
  }

  lemma {:induction false} SumNonNegative(xs: seq<real>)
    requires forall i | 0 <= i < |xs| :: xs[i] >= 0.0
    ensures Sum(xs) >= 0.0
    ensures forall i | 0 <= i < |xs| :: Sum(xs) >= xs[i]
  {
    if xs != [] {
      SumNonNegative(xs[..|xs| - 1]);
    }
  }

  /** math.Floor(scalingFactor * sqrt / pieceSize) */
  function Share(factor: real, weight: real, pieceSize: nat): int
    requires pieceSize >= 1
  {
    (factor * weight / pieceSize as real).Floor
  }

  /** A share of nothing is raised to one piece; the result is stored as a 32-bit integer. */
  function Allotment(factor: real, weight: real, pieceSize: nat): nat
    requires pieceSize >= 1 && factor >= 0.0 && weight >= 0.0
  {
    var share := Share(factor, weight, pieceSize);
    assert share >= 0 by {
      ShareBounds(factor, weight, pieceSize);
    }
    (if share == 0 then 1 else share) % TWO_TO_THE_32
  }

  function Allot(root: Root, factor: real, torrentLength: nat, pieceSize: nat): nat {
    if pieceSize >= 1 && factor >= 0.0 then Allotment(factor, root(torrentLength), pieceSize) else 1
  }

  lemma ShareBounds(factor: real, weight: real, pieceSize: nat)
    requires pieceSize >= 1 && factor >= 0.0 && weight >= 0.0
    ensures 0 <= Share(factor, weight, pieceSize)
    ensures Share(factor, weight, pieceSize) as real * pieceSize as real <= factor * weight
  {
    var x, size := factor * weight, pieceSize as real;
    var q := x / size;
    assert x >= 0.0;
    DivideNonNegative(x, size);
    var share := q.Floor;
    assert share as real <= q;
    MultiplyMonotone(share as real, q, size);
    assert q * size == x;
  }

  lemma DivideNonNegative(x: real, d: real)
    requires x >= 0.0 && d > 0.0
    ensures x / d >= 0.0 && x / d * d == x
  {
  }

  lemma MultiplyMonotone(x: real, y: real, d: real)
    requires x <= y && d >= 0.0
    ensures x * d <= y * d
  {
  }

  /** The bytes that an allotment may hold: at most the share, or one piece if the share is nothing. */
  lemma AllotmentBytes(factor: real, weight: real, pieceSize: nat)
    requires pieceSize >= 1 && factor >= 0.0 && weight >= 0.0
    ensures Fair(factor, weight, Held(factor, Claim(weight, pieceSize)), Bump(factor, Claim(weight, pieceSize)))
  {
    ShareBounds(factor, weight, pieceSize);
    var share := Share(factor, weight, pieceSize);
    if share != 0 {
      MultiplyMonotone((share % TWO_TO_THE_32) as real, share as real, pieceSize as real);
    } else {
      assert 0.0 <= factor * weight by {
        MultiplyMonotone(0.0, factor, weight);
      }
    }
  }

  // ---- All caches together ----

  datatype Claim = Claim(weight: real, pieceSize: nat)

  ghost predicate ClaimsOk(claims: seq<Claim>) {
    forall i | 0 <= i < |claims| :: claims[i].weight >= 0.0 && claims[i].pieceSize >= 1
  }

  function Weights(claims: seq<Claim>): seq<real> {
    seq(|claims|, i requires 0 <= i < |claims| => claims[i].weight)
  }

  function Held(factor: real, k: Claim): real
    requires k.weight >= 0.0 && k.pieceSize >= 1 && factor >= 0.0
  {
    Allotment(factor, k.weight, k.pieceSize) as real * k.pieceSize as real
  }

  function Bump(factor: real, k: Claim): real
    requires k.pieceSize >= 1
  {
    if Share(factor, k.weight, k.pieceSize) == 0 then k.pieceSize as real else 0.0
  }

  /** The bytes all caches together may hold, and the bytes given to caches whose share is nothing. */
  ghost function Allotted(claims: seq<Claim>, factor: real): real
    requires ClaimsOk(claims) && factor >= 0.0
  {
    if claims == [] then 0.0
    else
      var k := claims[|claims| - 1];
      Allotted(claims[..|claims| - 1], factor) + Held(factor, k)
  }

  ghost function Raised(claims: seq<Claim>, factor: real): real
    requires ClaimsOk(claims) && factor >= 0.0
  {
    if claims == [] then 0.0
    else
      var k := claims[|claims| - 1];
      Raised(claims[..|claims| - 1], factor) + Bump(factor, k)
  }

  lemma WeightsGrow(claims: seq<Claim>)
    requires claims != []
    ensures Sum(Weights(claims)) == Sum(Weights(claims[..|claims| - 1])) + claims[|claims| - 1].weight
  {
    assert Weights(claims)[..|claims| - 1] == Weights(claims[..|claims| - 1]);
  }

  /** What is allotted exceeds the product of the factor and the weights by at most what was raised. */
  ghost predicate Fair(factor: real, weights: real, allotted: real, raised: real) {
    allotted <= factor * weights + raised
  }

  lemma {:induction false} AllottedAtMost(claims: seq<Claim>, factor: real)
    requires ClaimsOk(claims) && factor >= 0.0
    ensures Fair(factor, Sum(Weights(claims)), Allotted(claims, factor), Raised(claims, factor))
  {
    if claims == [] {
      assert Sum(Weights(claims)) == 0.0;
    } else {
      var init, k := claims[..|claims| - 1], claims[|claims| - 1];
      AllottedAtMost(init, factor);
      WeightsGrow(claims);
      AllotmentBytes(factor, k.weight, k.pieceSize);
      AddClaim(factor, Sum(Weights(init)), k.weight, Allotted(init, factor), Raised(init, factor),
               Held(factor, k), Bump(factor, k));
    }
  }

  lemma AddClaim(factor: real, weights: real, weight: real, allotted: real, raised: real, held: real, bump: real)
    requires Fair(factor, weights, allotted, raised) && Fair(factor, weight, held, bump)
    ensures Fair(factor, weights + weight, allotted + held, raised + bump)
  {
    Distribute(factor, weights, weight);
  }

  lemma Distribute(f: real, x: real, y: real)
    ensures f * (x + y) == f * x + f * y
  {
  }

  // ---- No more is left over than one piece for each cache ----

  ghost predicate NoneWraps(claims: seq<Claim>, factor: real) {
    && ClaimsOk(claims)
    && forall i | 0 <= i < |claims| :: Share(factor, claims[i].weight, claims[i].pieceSize) < TWO_TO_THE_32
  }

  ghost function OnePieceEach(claims: seq<Claim>): real {
    if claims == [] then 0.0
    else OnePieceEach(claims[..|claims| - 1]) + claims[|claims| - 1].pieceSize as real
  }

  ghost predicate Used(factor: real, weights: real, allotted: real, spare: real) {
    factor * weights <= allotted + spare
  }

  /** An allotment is the largest number of pieces within the share: one piece more would exceed it. */
  lemma AllotmentAtLeast(factor: real, weight: real, pieceSize: nat)
    requires pieceSize >= 1 && factor >= 0.0 && weight >= 0.0 && Share(factor, weight, pieceSize) < TWO_TO_THE_32
    ensures factor * weight < (Allotment(factor, weight, pieceSize) + 1) as real * pieceSize as real
    ensures Used(factor, weight, Held(factor, Claim(weight, pieceSize)), pieceSize as real)
  {
    ShareBounds(factor, weight, pieceSize);
    var x, size, n := factor * weight, pieceSize as real, Allotment(factor, weight, pieceSize) as real;
    var q := x / size;
    DivideNonNegative(x, size);
    assert q < n + 1.0;
    MultiplyBelow(q, n + 1.0, size);
    assert (n + 1.0) * size == n * size + size;
  }

  lemma MultiplyBelow(x: real, y: real, d: real)
    requires x < y && d > 0.0
    ensures x * d < y * d
  {
  }

  lemma {:induction false} AllottedAtLeast(claims: seq<Claim>, factor: real)
    requires factor >= 0.0 && NoneWraps(claims, factor)
    ensures Used(factor, Sum(Weights(claims)), Allotted(claims, factor), OnePieceEach(claims))
  {
    if claims == [] {
      assert Sum(Weights(claims)) == 0.0;
    } else {
      var init, k := claims[..|claims| - 1], claims[|claims| - 1];
      AllottedAtLeast(init, factor);
      WeightsGrow(claims);
      AllotmentAtLeast(factor, k.weight, k.pieceSize);
      AddUsed(factor, Sum(Weights(init)), k.weight, Allotted(init, factor), OnePieceEach(init), Held(factor, k),
              k.pieceSize as real);
    }
  }

  lemma AddUsed(factor: real, weights: real, weight: real, allotted: real, spare: real, held: real, size: real)
    requires Used(factor, weights, allotted, spare) && Used(factor, weight, held, size)
    ensures Used(factor, weights + weight, allotted + held, spare + size)
  {
    Distribute(factor, weights, weight);
  }

  /** All of the budget is given out, but for less than one piece for each cache. */
  lemma BudgetIsUsed(claims: seq<Claim>, budget: real)
    requires ClaimsOk(claims) && budget >= 0.0 && Sum(Weights(claims)) > 0.0
    requires NoneWraps(claims, budget / Sum(Weights(claims)))
    ensures budget / Sum(Weights(claims)) >= 0.0
    ensures budget <= Allotted(claims, budget / Sum(Weights(claims))) + OnePieceEach(claims)
  {
    var total := Sum(Weights(claims));
    DivideNonNegative(budget, total);
    AllottedAtLeast(claims, budget / total);
  }

  /** The budget is kept, but for one piece for each cache that was raised from nothing. */
  lemma WithinBudget(claims: seq<Claim>, budget: real)
    requires ClaimsOk(claims) && budget >= 0.0 && Sum(Weights(claims)) > 0.0
    ensures budget / Sum(Weights(claims)) >= 0.0
    ensures Allotted(claims, budget / Sum(Weights(claims))) <= budget + Raised(claims, budget / Sum(Weights(claims)))
  {
    var total := Sum(Weights(claims));
    DivideNonNegative(budget, total);
    AllottedAtMost(claims, budget / total);
  }

  /** The claims of the caches in the order in which the map is walked. */
  function Claims(caches: map<string, RamCache>, root: Root, order: seq<string>): (claims: seq<Claim>)
    requires forall k | k in order :: k in caches
    ensures |claims| == |order|
  {
    seq(|order|, i requires 0 <= i < |order| => Claim(root(caches[order[i]].torrentLength), caches[order[i]].pieceSize))
  }

  class RamCacheProvider {
    const capacity: nat  // MiB
    const root: Root
    var caches: map<string, RamCache>

    /** Caches of different torrents are different, and every torrent has at least one byte. */
    ghost predicate Valid()
      reads this, caches.Values
    {
      && (forall k | k in caches :: caches[k].Counted() && caches[k].torrentLength >= 1 && caches[k].pieceSize >= 1)
      && forall k, l | k in caches && l in caches && k != l :: caches[k] != caches[l]
    }

    constructor (capacity: nat, root: Root)
      ensures Valid() && caches == map[] && this.capacity == capacity
    {
      this.capacity := capacity;
      this.root := root;
      caches := map[];
    }

    /** The keys of the map in some order, and the sum of the roots of the torrent lengths. */
    method Walk() returns (order: seq<string>, scalingTotal: real)
      requires Valid()
      ensures NoDuplicates(order) && forall k :: k in order <==> k in caches
      ensures scalingTotal == Sum(Weights(Claims(caches, root, order)))
    {
      order, scalingTotal := [], 0.0;
      var todo := caches.Keys;
      while todo != {}
        invariant todo <= caches.Keys && NoDuplicates(order)
        invariant forall k :: k in order <==> k in caches && k !in todo
        invariant scalingTotal == Sum(Weights(Claims(caches, root, order)))
        decreases todo
      {
        var k :| k in todo;
        ghost var longer := Weights(Claims(caches, root, order + [k]));
        assert longer[..|order|] == Weights(Claims(caches, root, order));
        order, scalingTotal := order + [k], scalingTotal + root(caches[k].torrentLength);
        todo := todo - {k};
      }
    }

    ghost function Budget(): real {
      (capacity * 1024 * 1024) as real
    }

    lemma TotalPositive(order: seq<string>)
      requires Valid() && order != [] && forall k | k in order :: k in caches
      ensures ClaimsOk(Claims(caches, root, order)) && Sum(Weights(Claims(caches, root, order))) > 0.0
    {
      var ws := Weights(Claims(caches, root, order));
      SumNonNegative(ws);
      assert ws[0] > 0.0;
    }

    twostate predicate SameBoxes(cache: RamCache)
      reads cache
    {
      && cache.store == old(cache.store) && cache.atimes == old(cache.atimes)
      && cache.actualUsage == old(cache.actualUsage)
    }

    /** Each cache gets the capacity that `allot` gives for its torrent. */
    method SetCapacities(allot: (nat, nat) -> nat)
      requires Valid()
      modifies caches.Values
      ensures Valid()
      ensures forall k | k in caches :: caches[k].capacity == allot(caches[k].torrentLength, caches[k].pieceSize)
      ensures forall k | k in caches :: SameBoxes(caches[k])
    {
      var todo := caches.Keys;
      while todo != {}
        invariant todo <= caches.Keys && Valid()
        invariant forall k | k in caches && k !in todo ::
          caches[k].capacity == allot(caches[k].torrentLength, caches[k].pieceSize)
        invariant forall k | k in caches :: SameBoxes(caches[k])
        decreases todo
      {
        var k :| k in todo;
        caches[k].SetCapacity(allot(caches[k].torrentLength, caches[k].pieceSize));
        todo := todo - {k};
      }
    }

    function LessOf(x: int, y: int): int {
      if x <= y then x else y
    }

    /** The cache was trimmed to its capacity, and no further. */
    twostate predicate Trimmed(cache: RamCache)
      reads cache
    {
      && cache.actualUsage == LessOf(old(cache.actualUsage), cache.capacity) && cache.capacity == old(cache.capacity)
      && cache.atimes == old(cache.atimes) && Evicts(old(cache.store), cache.store, cache.atimes)
    }

    method TrimAll()
      requires Valid()
      modifies caches.Values
      ensures Valid()
      ensures forall k | k in caches :: Trimmed(caches[k])
    {
      hide Evicts, InUse, RamCache.Counted;
      var todo := caches.Keys;
      while todo != {}
        invariant todo <= caches.Keys && Valid()
        invariant forall k | k in caches && k !in todo :: Trimmed(caches[k])
        invariant forall k | k in todo :: unchanged(caches[k])
        decreases todo
      {
        var k :| k in todo;
        caches[k].Trim();
        todo := todo - {k};
      }
    }

    /** Each cache has its allotment; all of them together keep the budget but for what was raised, and use it but for
        less than one piece each. */
    ghost predicate Shared(order: seq<string>)
      reads this, caches.Values
      requires forall k | k in order :: k in caches
    {
      var claims := Claims(caches, root, order);
      var total := Sum(Weights(claims));
      && ClaimsOk(claims) && total > 0.0 && Budget() / total >= 0.0
      && (forall k | k in caches ::
           caches[k].capacity == Allot(root, Budget() / total, caches[k].torrentLength, caches[k].pieceSize))
      && Allotted(claims, Budget() / total) <= Budget() + Raised(claims, Budget() / total)
      && (NoneWraps(claims, Budget() / total) ==>
           Budget() <= Allotted(claims, Budget() / total) + OnePieceEach(claims))
    }

    method ShareOut() returns (order: seq<string>)
      requires Valid() && caches != map[]
      modifies caches.Values
      ensures Valid() && NoDuplicates(order) && forall k :: k in order <==> k in caches
      ensures forall k | k in caches :: SameBoxes(caches[k])
      ensures Shared(order)
    {
      var scalingTotal;
      order, scalingTotal := Walk();
      assert order != [] by {
        var k :| k in caches;
        assert k in order;
      }
      TotalPositive(order);
      WithinBudget(Claims(caches, root, order), Budget());
      if NoneWraps(Claims(caches, root, order), Budget() / Sum(Weights(Claims(caches, root, order)))) {
        BudgetIsUsed(Claims(caches, root, order), Budget());
      }
      var scalingFactor := (capacity * 1024 * 1024) as real / scalingTotal;
      var root := root;
      SetCapacities((torrentLength, pieceSize) => Allot(root, scalingFactor, torrentLength, pieceSize));
    }

    /** Every cache gets its allotment of the budget and is trimmed to it. */
    method Rebalance() returns (order: seq<string>)
      requires Valid()
      modifies caches.Values
      ensures Valid() && NoDuplicates(order) && forall k :: k in order <==> k in caches
      ensures forall k | k in caches ::
        && caches[k].actualUsage == LessOf(old(caches[k].actualUsage), caches[k].capacity)
        && Evicts(old(caches[k].store), caches[k].store, old(caches[k].atimes))
      ensures caches != map[] ==> Shared(order)
    {
      order := [];
      if caches != map[] {
        order := ShareOut();
        TrimAll();
      }
    }

    /** Every cache keeps to its capacity, and all of them to the budget. */
    ghost predicate Balanced(order: seq<string>)
      reads this, caches.Values
    {
      && NoDuplicates(order) && (forall k :: k in order <==> k in caches)
      && (forall k | k in caches :: caches[k].actualUsage <= caches[k].capacity)
      && (caches != map[] ==> Shared(order))
    }

    /** The new cache takes part in the budget; a cache of the same torrent is forgotten. */
    method NewCache(infohash: string, numPieces: nat, pieceSize: nat, torrentLength: nat, underlying: FileStore)
      returns (rc: RamCache, ghost order: seq<string>)
      requires Valid() && underlying.Valid() && underlying.pieceSize == pieceSize
      requires |underlying.contents| == torrentLength
      requires pieceSize >= 1 && torrentLength >= 1 && numPieces == PieceCount(torrentLength, pieceSize)
      modifies this`caches, caches.Values
      ensures Valid() && fresh(rc) && caches == old(caches)[infohash := rc]
      ensures rc.Valid() && rc.underlying == underlying && rc.pieceSize == pieceSize && rc.Boxes() == map[]
      ensures Balanced(order)
    {
      hide Empty, Shared, BoxesCover, InUse;
      rc := new RamCache(numPieces, pieceSize, torrentLength, underlying);
      EmptyBoxes(rc);
      order := Join(infohash, rc);
      EmptyValid(rc);
    }

    lemma EmptyValid(rc: RamCache)
      requires rc.Counted() && Empty(rc) && rc.underlying.Valid() && rc.underlying.pieceSize == rc.pieceSize
      requires rc.pieceSize >= 1 && |rc.underlying.contents| == rc.torrentLength
      requires BoxesCover(|rc.store|, rc.pieceSize, rc.torrentLength)
      ensures rc.Valid() && rc.Boxes() == map[]
    {
    }

    ghost predicate Empty(rc: RamCache)
      reads rc
    {
      forall i | 0 <= i < |rc.store| :: rc.store[i] == None
    }

    lemma EmptyBoxes(rc: RamCache)
      requires rc.Boxes() == map[]
      ensures Empty(rc)
    {
      forall i: nat | i < |rc.store|
        ensures rc.store[i] == None
      {
        assert i !in rc.Boxes();
      }
    }

    /** An empty cache joins and stays empty. */
    method Join(infohash: string, rc: RamCache) returns (ghost order: seq<string>)
      requires Valid() && rc !in caches.Values && rc.Counted() && rc.torrentLength >= 1 && rc.pieceSize >= 1
      requires Empty(rc)
      modifies this`caches, caches.Values, rc
      ensures Valid() && caches == old(caches)[infohash := rc] && Balanced(order)
      ensures rc.Counted() && Empty(rc) && |rc.store| == |old(rc.store)|
    {
      hide Shared, InUse, NotNewer;
      PutCache(infohash, rc);
      order := Rebalance();
      assert caches[infohash] == rc;
    }

    method PutCache(infohash: string, rc: RamCache)
      requires Valid() && rc !in caches.Values && rc.Counted() && rc.torrentLength >= 1 && rc.pieceSize >= 1
      modifies this`caches
      ensures Valid() && caches == old(caches)[infohash := rc]
    {
      ghost var was := caches;
      caches := caches[infohash := rc];
      forall k, l | k in caches && l in caches && k != l
        ensures caches[k] != caches[l]
      {
        assert k != infohash ==> was[k] in was.Values;
        assert l != infohash ==> was[l] in was.Values;
      }
    }

    /** What the closed cache had goes to the others. */
    method CacheClosed(infohash: string) returns (ghost order: seq<string>)
      requires Valid()
      modifies this`caches, caches.Values
      ensures Valid() && caches == old(caches) - {infohash}
      ensures Balanced(order)
    {
      caches := caches - {infohash};
      order := Rebalance();
    }
  }
}
