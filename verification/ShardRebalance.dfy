/** What shardcfg's rebalancing computes, as functions of the shard array and the set of group ids,
    and what is promised of it: balance, termination, minimal movement. */
module ShardRebalance {
  import opened SetSums

  type Gid = int
  type Shards = seq<Gid>

  // ---------- loads ----------

  ghost function Owned(a: Shards, g: Gid): set<int> {
    set s | 0 <= s < |a| && a[s] == g
  }

  ghost function Load(a: Shards, g: Gid): nat {
    |Owned(a, g)|
  }

  ghost function Loads(a: Shards): int -> int {
    (g: Gid) => Load(a, g)
  }

  /** g carries the smallest load, and the smallest gid among those that do. */
  ghost predicate IsLeast(a: Shards, groups: set<Gid>, g: Gid) {
    g in groups &&
    forall h | h in groups :: Load(a, g) < Load(a, h) || (Load(a, g) == Load(a, h) && g <= h)
  }

  /** g carries the largest load, and the smallest gid among those that do. */
  ghost predicate IsMost(a: Shards, groups: set<Gid>, g: Gid) {
    g in groups &&
    forall h | h in groups :: Load(a, g) > Load(a, h) || (Load(a, g) == Load(a, h) && g <= h)
  }

  lemma {:induction false} LeastExists(a: Shards, groups: set<Gid>)
    requires groups != {}
    ensures exists g :: IsLeast(a, groups, g)
  {
    var x := Pick(groups);
    if groups == {x} {
      assert IsLeast(a, groups, x);
    } else {
      LeastExists(a, groups - {x});
      var y :| IsLeast(a, groups - {x}, y);
      assert IsLeast(a, groups, x) || IsLeast(a, groups, y);
    }
  }

  lemma {:induction false} MostExists(a: Shards, groups: set<Gid>)
    requires groups != {}
    ensures exists g :: IsMost(a, groups, g)
  {
    var x := Pick(groups);
    if groups == {x} {
      assert IsMost(a, groups, x);
    } else {
      MostExists(a, groups - {x});
      var y :| IsMost(a, groups - {x}, y);
      assert IsMost(a, groups, x) || IsMost(a, groups, y);
    }
  }

  ghost function Least(a: Shards, groups: set<Gid>): (g: Gid)
    requires groups != {}
    ensures IsLeast(a, groups, g)
  {
    LeastExists(a, groups);
    var g :| IsLeast(a, groups, g); g
  }

  ghost function Most(a: Shards, groups: set<Gid>): (g: Gid)
    requires groups != {}
    ensures IsMost(a, groups, g)
  {
    MostExists(a, groups);
    var g :| IsMost(a, groups, g); g
  }

  /** The lowest shard held by g. */
  function FirstOwned(a: Shards, g: Gid): (s: nat)
    requires g in a
    ensures s < |a| && a[s] == g && g !in a[..s]
  {
    if a[0] == g then 0 else
      var t := FirstOwned(a[1..], g);
      assert a[..t + 1] == [a[0]] + a[1..][..t];
      t + 1
  }

  // ---------- Rebalance ----------

  /** First loop: shards from s on that belong to no group go to the least loaded group, one by one. */
  ghost function AssignOrphans(a: Shards, groups: set<Gid>, s: nat): Shards
    requires groups != {} && s <= |a|
    decreases |a| - s
  {
    if s == |a| then a
    else if a[s] in groups then AssignOrphans(a, groups, s + 1)
    else AssignOrphans(a[s := Least(a, groups)], groups, s + 1)
  }

  ghost predicate Level(a: Shards, groups: set<Gid>)
    requires groups != {}
  {
    Load(a, Most(a, groups)) < Load(a, Least(a, groups)) + 2
  }

  lemma MostIsHeld(a: Shards, groups: set<Gid>)
    requires groups != {} && !Level(a, groups)
    ensures Most(a, groups) in a
  {
    var g := Most(a, groups);
    var s :| s in Owned(a, g);
    assert a[s] == g;
  }

  /** One iteration of the second loop. */
  ghost function MoveOne(a: Shards, groups: set<Gid>): Shards
    requires groups != {} && !Level(a, groups)
  {
    MostIsHeld(a, groups);
    a[FirstOwned(a, Most(a, groups)) := Least(a, groups)]
  }

  ghost function Imbalance(a: Shards, groups: set<Gid>): int {
    Sum(groups, Squares(a))
  }

  /** Second loop: move shards from the most to the least loaded group until the gap is at most 1. */
  ghost function MoveShards(a: Shards, groups: set<Gid>): Shards
    requires groups != {}
    decreases Imbalance(a, groups)
  {
    if Level(a, groups) then a else
      MoveOneLowersImbalance(a, groups);
      MoveShards(MoveOne(a, groups), groups)
  }

  ghost function Rebalanced(a: Shards, groups: set<Gid>): Shards {
    if groups == {} then seq(|a|, _ => 0) else MoveShards(AssignOrphans(a, groups, 0), groups)
  }

  // ---------- one reassignment ----------

  lemma ReceiverAfterReassign(a: Shards, s: nat, g: Gid)
    requires s < |a| && a[s] != g
    ensures Owned(a[s := g], g) == Owned(a, g) + {s}
    ensures Load(a[s := g], g) == Load(a, g) + 1
  {
    var b := a[s := g];
    assert forall i :: i in Owned(b, g) <==> i in Owned(a, g) + {s};
    assert s !in Owned(a, g);
  }

  lemma GiverAfterReassign(a: Shards, s: nat, g: Gid)
    requires s < |a| && a[s] != g
    ensures Owned(a[s := g], a[s]) == Owned(a, a[s]) - {s}
    ensures Load(a[s := g], a[s]) == Load(a, a[s]) - 1
  {
    var b, h := a[s := g], a[s];
    assert forall i :: i in Owned(b, h) <==> i in Owned(a, h) - {s};
    assert s in Owned(a, h);
  }

  lemma OthersAfterReassign(a: Shards, s: nat, g: Gid, h: Gid)
    requires s < |a| && a[s] != g && h != g && h != a[s]
    ensures Owned(a[s := g], h) == Owned(a, h)
    ensures Load(a[s := g], h) == Load(a, h)
  {
    var b := a[s := g];
    assert forall i :: i in Owned(b, h) <==> i in Owned(a, h);
  }

  lemma LoadsAfterReassign(a: Shards, s: nat, g: Gid, groups: set<Gid>)
    requires s < |a| && a[s] != g
    ensures Load(a[s := g], g) == Load(a, g) + 1
    ensures Load(a[s := g], a[s]) == Load(a, a[s]) - 1
    ensures Owned(a[s := g], g) == Owned(a, g) + {s}
    ensures Owned(a[s := g], a[s]) == Owned(a, a[s]) - {s}
    ensures forall h | h in groups && h != g && h != a[s] ::
              Load(a[s := g], h) == Load(a, h) && Owned(a[s := g], h) == Owned(a, h)
  {
    ReceiverAfterReassign(a, s, g);
    GiverAfterReassign(a, s, g);
    forall h | h in groups && h != g && h != a[s]
      ensures Load(a[s := g], h) == Load(a, h) && Owned(a[s := g], h) == Owned(a, h)
    {
      OthersAfterReassign(a, s, g, h);
    }
  }

  ghost function Squares(a: Shards): int -> int {
    (g: Gid) => Load(a, g) * Load(a, g)
  }

  lemma SquaresExceptTwo(a: Shards, groups: set<Gid>, g: Gid, h: Gid)
    requires g in groups && h in groups && g != h
    ensures Imbalance(a, groups) == Squares(a)(g) + Squares(a)(h) + Sum(groups - {g} - {h}, Squares(a))
  {
    SumSplit(groups, Squares(a), g);
    SumSplit(groups - {g}, Squares(a), h);
  }

  lemma SquareGap(m: int, l: int)
    requires m >= l + 2
    ensures (m - 1) * (m - 1) + (l + 1) * (l + 1) <= m * m + l * l - 2
  {
    assert (m - 1) * (m - 1) + (l + 1) * (l + 1) == m * m + l * l - 2 * (m - l) + 2;
  }

  lemma ImbalanceNonNegative(a: Shards, groups: set<Gid>)
    ensures Imbalance(a, groups) >= 0
  {
    SumMonotone(groups, _ => 0, Squares(a));
    SumConstant(groups, 0);
  }

  lemma ImbalanceDrops(a: Shards, b: Shards, groups: set<Gid>, mg: Gid, lg: Gid)
    requires mg in groups && lg in groups && Load(a, mg) >= Load(a, lg) + 2
    requires Load(b, mg) == Load(a, mg) - 1 && Load(b, lg) == Load(a, lg) + 1
    requires forall h | h in groups && h != mg && h != lg :: Load(b, h) == Load(a, h)
    ensures 0 <= Imbalance(b, groups) <= Imbalance(a, groups) - 2
  {
    SquaresExceptTwo(a, groups, mg, lg);
    SquaresExceptTwo(b, groups, mg, lg);
    SumEqual(groups - {mg} - {lg}, Squares(a), Squares(b));
    SquareGap(Load(a, mg), Load(a, lg));
    ImbalanceNonNegative(b, groups);
  }

  /** Every move lowers the sum of squared loads by at least 2: the second loop terminates. */
  lemma MoveOneLowersImbalance(a: Shards, groups: set<Gid>)
    requires groups != {} && !Level(a, groups)
    ensures 0 <= Imbalance(MoveOne(a, groups), groups) <= Imbalance(a, groups) - 2
  {
    var mg, lg := Most(a, groups), Least(a, groups);
    MostIsHeld(a, groups);
    LoadsAfterReassign(a, FirstOwned(a, mg), lg, groups);
    ImbalanceDrops(a, MoveOne(a, groups), groups, mg, lg);
  }

  // ---------- what both loops keep ----------

  ghost predicate Received(now: Shards, orig: Shards, g: Gid) {
    Load(now, g) > Load(orig, g)
  }

  ghost predicate Gave(now: Shards, orig: Shards, g: Gid) {
    Load(now, g) < Load(orig, g)
  }

  /** No group both gives and receives; a receiver is within 1 of the smallest load, a giver within 1
      of the largest, and no receiver has overtaken a giver. */
  ghost predicate NoDetour(now: Shards, orig: Shards, groups: set<Gid>) {
    && |now| == |orig|
    && (forall g | g in groups :: Owned(orig, g) <= Owned(now, g) || Owned(now, g) <= Owned(orig, g))
    && (forall g, h | g in groups && h in groups && Received(now, orig, g) :: Load(now, g) <= Load(now, h) + 1)
    && (forall g, h | g in groups && h in groups && Gave(now, orig, g) :: Load(now, h) <= Load(now, g) + 1)
    && (forall g, h | g in groups && h in groups && Received(now, orig, g) && Gave(now, orig, h) ::
          Load(now, g) <= Load(now, h))
  }

  /** During the first loop nobody has given anything. */
  ghost predicate OnlyGrants(now: Shards, orig: Shards, groups: set<Gid>) {
    NoDetour(now, orig, groups) && forall g | g in groups :: Owned(orig, g) <= Owned(now, g)
  }

  lemma SubsetLoad(a: Shards, b: Shards, g: Gid)
    requires Owned(a, g) <= Owned(b, g)
    ensures Load(a, g) <= Load(b, g)
    ensures Load(a, g) == Load(b, g) ==> Owned(a, g) == Owned(b, g)
  {
    var rest := Owned(b, g) - Owned(a, g);
    assert Owned(b, g) == Owned(a, g) + rest;
  }

  ghost function Changed(a: Shards, b: Shards): set<int>
    requires |a| == |b|
  {
    set s | 0 <= s < |a| && a[s] != b[s]
  }

  lemma OneMoreChange(orig: Shards, now: Shards, s: nat, g: Gid)
    requires |now| == |orig| && s < |now| && now[s] == orig[s] && g != orig[s]
    ensures |Changed(orig, now[s := g])| == |Changed(orig, now)| + 1
  {
    assert Changed(orig, now[s := g]) == Changed(orig, now) + {s};
    assert s !in Changed(orig, now);
  }

  lemma GrantKeeps(now: Shards, orig: Shards, groups: set<Gid>, s: nat)
    requires groups != {} && OnlyGrants(now, orig, groups)
    requires s < |now| && now[s] !in groups
    ensures OnlyGrants(now[s := Least(now, groups)], orig, groups)
  {
    var lg := Least(now, groups);
    var b := now[s := lg];
    LoadsAfterReassign(now, s, lg, groups);
    forall g | g in groups
      ensures Owned(orig, g) <= Owned(b, g) && !Gave(b, orig, g)
    {
      SubsetLoad(orig, b, g);
    }
  }

  /** The group about to give has not received anything, so the shard it gives is one it started with. */
  lemma GiverIsUntouched(now: Shards, orig: Shards, groups: set<Gid>)
    requires groups != {} && NoDetour(now, orig, groups) && !Level(now, groups)
    ensures Owned(now, Most(now, groups)) <= Owned(orig, Most(now, groups))
  {
    var mg := Most(now, groups);
    if Owned(orig, mg) <= Owned(now, mg) {
      SubsetLoad(orig, now, mg);
    }
  }

  lemma ReceiverIsUntouched(now: Shards, orig: Shards, groups: set<Gid>)
    requires groups != {} && NoDetour(now, orig, groups) && !Level(now, groups)
    ensures Owned(orig, Least(now, groups)) <= Owned(now, Least(now, groups))
  {
    var lg := Least(now, groups);
    if Owned(now, lg) <= Owned(orig, lg) {
      SubsetLoad(now, orig, lg);
    }
  }

  lemma MoveKeeps(now: Shards, orig: Shards, groups: set<Gid>)
    requires groups != {} && NoDetour(now, orig, groups) && !Level(now, groups)
    ensures NoDetour(MoveOne(now, groups), orig, groups)
    ensures |Changed(orig, MoveOne(now, groups))| == |Changed(orig, now)| + 1
  {
    var mg, lg := Most(now, groups), Least(now, groups);
    MostIsHeld(now, groups);
    var s := FirstOwned(now, mg);
    LoadsAfterReassign(now, s, lg, groups);
    GiverIsUntouched(now, orig, groups);
    ReceiverIsUntouched(now, orig, groups);
    assert s in Owned(now, mg);
    OneMoreChange(orig, now, s, lg);
    SubsetLoad(orig, now, lg);
    SubsetLoad(now, orig, mg);
  }

  // ---------- the two loops as a whole ----------

  /** How many times each loop writes a shard. */
  ghost function OrphanWrites(a: Shards, groups: set<Gid>, s: nat): nat
    requires groups != {} && s <= |a|
    decreases |a| - s
  {
    if s == |a| then 0
    else if a[s] in groups then OrphanWrites(a, groups, s + 1)
    else 1 + OrphanWrites(a[s := Least(a, groups)], groups, s + 1)
  }

  ghost function MoveWrites(a: Shards, groups: set<Gid>): nat
    requires groups != {}
    decreases Imbalance(a, groups)
  {
    if Level(a, groups) then 0 else
      MoveOneLowersImbalance(a, groups);
      1 + MoveWrites(MoveOne(a, groups), groups)
  }

  ghost predicate Housed(a: Shards, groups: set<Gid>) {
    forall s | 0 <= s < |a| :: a[s] in groups
  }

  ghost predicate Balanced(a: Shards, groups: set<Gid>) {
    Housed(a, groups) && forall g, h | g in groups && h in groups :: Load(a, g) <= Load(a, h) + 1
  }

  lemma {:induction false} AssignOrphansKeeps(now: Shards, orig: Shards, groups: set<Gid>, s: nat)
    requires groups != {} && OnlyGrants(now, orig, groups) && s <= |now|
    requires forall i | 0 <= i < s :: now[i] in groups
    requires now[s..] == orig[s..]
    ensures OnlyGrants(AssignOrphans(now, groups, s), orig, groups)
    ensures Housed(AssignOrphans(now, groups, s), groups)
    ensures |Changed(orig, AssignOrphans(now, groups, s))| == |Changed(orig, now)| + OrphanWrites(now, groups, s)
    decreases |now| - s
  {
    if s < |now| {
      assert now[s..][0] == orig[s..][0];
      assert now[s + 1..] == now[s..][1..] && orig[s + 1..] == orig[s..][1..];
      if now[s] in groups {
        AssignOrphansKeeps(now, orig, groups, s + 1);
      } else {
        var lg := Least(now, groups);
        GrantKeeps(now, orig, groups, s);
        OneMoreChange(orig, now, s, lg);
        assert now[s := lg][s + 1..] == now[s + 1..];
        AssignOrphansKeeps(now[s := lg], orig, groups, s + 1);
      }
    }
  }

  lemma {:induction false} MoveShardsKeeps(now: Shards, orig: Shards, groups: set<Gid>)
    requires groups != {} && NoDetour(now, orig, groups) && Housed(now, groups)
    ensures NoDetour(MoveShards(now, groups), orig, groups)
    ensures Balanced(MoveShards(now, groups), groups)
    ensures |Changed(orig, MoveShards(now, groups))| == |Changed(orig, now)| + MoveWrites(now, groups)
    decreases Imbalance(now, groups)
  {
    if !Level(now, groups) {
      MoveKeeps(now, orig, groups);
      MoveOneLowersImbalance(now, groups);
      MoveShardsKeeps(MoveOne(now, groups), orig, groups);
    }
  }

  lemma RebalancedKeeps(a: Shards, groups: set<Gid>)
    requires groups != {}
    ensures NoDetour(Rebalanced(a, groups), a, groups)
    ensures |Changed(a, Rebalanced(a, groups))|
         == OrphanWrites(a, groups, 0) + MoveWrites(AssignOrphans(a, groups, 0), groups)
    ensures Balanced(Rebalanced(a, groups), groups)
  {
    assert Changed(a, a) == {};
    AssignOrphansKeeps(a, a, groups, 0);
    MoveShardsKeeps(AssignOrphans(a, groups, 0), a, groups);
  }

  /** Every shard ends in a group, loads differ by at most 1, and they add up to the number of shards. */
  lemma RebalancedIsBalanced(a: Shards, groups: set<Gid>)
    requires groups != {}
    ensures |Rebalanced(a, groups)| == |a|
    ensures Balanced(Rebalanced(a, groups), groups)
    ensures Sum(groups, Loads(Rebalanced(a, groups))) == |a|
  {
    RebalancedKeeps(a, groups);
    LoadsAddUp(Rebalanced(a, groups), groups);
  }

  /** No shard is written twice: the writes of both loops are exactly the shards that changed hands. */
  lemma NoShardWrittenTwice(a: Shards, groups: set<Gid>)
    requires groups != {}
    ensures |Rebalanced(a, groups)| == |a|
    ensures OrphanWrites(a, groups, 0) + MoveWrites(AssignOrphans(a, groups, 0), groups)
         == |Changed(a, Rebalanced(a, groups))|
  {
    RebalancedKeeps(a, groups);
  }

  /** A shard that changed hands between two groups came from one with at least two more shards. */
  lemma NoNeedlessMove(a: Shards, groups: set<Gid>, s: nat)
    requires groups != {} && s < |a|
    requires a[s] in groups
    ensures |Rebalanced(a, groups)| == |a| && Rebalanced(a, groups)[s] in groups
    ensures Rebalanced(a, groups)[s] != a[s] ==>
              Load(a, a[s]) >= Load(a, Rebalanced(a, groups)[s]) + 2
  {
    var f := Rebalanced(a, groups);
    RebalancedKeeps(a, groups);
    var h, g := a[s], f[s];
    if g != h {
      assert s in Owned(a, h) && s !in Owned(f, h) && s !in Owned(a, g) && s in Owned(f, g);
      SubsetLoad(f, a, h);
      SubsetLoad(a, f, g);
    }
  }

  /** A configuration that is already balanced stays as it is. */
  lemma BalancedIsFixed(a: Shards, groups: set<Gid>)
    requires groups != {} && Balanced(a, groups)
    ensures Rebalanced(a, groups) == a
  {
    forall s: nat | s < |a|
      ensures |Rebalanced(a, groups)| == |a| && Rebalanced(a, groups)[s] == a[s]
    {
      NoNeedlessMove(a, groups, s);
    }
    RebalancedKeeps(a, groups);
  }

  // ---------- counting ----------

  ghost function Kept(a: Shards, b: Shards, groups: set<Gid>): set<int>
    requires |a| == |b|
  {
    set s | 0 <= s < |a| && a[s] == b[s] && a[s] in groups
  }

  ghost function SharedLoad(a: Shards, b: Shards): int -> int {
    (g: Gid) => |Owned(a, g) * Owned(b, g)|
  }

  lemma {:induction false} KeptByGroup(a: Shards, b: Shards, groups: set<Gid>)
    requires |a| == |b|
    ensures |Kept(a, b, groups)| == Sum(groups, SharedLoad(a, b))
    decreases |groups|
  {
    if groups == {} {
      assert Kept(a, b, groups) == {};
    } else {
      var x := Pick(groups);
      KeptByGroup(a, b, groups - {x});
      assert Kept(a, b, groups) == Kept(a, b, groups - {x}) + (Owned(a, x) * Owned(b, x));
      assert Kept(a, b, groups - {x}) !! (Owned(a, x) * Owned(b, x));
    }
  }

  lemma LoadsAddUp(a: Shards, groups: set<Gid>)
    requires Housed(a, groups)
    ensures Sum(groups, Loads(a)) == |a|
  {
    KeptByGroup(a, a, groups);
    SumEqual(groups, SharedLoad(a, a), Loads(a)) by {
      forall g | g in groups
        ensures Owned(a, g) * Owned(a, g) == Owned(a, g)
      {
      }
    }
    IndexFacts(|a|);
    assert Kept(a, a, groups) == Indices(|a|);
  }

  ghost function Indices(n: nat): set<int> {
    if n == 0 then {} else Indices(n - 1) + {n - 1}
  }

  lemma {:induction false} IndexFacts(n: nat)
    ensures |Indices(n)| == n
    ensures forall i :: i in Indices(n) <==> 0 <= i < n
  {
    if n > 0 {
      IndexFacts(n - 1);
    }
  }

  // ---------- minimal movement ----------

  function Min(x: int, y: int): int {
    if x <= y then x else y
  }

  /** Two levelled load functions with the same total have the same floor. */
  lemma SameFloor(groups: set<Gid>, f: int -> int, t: int -> int, q: int, p: int, x: int, y: int)
    requires x in groups && f(x) == q && y in groups && t(y) == p
    requires forall g | g in groups :: q <= f(g) <= q + 1 && p <= t(g) <= p + 1
    requires Sum(groups, f) == Sum(groups, t)
    ensures q == p
  {
    if q < p {
      SumStrict(groups, f, t, x);
    } else if p < q {
      SumStrict(groups, t, f, y);
    }
  }

  /** c is where the loads start; f is levelled and no group above the floor that started at or below it
      stands beside a group that gave its way down to the floor. No levelled t keeps more than f does. */
  lemma LevelledShare(groups: set<Gid>, c: int -> int, f: int -> int, t: int -> int,
                      keptF: int -> int, keptT: int -> int, q: int)
    requires forall g | g in groups :: q <= f(g) <= q + 1 && q <= t(g) <= q + 1
    requires forall g | g in groups :: keptF(g) == Min(c(g), f(g)) && keptT(g) <= Min(c(g), t(g))
    requires Sum(groups, f) == Sum(groups, t)
    requires forall g, h | g in groups && h in groups && f(g) > c(g) && f(h) < c(h) :: f(g) <= f(h)
    ensures Sum(groups, keptT) <= Sum(groups, keptF)
  {
    if g :| g in groups && f(g) == q + 1 && c(g) <= q {
      forall h | h in groups
        ensures keptT(h) <= keptF(h)
      {
        assert f(h) < c(h) ==> f(g) <= f(h);
      }
      SumMonotone(groups, keptT, keptF);
    } else {
      SumPairs(groups, keptT, f, keptF, t);
    }
  }

  lemma ChangedPlusKept(a: Shards, b: Shards, groups: set<Gid>)
    requires |a| == |b| && Housed(b, groups)
    ensures |Changed(a, b)| + |Kept(a, b, groups)| == |a|
  {
    IndexFacts(|a|);
    assert Changed(a, b) + Kept(a, b, groups) == Indices(|a|);
    assert Changed(a, b) !! Kept(a, b, groups);
  }

  lemma SharedAtMostMin(a: Shards, b: Shards, g: Gid)
    ensures |Owned(a, g) * Owned(b, g)| <= Min(Load(a, g), Load(b, g))
    ensures Owned(a, g) <= Owned(b, g) || Owned(b, g) <= Owned(a, g) ==>
              |Owned(a, g) * Owned(b, g)| == Min(Load(a, g), Load(b, g))
  {
    var both := Owned(a, g) * Owned(b, g);
    assert Owned(a, g) == both + (Owned(a, g) - both);
    assert Owned(b, g) == both + (Owned(b, g) - both);
    if Owned(a, g) <= Owned(b, g) {
      assert both == Owned(a, g);
    } else if Owned(b, g) <= Owned(a, g) {
      assert both == Owned(b, g);
    }
  }

  /** Two balanced assignments have loads q and q + 1 for one and the same q. */
  lemma CommonFloor(f: Shards, t: Shards, groups: set<Gid>) returns (q: int)
    requires groups != {} && |f| == |t| && Balanced(f, groups) && Balanced(t, groups)
    ensures forall g | g in groups :: q <= Loads(f)(g) <= q + 1 && q <= Loads(t)(g) <= q + 1
    ensures Sum(groups, Loads(f)) == Sum(groups, Loads(t))
  {
    LoadsAddUp(f, groups);
    LoadsAddUp(t, groups);
    var x, y := Least(f, groups), Least(t, groups);
    q := Load(f, x);
    SameFloor(groups, Loads(f), Loads(t), q, Load(t, y), x, y);
  }

  lemma SharedLoads(a: Shards, f: Shards, t: Shards, groups: set<Gid>)
    requires NoDetour(f, a, groups)
    ensures forall g | g in groups :: SharedLoad(a, f)(g) == Min(Loads(a)(g), Loads(f)(g))
    ensures forall g | g in groups :: SharedLoad(a, t)(g) <= Min(Loads(a)(g), Loads(t)(g))
  {
    forall g | g in groups
      ensures SharedLoad(a, f)(g) == Min(Load(a, g), Load(f, g))
      ensures SharedLoad(a, t)(g) <= Min(Load(a, g), Load(t, g))
    {
      SharedAtMostMin(a, f, g);
      SharedAtMostMin(a, t, g);
    }
  }

  lemma NoOvertaking(f: Shards, a: Shards, groups: set<Gid>)
    requires NoDetour(f, a, groups)
    ensures forall g, h | g in groups && h in groups && Loads(f)(g) > Loads(a)(g) && Loads(f)(h) < Loads(a)(h) ::
              Loads(f)(g) <= Loads(f)(h)
  {
    forall g, h | g in groups && h in groups && Loads(f)(g) > Loads(a)(g) && Loads(f)(h) < Loads(a)(h)
      ensures Loads(f)(g) <= Loads(f)(h)
    {
      assert Received(f, a, g) && Gave(f, a, h);
    }
  }

  lemma KeptLoads(a: Shards, f: Shards, t: Shards, groups: set<Gid>)
    requires groups != {} && |t| == |a| && Balanced(t, groups)
    requires NoDetour(f, a, groups) && Balanced(f, groups)
    ensures Sum(groups, SharedLoad(a, t)) <= Sum(groups, SharedLoad(a, f))
  {
    hide Balanced, Owned, Sum;
    var q := CommonFloor(f, t, groups);
    SharedLoads(a, f, t, groups);
    NoOvertaking(f, a, groups);
    LevelledShare(groups, Loads(a), Loads(f), Loads(t), SharedLoad(a, f), SharedLoad(a, t), q);
  }

  /** No balanced assignment to the same groups leaves more shards where they were. */
  lemma NoDetourKeepsMost(a: Shards, f: Shards, t: Shards, groups: set<Gid>)
    requires groups != {} && |t| == |a| && Balanced(t, groups)
    requires NoDetour(f, a, groups) && Balanced(f, groups)
    ensures |Kept(a, t, groups)| <= |Kept(a, f, groups)|
  {
    KeptLoads(a, f, t, groups);
    KeptByGroup(a, f, groups);
    KeptByGroup(a, t, groups);
  }

  /** No balanced assignment to the same groups can be reached by changing fewer shards. */
  lemma MinimalMovement(a: Shards, t: Shards, groups: set<Gid>)
    requires groups != {} && |t| == |a| && Balanced(t, groups)
    ensures |Rebalanced(a, groups)| == |a|
    ensures |Changed(a, Rebalanced(a, groups))| <= |Changed(a, t)|
  {
    RebalancedKeeps(a, groups);
    NoDetourKeepsMost(a, Rebalanced(a, groups), t, groups);
    ChangedPlusKept(a, Rebalanced(a, groups), groups);
    ChangedPlusKept(a, t, groups);
  }

  // ---------- which shards move, and where to ----------

  /** Of the shards a group starts with it gives away the lowest. */
  ghost predicate GaveLowest(now: Shards, orig: Shards, groups: set<Gid>) {
    && |now| == |orig|
    && forall s, t | 0 <= s < t < |orig| && orig[s] == orig[t] && orig[s] in groups && now[t] != orig[t] ::
         now[s] != orig[s]
  }

  lemma {:induction false} AssignOrphansLeavesMembers(a: Shards, groups: set<Gid>, s: nat, i: nat)
    requires groups != {} && s <= |a| && i < |a| && a[i] in groups
    ensures |AssignOrphans(a, groups, s)| == |a| && AssignOrphans(a, groups, s)[i] == a[i]
    decreases |a| - s
  {
    if s < |a| {
      if a[s] in groups {
        AssignOrphansLeavesMembers(a, groups, s + 1, i);
      } else {
        AssignOrphansLeavesMembers(a[s := Least(a, groups)], groups, s + 1, i);
      }
    }
  }

  lemma MoveGivesLowest(now: Shards, orig: Shards, groups: set<Gid>)
    requires groups != {} && NoDetour(now, orig, groups) && !Level(now, groups) && GaveLowest(now, orig, groups)
    ensures GaveLowest(MoveOne(now, groups), orig, groups)
  {
    var mg := Most(now, groups);
    MostIsHeld(now, groups);
    GiverIsUntouched(now, orig, groups);
    var first := FirstOwned(now, mg);
    assert first in Owned(now, mg);
    assert orig[first] == mg && Least(now, groups) != mg;
    forall s, t | 0 <= s < t < |orig| && orig[s] == orig[t] && orig[s] in groups
                  && MoveOne(now, groups)[t] != orig[t]
      ensures MoveOne(now, groups)[s] != orig[s]
    {
      if t == first {
        assert now[s] == now[..first][s];
      }
    }
  }

  lemma {:induction false} MoveShardsGivesLowest(now: Shards, orig: Shards, groups: set<Gid>)
    requires groups != {} && NoDetour(now, orig, groups) && GaveLowest(now, orig, groups)
    ensures GaveLowest(MoveShards(now, groups), orig, groups)
    decreases Imbalance(now, groups)
  {
    if !Level(now, groups) {
      MoveKeeps(now, orig, groups);
      MoveGivesLowest(now, orig, groups);
      MoveOneLowersImbalance(now, groups);
      MoveShardsGivesLowest(MoveOne(now, groups), orig, groups);
    }
  }

  /** If a shard leaves its group, so do all lower shards of that group. */
  lemma LowestShardsMove(a: Shards, groups: set<Gid>, s: nat, t: nat)
    requires groups != {} && s < t < |a| && a[s] == a[t] && a[s] in groups
    ensures |Rebalanced(a, groups)| == |a|
    ensures Rebalanced(a, groups)[t] != a[t] ==> Rebalanced(a, groups)[s] != a[s]
  {
    assert Changed(a, a) == {};
    AssignOrphansKeeps(a, a, groups, 0);
    var placed := AssignOrphans(a, groups, 0);
    forall i: nat | i < |a| && a[i] in groups
      ensures placed[i] == a[i]
    {
      AssignOrphansLeavesMembers(a, groups, 0, i);
    }
    MoveShardsGivesLowest(placed, a, groups);
    RebalancedKeeps(a, groups);
  }

  /** The groups in ascending order. */
  ghost predicate Lists(keys: seq<Gid>, groups: set<Gid>) {
    && (forall i, j | 0 <= i < j < |keys| :: keys[i] < keys[j])
    && (forall i | 0 <= i < |keys| :: keys[i] in groups)
    && (forall g | g in groups :: exists i :: 0 <= i < |keys| && keys[i] == g)
  }

  /** How many of 0, ..., s - 1 are j modulo k. */
  function Quota(s: nat, k: nat, j: nat): nat
    requires j < k
  {
    if s == 0 then 0 else Quota(s - 1, k, j) + if (s - 1) % k == j then 1 else 0
  }

  lemma TimesBound(d: int, k: nat)
    ensures d >= 1 ==> d * k >= k
    ensures d <= -1 ==> d * k + k <= 0
  {
    assert d * k == (d - 1) * k + k && d * k == (d + 1) * k - k;
  }

  lemma SplitModulo(s: nat, k: nat, q: nat, r: nat)
    requires r < k && s == q * k + r
    ensures s / k == q && s % k == r
  {
    assert s == s / k * k + s % k;
    assert (s / k - q) * k == r - s % k;
    TimesBound(s / k - q, k);
  }

  lemma NextModulo(s: nat, k: nat)
    requires k > 0
    ensures s % k + 1 < k ==> (s + 1) % k == s % k + 1 && (s + 1) / k == s / k
    ensures s % k + 1 == k ==> (s + 1) % k == 0 && (s + 1) / k == s / k + 1
  {
    var q, r := s / k, s % k;
    assert s == q * k + r;
    if r + 1 < k {
      SplitModulo(s + 1, k, q, r + 1);
    } else {
      assert s + 1 == (q + 1) * k;
      SplitModulo(s + 1, k, q + 1, 0);
    }
  }

  lemma {:induction false} QuotaIs(s: nat, k: nat, j: nat)
    requires j < k
    ensures Quota(s, k, j) == s / k + if j < s % k then 1 else 0
  {
    if s == 0 {
      SplitModulo(0, k, 0, 0);
    } else {
      QuotaIs(s - 1, k, j);
      NextModulo(s - 1, k);
    }
  }

  /** Shards below s are dealt out in turn. */
  ghost predicate DealtUpTo(now: Shards, a: Shards, keys: seq<Gid>, s: nat)
    requires keys != []
  {
    && |now| == |a| && s <= |a|
    && (forall i | 0 <= i < s :: now[i] == keys[i % |keys|])
    && (forall i | s <= i < |a| :: now[i] == a[i])
    && (forall j: nat | j < |keys| :: Load(now, keys[j]) == Quota(s, |keys|, j))
  }

  lemma LeastIsNext(now: Shards, a: Shards, groups: set<Gid>, keys: seq<Gid>, s: nat)
    requires groups != {} && Lists(keys, groups) && keys != [] && DealtUpTo(now, a, keys, s)
    ensures Least(now, groups) == keys[s % |keys|]
  {
    var g, r := Least(now, groups), s % |keys|;
    var j: nat :| j < |keys| && keys[j] == g;
    QuotaIs(s, |keys|, j);
    QuotaIs(s, |keys|, r);
    assert keys[r] in groups;
  }

  lemma DealLoads(now: Shards, groups: set<Gid>, keys: seq<Gid>, s: nat, j: nat)
    requires Lists(keys, groups) && j < |keys| && s < |now| && now[s] !in groups
    requires Load(now, keys[j]) == Quota(s, |keys|, j)
    ensures Load(now[s := keys[s % |keys|]], keys[j]) == Quota(s + 1, |keys|, j)
  {
    var r := s % |keys|;
    assert keys[r] in groups && keys[j] in groups;
    if j == r {
      ReceiverAfterReassign(now, s, keys[r]);
    } else {
      assert keys[j] != keys[r];
      OthersAfterReassign(now, s, keys[r], keys[j]);
    }
  }

  lemma DealOne(now: Shards, a: Shards, groups: set<Gid>, keys: seq<Gid>, s: nat)
    requires groups != {} && Lists(keys, groups) && keys != [] && DealtUpTo(now, a, keys, s)
    requires s < |a| && a[s] !in groups
    ensures DealtUpTo(now[s := keys[s % |keys|]], a, keys, s + 1)
  {
    hide Quota, Load, Lists;
    forall j: nat | j < |keys|
      ensures Load(now[s := keys[s % |keys|]], keys[j]) == Quota(s + 1, |keys|, j)
    {
      DealLoads(now, groups, keys, s, j);
    }
  }

  lemma {:induction false} DealAll(now: Shards, a: Shards, groups: set<Gid>, keys: seq<Gid>, s: nat)
    requires groups != {} && Lists(keys, groups) && keys != [] && DealtUpTo(now, a, keys, s)
    requires forall i | 0 <= i < |a| :: a[i] !in groups
    ensures DealtUpTo(AssignOrphans(now, groups, s), a, keys, |a|)
    decreases |a| - s
  {
    hide Quota, Load, Lists, Least;
    if s < |a| {
      LeastIsNext(now, a, groups, keys, s);
      DealOne(now, a, groups, keys, s);
      DealAll(now[s := keys[s % |keys|]], a, groups, keys, s + 1);
    }
  }

  /** Shards of no group are dealt out in turn: shard s to the (s modulo k)-th smallest of k groups. */
  lemma OrphansAreDealt(a: Shards, groups: set<Gid>, keys: seq<Gid>, s: nat)
    requires groups != {} && Lists(keys, groups) && keys != [] && s < |a|
    requires forall i | 0 <= i < |a| :: a[i] !in groups
    ensures |Rebalanced(a, groups)| == |a| && Rebalanced(a, groups)[s] == keys[s % |keys|]
  {
    forall j: nat | j < |keys|
      ensures Load(a, keys[j]) == 0
    {
      assert keys[j] in groups;
      assert Owned(a, keys[j]) == {};
    }
    DealAll(a, a, groups, keys, 0);
    var placed := AssignOrphans(a, groups, 0);
    LeastIsNext(placed, a, groups, keys, |a|);
    var mg := Most(placed, groups);
    var m: nat :| m < |keys| && keys[m] == mg;
    QuotaIs(|a|, |keys|, m);
    QuotaIs(|a|, |keys|, |a| % |keys|);
    assert Level(placed, groups);
  }

  /** Of two groups that start with equal loads the smaller gid is the first to give and the first to receive. */
  ghost predicate TieOrder(now: Shards, orig: Shards, g: Gid, h: Gid) {
    && (Gave(now, orig, h) ==> Load(now, g) <= Load(now, h))
    && (Received(now, orig, h) ==> Load(now, g) >= Load(now, h))
  }

  lemma LoadsAfterOne(now: Shards, s: nat, g: Gid, h: Gid)
    requires s < |now| && now[s] != g
    ensures Load(now[s := g], h) == Load(now, h) + (if h == g then 1 else 0) - (if h == now[s] then 1 else 0)
  {
    if h == g {
      ReceiverAfterReassign(now, s, g);
    } else if h == now[s] {
      GiverAfterReassign(now, s, g);
    } else {
      OthersAfterReassign(now, s, g, h);
    }
  }

  lemma GrantKeepsTies(now: Shards, orig: Shards, groups: set<Gid>, s: nat, g: Gid, h: Gid)
    requires groups != {} && OnlyGrants(now, orig, groups) && s < |now| && now[s] !in groups
    requires g in groups && h in groups && g < h && Load(orig, g) == Load(orig, h) && TieOrder(now, orig, g, h)
    ensures TieOrder(now[s := Least(now, groups)], orig, g, h)
  {
    SubsetLoad(orig, now, g);
    SubsetLoad(orig, now, h);
    LoadsAfterOne(now, s, Least(now, groups), g);
    LoadsAfterOne(now, s, Least(now, groups), h);
  }

  lemma UntouchedLoads(now: Shards, orig: Shards, groups: set<Gid>)
    requires groups != {} && NoDetour(now, orig, groups) && !Level(now, groups)
    ensures Load(now, Most(now, groups)) <= Load(orig, Most(now, groups))
    ensures Load(now, Least(now, groups)) >= Load(orig, Least(now, groups))
  {
    GiverIsUntouched(now, orig, groups);
    ReceiverIsUntouched(now, orig, groups);
    SubsetLoad(now, orig, Most(now, groups));
    SubsetLoad(orig, now, Least(now, groups));
  }

  lemma MoveKeepsTies(now: Shards, orig: Shards, groups: set<Gid>, g: Gid, h: Gid)
    requires groups != {} && NoDetour(now, orig, groups) && !Level(now, groups)
    requires g in groups && h in groups && g < h && Load(orig, g) == Load(orig, h) && TieOrder(now, orig, g, h)
    ensures TieOrder(MoveOne(now, groups), orig, g, h)
  {
    UntouchedLoads(now, orig, groups);
    MostIsHeld(now, groups);
    var s := FirstOwned(now, Most(now, groups));
    LoadsAfterOne(now, s, Least(now, groups), g);
    LoadsAfterOne(now, s, Least(now, groups), h);
  }

  lemma {:induction false} AssignOrphansKeepsTies(now: Shards, orig: Shards, groups: set<Gid>, s: nat, g: Gid, h: Gid)
    requires groups != {} && OnlyGrants(now, orig, groups) && s <= |now|
    requires g in groups && h in groups && g < h && Load(orig, g) == Load(orig, h) && TieOrder(now, orig, g, h)
    ensures TieOrder(AssignOrphans(now, groups, s), orig, g, h)
    decreases |now| - s
  {
    hide TieOrder, OnlyGrants, Least, Load;
    if s < |now| {
      if now[s] in groups {
        AssignOrphansKeepsTies(now, orig, groups, s + 1, g, h);
      } else {
        GrantKeeps(now, orig, groups, s);
        GrantKeepsTies(now, orig, groups, s, g, h);
        AssignOrphansKeepsTies(now[s := Least(now, groups)], orig, groups, s + 1, g, h);
      }
    }
  }

  lemma {:induction false} MoveShardsKeepsTies(now: Shards, orig: Shards, groups: set<Gid>, g: Gid, h: Gid)
    requires groups != {} && NoDetour(now, orig, groups)
    requires g in groups && h in groups && g < h && Load(orig, g) == Load(orig, h) && TieOrder(now, orig, g, h)
    ensures TieOrder(MoveShards(now, groups), orig, g, h)
    decreases Imbalance(now, groups)
  {
    hide TieOrder, NoDetour, Level, Load;
    if !Level(now, groups) {
      MoveKeeps(now, orig, groups);
      MoveKeepsTies(now, orig, groups, g, h);
      MoveOneLowersImbalance(now, groups);
      MoveShardsKeepsTies(MoveOne(now, groups), orig, groups, g, h);
    }
  }

  /** Ties go to the smaller gid: of two groups with equal loads, if the larger gid loses shards the smaller ends
      with no more than it, and if the larger gains some the smaller ends with no fewer. */
  lemma TiesGoToSmallerGid(a: Shards, groups: set<Gid>, g: Gid, h: Gid)
    requires g in groups && h in groups && g < h && Load(a, g) == Load(a, h)
    ensures TieOrder(Rebalanced(a, groups), a, g, h)
  {
    assert Changed(a, a) == {};
    AssignOrphansKeeps(a, a, groups, 0);
    AssignOrphansKeepsTies(a, a, groups, 0, g, h);
    MoveShardsKeepsTies(AssignOrphans(a, groups, 0), a, groups, g, h);
  }
}
