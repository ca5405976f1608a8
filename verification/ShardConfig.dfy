/** The shard configuration object of shardcfg: group membership, rebalancing in place, and every
    run of successful JoinBalance and LeaveBalance calls. */
module ShardConfigs {
  import opened SetSums
  import opened ShardRebalance

  const NSHARDS: nat := 12

  type Server = string
  type Groups = map<Gid, seq<Server>>

  /** What a call that edits the membership can end in; Fatal stands for log.Fatalf. */
  datatype Outcome = Changed | Refused | Fatal

  /** The value of a configuration. */
  datatype Config = Config(num: int, shards: Shards, groups: Groups)

  // ---------- membership edits ----------

  predicate Share(xs: seq<Server>, ys: seq<Server>) {
    exists s | s in xs :: s in ys
  }

  predicate Clash(groups: Groups, servers: seq<Server>) {
    exists x | x in groups :: Share(groups[x], servers)
  }

  /** No server name in two groups. */
  ghost predicate Apart(groups: Groups) {
    forall g, h | g in groups && h in groups && g != h :: !Share(groups[g], groups[h])
  }

  ghost predicate JoinAllowed(groups: Groups, servers: Groups) {
    && servers != map[]
    && servers.Keys !! groups.Keys
    && forall g, x | g in servers && x in groups + servers && x != g :: !Share((groups + servers)[x], servers[g])
  }

  /** A server of a joining group is also in another group, old or joining. */
  ghost predicate ServerTwice(groups: Groups, servers: Groups) {
    exists g, x | g in servers && x != g ::
      (x in groups && Share(groups[x], servers[g])) || (x in servers && Share(servers[x], servers[g]))
  }

  ghost predicate Distinct(gids: seq<Gid>) {
    forall i, j | 0 <= i < j < |gids| :: gids[i] != gids[j]
  }

  ghost function GidSet(gids: seq<Gid>): set<Gid> {
    set g | g in gids
  }

  ghost predicate LeaveAllowed(groups: Groups, gids: seq<Gid>) {
    gids != [] && Distinct(gids) && GidSet(gids) <= groups.Keys
  }

  function Restrict(m: Groups, keys: set<Gid>): Groups {
    map g | g in m && g in keys :: m[g]
  }

  // ---------- the checker ----------

  /** What CheckConfig accepts. */
  ghost predicate CheckPasses(c: Config, expected: seq<Gid>) {
    && |c.groups| == |expected|
    && (forall i | 0 <= i < |expected| :: expected[i] in c.groups)
    && (expected != [] ==> Housed(c.shards, c.groups.Keys))
    && (forall g, h | g in c.groups && h in c.groups :: Load(c.shards, g) <= Load(c.shards, h) + 1)
  }

  // ---------- helpers for the loops ----------

  function CountOf(counts: map<Gid, int>, g: Gid): int {
    if g in counts then counts[g] else 0
  }

  ghost predicate Counted(counts: map<Gid, int>, a: Shards) {
    forall g :: CountOf(counts, g) == Load(a, g)
  }

  lemma LoadOfAppend(a: Shards, g: Gid, h: Gid)
    ensures Load(a + [g], h) == Load(a, h) + if h == g then 1 else 0
  {
    var more := if h == g then {|a|} else {};
    assert forall i :: i in Owned(a + [g], h) <==> i in Owned(a, h) + more;
    assert Owned(a + [g], h) == Owned(a, h) + more;
    assert |a| !in Owned(a, h);
  }

  lemma CountOneMore(counts: map<Gid, int>, a: Shards, g: Gid)
    requires Counted(counts, a)
    ensures Counted(counts[g := CountOf(counts, g) + 1], a + [g])
  {
    forall h
      ensures CountOf(counts[g := CountOf(counts, g) + 1], h) == Load(a + [g], h)
    {
      LoadOfAppend(a, g, h);
      assert CountOf(counts, h) == Load(a, h) && CountOf(counts, g) == Load(a, g);
    }
  }

  /** The groups while Join has worked off all but todo. */
  ghost predicate HalfJoined(before: Groups, servers: Groups, todo: set<Gid>, now: Groups) {
    && todo <= servers.Keys
    && now == before + Restrict(servers, servers.Keys - todo)
    && (forall g | g in servers && g !in todo :: g !in before)
    && (forall g, x | g in servers && g !in todo && x in now && x != g :: !Share(now[x], servers[g]))
  }

  lemma JoinOneMore(before: Groups, servers: Groups, todo: set<Gid>, now: Groups, gid: Gid)
    requires HalfJoined(before, servers, todo, now)
    requires gid in todo && gid !in now && !Clash(now, servers[gid])
    ensures HalfJoined(before, servers, todo - {gid}, now[gid := servers[gid]])
  {
    var next := now[gid := servers[gid]];
    assert next == before + Restrict(servers, servers.Keys - (todo - {gid}));
    forall g, x | g in servers && g !in todo - {gid} && x in next && x != g
      ensures !Share(next[x], servers[g])
    {
      if x == gid {
        assert !Share(now[g], servers[gid]);
      } else if g == gid {
        assert !Share(now[x], servers[gid]);
      }
    }
  }

  lemma JoinDone(before: Groups, servers: Groups, now: Groups)
    requires HalfJoined(before, servers, {}, now) && servers != map[]
    ensures JoinAllowed(before, servers) && now == before + servers
  {
    assert Restrict(servers, servers.Keys) == servers;
    assert servers.Keys - {} == servers.Keys;
    assert forall g | g in servers :: g !in before;
    assert servers.Keys !! before.Keys;
  }

  lemma JoinClashes(before: Groups, servers: Groups, todo: set<Gid>, now: Groups, gid: Gid)
    requires HalfJoined(before, servers, todo, now)
    requires gid in todo && gid !in now && Clash(now, servers[gid])
    ensures !JoinAllowed(before, servers) && ServerTwice(before, servers)
  {
    var x :| x in now && Share(now[x], servers[gid]);
    assert x != gid && (now[x] == if x in servers && x !in todo then servers[x] else before[x]);
    if servers.Keys !! before.Keys {
      assert (before + servers)[x] == now[x];
    }
  }

  lemma LoadAtMostLength(a: Shards, g: Gid)
    ensures Load(a, g) <= |a|
  {
    IndexFacts(|a|);
    assert Indices(|a|) == Owned(a, g) + (Indices(|a|) - Owned(a, g));
  }

  ghost predicate Ascending(s: seq<Gid>) {
    forall i, j | 0 <= i < j < |s| :: s[i] <= s[j]
  }

  /** slices.Sort on group ids. */
  function SortGids(s: seq<Gid>): seq<Gid> {
    if s == [] then [] else InsertGid(s[0], SortGids(s[1..]))
  }

  function InsertGid(g: Gid, s: seq<Gid>): seq<Gid> {
    if s == [] || g <= s[0] then [g] + s else [s[0]] + InsertGid(g, s[1..])
  }

  lemma AscendingCons(g: Gid, s: seq<Gid>)
    requires Ascending(s) && forall x | x in s :: g <= x
    ensures Ascending([g] + s)
  {
    forall i, j | 0 <= i < j < |[g] + s|
      ensures ([g] + s)[i] <= ([g] + s)[j]
    {
      assert ([g] + s)[j] == s[j - 1] && s[j - 1] in s;
      assert i > 0 ==> ([g] + s)[i] == s[i - 1];
    }
  }

  lemma {:induction false} InsertGidSorts(g: Gid, s: seq<Gid>)
    requires Ascending(s)
    ensures |InsertGid(g, s)| == |s| + 1 && Ascending(InsertGid(g, s))
    ensures forall x :: x in InsertGid(g, s) <==> x == g || x in s
  {
    if s == [] || g <= s[0] {
      AscendingCons(g, s);
    } else {
      InsertGidSorts(g, s[1..]);
      assert s == [s[0]] + s[1..];
      var r := InsertGid(g, s[1..]);
      assert forall x | x in r :: s[0] <= x;
      AscendingCons(s[0], r);
    }
  }

  lemma {:induction false} SortGidsSorts(s: seq<Gid>)
    ensures |SortGids(s)| == |s| && Ascending(SortGids(s))
    ensures forall x :: x in SortGids(s) <==> x in s
  {
    if s != [] {
      SortGidsSorts(s[1..]);
      InsertGidSorts(s[0], SortGids(s[1..]));
      assert s == [s[0]] + s[1..];
    }
  }

  /** g has the largest load among the gids scanned so far, and is the first of those that do. */
  ghost predicate Top(a: Shards, scanned: seq<Gid>, g: Gid, n: int) {
    g in scanned && n == Load(a, g) && forall h | h in scanned :: Load(a, h) < n || (Load(a, h) == n && g <= h)
  }

  ghost predicate Bottom(a: Shards, scanned: seq<Gid>, g: Gid, n: int) {
    g in scanned && n == Load(a, g) && forall h | h in scanned :: Load(a, h) > n || (Load(a, h) == n && g <= h)
  }

  class ShardConfig {
    var num: int
    const shards: array<Gid>
    var groups: Groups

    ghost predicate Valid() {
      shards.Length == NSHARDS
    }

    ghost function View(): Config
      reads this, shards
    {
      Config(num, shards[..], groups)
    }

    constructor ()
      ensures Valid() && fresh(shards)
      ensures View() == Initial()
    {
      num, groups := 0, map[];
      shards := new Gid[NSHARDS](_ => 0);
    }

    /** Load of every group id, as analyze and CheckConfig compute it. */
    method Tally() returns (counts: map<Gid, int>)
      requires Valid()
      ensures Counted(counts, shards[..])
    {
      counts := map[];
      assert forall g :: Owned([], g) == {};
      for i := 0 to shards.Length
        invariant Counted(counts, shards[..i])
      {
        CountOneMore(counts, shards[..i], shards[i]);
        assert shards[..i + 1] == shards[..i] + [shards[i]];
        counts := counts[shards[i] := CountOf(counts, shards[i]) + 1];
      }
      assert shards[..shards.Length] == shards[..];
    }

    /** The map keys in whatever order the runtime yields them. */
    method Enumerate() returns (order: seq<Gid>)
      ensures forall g :: g in order <==> g in groups
      ensures |order| == |groups|
    {
      order := [];
      var todo := groups.Keys;
      while todo != {}
        invariant todo <= groups.Keys
        invariant forall g :: g in order <==> g in groups.Keys - todo
        invariant |order| + |todo| == |groups.Keys|
      {
        SomeMember(todo);
        var g: Gid :| g in todo;
        order, todo := order + [g], todo - {g};
      }
    }

    method Analyze() returns (mg: Gid, mn: int, lg: Gid, ln: int)
      requires Valid()
      ensures groups != map[] ==>
                && mg == Most(shards[..], groups.Keys) && mn == Load(shards[..], mg)
                && lg == Least(shards[..], groups.Keys) && ln == Load(shards[..], lg)
      ensures groups == map[] ==> mg == -1 && mn == -1 && lg == -1 && ln == 257
    {
      var counts := Tally();
      var order := Enumerate();
      SortGidsSorts(order);
      mg, mn, lg, ln := Extremes(counts, SortGids(order));
      if groups != map[] {
        assert groups.Keys != {};
        assert Pick(groups.Keys) in order;
        assert IsMost(shards[..], groups.Keys, mg) && IsLeast(shards[..], groups.Keys, lg);
      }
    }

    /** The scan over the sorted gids. */
    method Extremes(counts: map<Gid, int>, sorted: seq<Gid>) returns (mg: Gid, mn: int, lg: Gid, ln: int)
      requires Valid() && Counted(counts, shards[..]) && Ascending(sorted)
      ensures sorted == [] ==> mg == -1 && mn == -1 && lg == -1 && ln == 257
      ensures sorted != [] ==> Top(shards[..], sorted, mg, mn) && Bottom(shards[..], sorted, lg, ln)
    {
      mn, mg, ln, lg := -1, -1, 257, -1;
      ghost var a := shards[..];
      for i := 0 to |sorted|
        invariant i == 0 ==> mg == -1 && mn == -1 && lg == -1 && ln == 257
        invariant i > 0 ==> Top(a, sorted[..i], mg, mn) && Bottom(a, sorted[..i], lg, ln)
      {
        var g := sorted[i];
        assert sorted[..i + 1] == sorted[..i] + [g];
        LoadAtMostLength(a, g);
        if CountOf(counts, g) < ln {
          ln, lg := CountOf(counts, g), g;
        }
        if CountOf(counts, g) > mn {
          mn, mg := CountOf(counts, g), g;
        }
      }
      assert sorted[..|sorted|] == sorted;
    }

    method LeastGroup() returns (lg: Gid)
      requires Valid()
      ensures groups != map[] ==> lg == Least(shards[..], groups.Keys)
      ensures groups == map[] ==> lg == -1
    {
      var _, _, g, _ := Analyze();
      lg := g;
    }

    /** Every shard to gid 0, as when no group is left. */
    method Unassign()
      requires Valid()
      modifies shards
      ensures shards[..] == seq(NSHARDS, _ => 0)
    {
      for s := 0 to shards.Length
        invariant forall i | 0 <= i < s :: shards[i] == 0
      {
        shards[s] := 0;
      }
    }

    /** The first loop of Rebalance. */
    method PlaceOrphans()
      requires Valid() && groups != map[]
      modifies shards
      ensures shards[..] == AssignOrphans(old(shards[..]), groups.Keys, 0)
    {
      for s := 0 to shards.Length
        invariant AssignOrphans(shards[..], groups.Keys, s) == AssignOrphans(old(shards[..]), groups.Keys, 0)
      {
        if shards[s] !in groups {
          var lg := LeastGroup();
          ghost var before := shards[..];
          shards[s] := lg;
          assert shards[..] == before[s := lg];
        }
      }
    }

    /** The first shard of mg goes to lg: the body of Rebalance's second loop. */
    method MoveFirst(mg: Gid, lg: Gid)
      requires Valid() && mg in shards[..]
      modifies shards
      ensures shards[..] == old(shards[..])[FirstOwned(old(shards[..]), mg) := lg]
    {
      ghost var before := shards[..];
      var s := 0;
      while s < shards.Length
        invariant 0 <= s <= shards.Length && shards[..] == before && mg !in before[..s]
      {
        if shards[s] == mg {
          shards[s] := lg;
          break;
        }
        assert before[..s + 1] == before[..s] + [before[s]];
        s := s + 1;
      }
      assert before[..|before|] == before;
      assert s == FirstOwned(before, mg);
    }

    method Rebalance()
      requires Valid()
      modifies shards
      ensures shards[..] == Rebalanced(old(shards[..]), groups.Keys)
    {
      ghost var a := shards[..];
      if |groups| < 1 {
        assert groups == map[];
        Unassign();
        return;
      }
      assert groups != map[];
      PlaceOrphans();
      while true
        invariant MoveShards(shards[..], groups.Keys) == Rebalanced(a, groups.Keys)
        decreases Imbalance(shards[..], groups.Keys)
      {
        var mg, mn, lg, ln := Analyze();
        if mn < ln + 2 {
          break;
        }
        MoveOneLowersImbalance(shards[..], groups.Keys);
        MostIsHeld(shards[..], groups.Keys);
        MoveFirst(mg, lg);
      }
    }

    method Join(servers: Groups) returns (outcome: Outcome)
      modifies this
      ensures num == if outcome == Changed then old(num) + 1 else old(num)
      ensures outcome == Changed <==> JoinAllowed(old(groups), servers)
      ensures outcome == Changed ==> groups == old(groups) + servers
      ensures outcome == Refused ==> exists g | g in servers :: g in old(groups)
      ensures outcome == Fatal ==> servers == map[] || ServerTwice(old(groups), servers)
      ensures outcome != Changed ==>
                exists some :: some <= servers.Keys && groups == old(groups) + Restrict(servers, some)
    {
      ghost var before := groups;
      var changed, todo := false, servers.Keys;
      assert Restrict(servers, {}) == map[];
      while todo != {}
        invariant HalfJoined(before, servers, todo, groups)
        invariant changed <==> todo != servers.Keys
        invariant num == old(num)
      {
        SomeMember(todo);
        var gid: Gid :| gid in todo;
        if gid in groups {
          return Refused;
        }
        if Clash(groups, servers[gid]) {
          JoinClashes(before, servers, todo, groups, gid);
          return Fatal;
        }
        JoinOneMore(before, servers, todo, groups, gid);
        groups := groups[gid := servers[gid]];
        todo, changed := todo - {gid}, true;
      }
      if !changed {
        return Fatal;
      }
      JoinDone(before, servers, groups);
      num := num + 1;
      return Changed;
    }

    method Leave(gids: seq<Gid>) returns (outcome: Outcome)
      modifies this
      ensures num == if outcome == Changed then old(num) + 1 else old(num)
      ensures outcome == Changed <==> LeaveAllowed(old(groups), gids)
      ensures outcome == Changed ==> groups == old(groups) - GidSet(gids)
      ensures outcome == Fatal <==> gids == []
      ensures outcome != Changed ==> exists n :: 0 <= n <= |gids| && groups == old(groups) - GidSet(gids[..n])
    {
      ghost var before := groups;
      var changed := false;
      for i := 0 to |gids|
        invariant groups == before - GidSet(gids[..i])
        invariant Distinct(gids[..i]) && GidSet(gids[..i]) <= before.Keys
        invariant changed <==> i > 0
        invariant num == old(num)
      {
        var gid := gids[i];
        assert gids[..i + 1] == gids[..i] + [gid];
        if gid !in groups {
          assert gid in gids[..i] ==> !Distinct(gids);
          assert gid in GidSet(gids);
          return Refused;
        }
        groups := groups - {gid};
        changed := true;
      }
      assert gids[..|gids|] == gids;
      if !changed {
        return Fatal;
      }
      num := num + 1;
      return Changed;
    }

    method JoinBalance(servers: Groups) returns (outcome: Outcome)
      requires Valid()
      modifies this, shards
      ensures outcome == Changed <==> Allowed(old(View()), JoinOp(servers))
      ensures outcome == Changed ==> View() == Apply(old(View()), JoinOp(servers))
      ensures outcome != Changed ==> shards[..] == old(shards[..]) && num == old(num)
    {
      outcome := Join(servers);
      if outcome == Changed {
        Rebalance();
      }
    }

    method LeaveBalance(gids: seq<Gid>) returns (outcome: Outcome)
      requires Valid()
      modifies this, shards
      ensures outcome == Changed <==> Allowed(old(View()), LeaveOp(gids))
      ensures outcome == Changed ==> View() == Apply(old(View()), LeaveOp(gids))
      ensures outcome != Changed ==> shards[..] == old(shards[..]) && num == old(num)
    {
      outcome := Leave(gids);
      if outcome == Changed {
        Rebalance();
      }
    }

    method IsMember(gid: Gid) returns (found: bool)
      ensures found <==> gid in shards[..]
    {
      for s := 0 to shards.Length
        invariant gid !in shards[..s]
      {
        if shards[s] == gid {
          assert gid == shards[..][s];
          return true;
        }
        assert shards[..s + 1] == shards[..s] + [shards[s]];
      }
      assert shards[..shards.Length] == shards[..];
      return false;
    }

    /** The smallest and the largest load, from the scan of CheckConfig. */
    method Spread(counts: map<Gid, int>, order: seq<Gid>) returns (min: int, max: int)
      requires Valid() && Counted(counts, shards[..])
      ensures forall j | 0 <= j < |order| :: min <= Load(shards[..], order[j]) <= max
      ensures order == [] ==> min == 257 && max == 0
      ensures order != [] ==> exists j | 0 <= j < |order| :: Load(shards[..], order[j]) == max
      ensures order != [] ==> exists j | 0 <= j < |order| :: Load(shards[..], order[j]) == min
    {
      ghost var a := shards[..];
      min, max := 257, 0;
      for i := 0 to |order|
        invariant forall j | 0 <= j < i :: min <= Load(a, order[j]) <= max
        invariant i == 0 ==> min == 257 && max == 0
        invariant i > 0 ==> exists j | 0 <= j < i :: Load(a, order[j]) == max
        invariant i > 0 ==> exists j | 0 <= j < i :: Load(a, order[j]) == min
      {
        var g := order[i];
        LoadAtMostLength(a, g);
        if CountOf(counts, g) > max {
          max := CountOf(counts, g);
        }
        if CountOf(counts, g) < min {
          min := CountOf(counts, g);
        }
      }
    }

    method CheckConfig(expected: seq<Gid>) returns (passed: bool)
      requires Valid()
      ensures passed <==> CheckPasses(View(), expected)
    {
      if |groups| != |expected| {
        return false;
      }
      for i := 0 to |expected|
        invariant forall j | 0 <= j < i :: expected[j] in groups
      {
        if expected[i] !in groups {
          return false;
        }
      }
      if |expected| > 0 {
        for s := 0 to shards.Length
          invariant forall i | 0 <= i < s :: shards[i] in groups
        {
          if shards[s] !in groups {
            assert View().shards[s] !in groups.Keys;
            return false;
          }
        }
      }
      var counts := Tally();
      ghost var a := shards[..];
      var order := Enumerate();
      var min, max := Spread(counts, order);
      passed := max <= min + 1;
      forall g | g in groups
        ensures min <= Load(a, g) <= max
      {
        assert g in order;
      }
    }
  }

  // ---------- runs ----------

  datatype Op = JoinOp(servers: Groups) | LeaveOp(gids: seq<Gid>)

  ghost function Initial(): Config {
    Config(0, seq(NSHARDS, _ => 0), map[])
  }

  ghost predicate Allowed(c: Config, op: Op) {
    match op
    case JoinOp(servers) => JoinAllowed(c.groups, servers)
    case LeaveOp(gids) => LeaveAllowed(c.groups, gids)
  }

  /** JoinBalance and LeaveBalance when they return true. */
  ghost function Apply(c: Config, op: Op): Config {
    var groups := match op case JoinOp(servers) => c.groups + servers case LeaveOp(gids) => c.groups - GidSet(gids);
    Config(c.num + 1, Rebalanced(c.shards, groups.Keys), groups)
  }

  ghost predicate AllSucceed(ops: seq<Op>) {
    ops != [] ==> AllSucceed(ops[..|ops| - 1]) && Allowed(After(ops[..|ops| - 1]), ops[|ops| - 1])
  }

  ghost function After(ops: seq<Op>): Config {
    if ops == [] then Initial() else Apply(After(ops[..|ops| - 1]), ops[|ops| - 1])
  }

  /** The last operation that mentions g is a join. */
  ghost predicate JoinedAndNotLeft(ops: seq<Op>, g: Gid) {
    ops != [] &&
    match ops[|ops| - 1]
    case JoinOp(servers) => g in servers || JoinedAndNotLeft(ops[..|ops| - 1], g)
    case LeaveOp(gids) => g !in gids && JoinedAndNotLeft(ops[..|ops| - 1], g)
  }

  ghost predicate Settled(c: Config) {
    && |c.shards| == NSHARDS
    && Apart(c.groups)
    && (c.groups != map[] ==> Balanced(c.shards, c.groups.Keys))
    && (c.groups == map[] ==> c.shards == seq(NSHARDS, _ => 0))
  }

  lemma ApplySettles(c: Config, op: Op)
    requires Settled(c) && Allowed(c, op)
    ensures Settled(Apply(c, op))
  {
    var d := Apply(c, op);
    if d.groups != map[] {
      RebalancedIsBalanced(c.shards, d.groups.Keys);
    }
    if op.JoinOp? {
      forall g, h | g in d.groups && h in d.groups && g != h
        ensures !Share(d.groups[g], d.groups[h])
      {
        if h in op.servers {
          assert !Share(d.groups[g], op.servers[h]);
        } else if g in op.servers {
          assert !Share(d.groups[h], op.servers[g]);
        }
      }
    }
  }

  /** Along every run of successful calls: Num counts them, the groups are the joined-and-not-left ones,
      no server is in two of them, and the shards are settled on them. */
  lemma {:induction false} RunInvariant(ops: seq<Op>)
    requires AllSucceed(ops)
    ensures After(ops).num == |ops|
    ensures Settled(After(ops))
    ensures forall g :: g in After(ops).groups <==> JoinedAndNotLeft(ops, g)
  {
    if ops != [] {
      var n := |ops| - 1;
      RunInvariant(ops[..n]);
      ApplySettles(After(ops[..n]), ops[n]);
    }
  }

  lemma DistinctSnoc(gids: seq<Gid>, g: Gid)
    ensures Distinct(gids + [g]) <==> Distinct(gids) && g !in gids
  {
    var more := gids + [g];
    if Distinct(more) {
      forall i, j | 0 <= i < j < |gids|
        ensures gids[i] != gids[j]
      {
        assert more[i] != more[j];
      }
      forall i | 0 <= i < |gids|
        ensures gids[i] != g
      {
        assert more[i] != more[|gids|];
      }
    }
  }

  lemma {:induction false} DistinctCount(gids: seq<Gid>)
    ensures |GidSet(gids)| <= |gids|
    ensures Distinct(gids) <==> |GidSet(gids)| == |gids|
  {
    if gids == [] {
      assert GidSet(gids) == {};
    } else {
      var init, g := gids[..|gids| - 1], gids[|gids| - 1];
      assert gids == init + [g];
      DistinctCount(init);
      DistinctSnoc(init, g);
      assert GidSet(gids) == GidSet(init) + {g};
    }
  }

  lemma EqualFromCount(x: set<Gid>, y: set<Gid>)
    requires x <= y && |x| == |y|
    ensures x == y
  {
    assert y == x + (y - x);
  }

  /** On a settled configuration CheckConfig compares the list with the groups. */
  lemma CheckOnSettled(c: Config, expected: seq<Gid>)
    requires Settled(c) && Distinct(expected)
    ensures CheckPasses(c, expected) <==> GidSet(expected) == c.groups.Keys
  {
    DistinctCount(expected);
    assert |c.groups| == |c.groups.Keys|;
    if CheckPasses(c, expected) {
      EqualFromCount(GidSet(expected), c.groups.Keys);
    }
    if GidSet(expected) == c.groups.Keys {
      forall i | 0 <= i < |expected|
        ensures expected[i] in c.groups
      {
        assert expected[i] in GidSet(expected);
      }
    }
  }

  /** After a run, CheckConfig passes on a list without repetitions exactly when the list names the
      joined-and-not-left groups. */
  lemma CheckPassesExactly(ops: seq<Op>, expected: seq<Gid>)
    requires AllSucceed(ops) && Distinct(expected)
    ensures CheckPasses(After(ops), expected) <==> (forall g :: g in expected <==> JoinedAndNotLeft(ops, g))
  {
    RunInvariant(ops);
    var c := After(ops);
    CheckOnSettled(c, expected);
    SameMembers(expected, c.groups.Keys);
  }

  lemma SameMembers(gids: seq<Gid>, s: set<Gid>)
    ensures GidSet(gids) == s <==> forall g :: g in gids <==> g in s
  {
    if forall g :: g in gids <==> g in s {
      assert forall g | g in s :: g in GidSet(gids);
      assert s <= GidSet(gids) && GidSet(gids) <= s;
    } else {
      var g :| g in gids <==> g !in s;
      assert g in GidSet(gids) <==> g !in s;
    }
  }

  lemma EveryGroupServes(a: Shards, groups: set<Gid>)
    requires groups != {} && Balanced(a, groups) && |groups| <= |a|
    ensures forall g | g in groups :: g in a
  {
    forall g | g in groups
      ensures g in a
    {
      if Load(a, g) == 0 {
        LoadsAddUp(a, groups);
        SumStrict(groups, Loads(a), _ => 1, g);
        SumConstant(groups, 1);
      } else {
        var s :| s in Owned(a, g);
        assert a[s] == g;
      }
    }
  }

  lemma IdleGroup(a: Shards, groups: set<Gid>)
    requires |groups| > |a|
    ensures exists g | g in groups :: g !in a
  {
    DistinctCount(a);
    var held := groups * GidSet(a);
    assert groups == (groups - GidSet(a)) + held;
    assert GidSet(a) == held + (GidSet(a) - groups);
    var g := Pick(groups - GidSet(a));
    assert g in groups && g !in a;
  }

  /** IsMember tells membership exactly while there is some group and no more groups than shards. */
  lemma IsMemberExact(ops: seq<Op>)
    requires AllSucceed(ops)
    ensures (forall g :: g in After(ops).shards <==> JoinedAndNotLeft(ops, g))
       <==> 1 <= |After(ops).groups| <= NSHARDS
  {
    RunInvariant(ops);
    var c := After(ops);
    if c.groups == map[] {
      assert c.shards[0] == 0;
      assert 0 in c.shards && !JoinedAndNotLeft(ops, 0);
    } else if |c.groups| <= NSHARDS {
      EveryGroupServes(c.shards, c.groups.Keys);
    } else {
      IdleGroup(c.shards, c.groups.Keys);
    }
  }

  // ---------- which shards move ----------

  /** A join moves shards only onto groups that join, never between groups that were there. */
  lemma JoinMovesOnlyToJoiners(c: Config, servers: Groups, s: nat)
    requires Settled(c) && Allowed(c, JoinOp(servers)) && s < NSHARDS
    ensures |Apply(c, JoinOp(servers)).shards| == NSHARDS
    ensures Apply(c, JoinOp(servers)).shards[s] != c.shards[s] ==> Apply(c, JoinOp(servers)).shards[s] in servers
  {
    var groups := (c.groups + servers).Keys;
    RebalancedIsBalanced(c.shards, groups);
    if c.groups != map[] {
      NoNeedlessMove(c.shards, groups, s);
    }
  }

  /** A leave that leaves some group moves only the shards of the groups that left. */
  lemma LeaveMovesOnlyTheirShards(c: Config, gids: seq<Gid>, s: nat)
    requires Settled(c) && Allowed(c, LeaveOp(gids)) && s < NSHARDS
    requires c.groups - GidSet(gids) != map[]
    ensures |Apply(c, LeaveOp(gids)).shards| == NSHARDS
    ensures Apply(c, LeaveOp(gids)).shards[s] != c.shards[s] <==> c.shards[s] in gids
  {
    var groups := (c.groups - GidSet(gids)).Keys;
    RebalancedIsBalanced(c.shards, groups);
    if c.shards[s] in groups {
      NoNeedlessMove(c.shards, groups, s);
    }
  }
}
