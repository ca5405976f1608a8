/** The sequential MapReduce loop, and why reducing bucket by bucket gives the same lines. */
module MapReduce {
  import opened GoStrings

  datatype KeyValue = KeyValue(key: GoString, value: GoString)

  /** One key with all its values, as handed to Reduce. */
  datatype Group = Group(key: GoString, values: seq<GoString>)

  type Reducer = (GoString, seq<GoString>) -> GoString

  /** "%v %v\n" */
  function Line(key: GoString, output: GoString): GoString {
    key + [32] + output + [10]
  }

  /** A line can be read back: if the key has no space, it is what stands before the first space, and the output is
      what stands between that and the newline at the end. */
  lemma LineReads(key: GoString, output: GoString)
    requires 32 !in key
    ensures var line := Line(key, output);
      && |line| == |key| + |output| + 2
      && line[..|key|] == key && 32 !in line[..|key|] && line[|key|] == 32
      && line[|key| + 1..|line| - 1] == output && line[|line| - 1] == 10
  {
    var line := Line(key, output);
    assert line[..|key|] == key;
    assert line[|key| + 1..|line| - 1] == output;
  }

  /** So no two key-output pairs give the same line. */
  lemma LinesDiffer(key: GoString, output: GoString, key': GoString, output': GoString)
    requires 32 !in key && 32 !in key' && Line(key, output) == Line(key', output')
    ensures key == key' && output == output'
  {
    LineReads(key, output);
    LineReads(key', output');
    var line := Line(key, output);
    NoSpaceBefore(line, |key|, |key'|);
    NoSpaceBefore(line, |key'|, |key|);
  }

  lemma NoSpaceBefore(line: GoString, n: nat, m: nat)
    requires n < |line| && m <= |line| && line[n] == 32 && 32 !in line[..m]
    ensures m <= n
  {
    forall i | 0 <= i < m
      ensures line[i] != 32
    {
      assert line[..m][i] == line[i];
    }
  }

  // ---------- ihash ----------

  /** One byte of FNV-1a: first the exclusive or with the byte, then the multiplication by the prime. */
  function Mix(h: bv32, b: bv32): bv32 {
    (h ^ b) * 16777619
  }

  /** 32-bit FNV-1a. */
  function Fnv32a(s: GoString, h: bv32): bv32 {
    if s == [] then h else Fnv32a(s[1..], Mix(h, s[0] as bv32))
  }

  function DropTopBit(h: bv32): nat {
    (h & 0x7fffffff) as nat
  }

  function Ihash(key: GoString): nat {
    DropTopBit(Fnv32a(key, 2166136261))
  }

  /** The bytes are taken in order, each on top of the hash of those before it. */
  lemma {:induction false} FnvTakesOneMore(s: GoString, b: Byte, h: bv32)
    ensures Fnv32a(s + [b], h) == Mix(Fnv32a(s, h), b as bv32)
  {
    hide Mix;
    if s == [] {
      assert s + [b] == [b] && [b][1..] == [];
      assert Fnv32a([b], h) == Fnv32a([], Mix(h, b as bv32));
    } else {
      FnvTakesOneMore(s[1..], b, Mix(h, s[0] as bv32));
      assert (s + [b])[1..] == s[1..] + [b];
    }
  }

  lemma MixValues()
    ensures Mix(0x811c9dc5, 97) == 0xe40c292c
    ensures Mix(0xe40c292c, 98) == 0x4d2505ca
    ensures Mix(0x4d2505ca, 99) == 0x1a47e90b
  {
  }

  lemma FnvOfOne(b: Byte, h: bv32)
    ensures Fnv32a([b], h) == Mix(h, b as bv32)
  {
    hide Mix;
    assert [b][1..] == [];
  }

  /** Hashes published for the algorithm: of the empty string, "a", "ab" and "abc". */
  lemma FnvKnownValues()
    ensures Fnv32a([], 2166136261) == 0x811c9dc5
    ensures Fnv32a([97], 2166136261) == 0xe40c292c
    ensures Fnv32a([97] + [98], 2166136261) == 0x4d2505ca
    ensures Fnv32a([97] + [98] + [99], 2166136261) == 0x1a47e90b
  {
    MixValues();
    hide Mix, Fnv32a;
    FnvOfNone(2166136261);
    FnvOfOne(97, 2166136261);
    FnvTakesOneMore([97], 98, 2166136261);
    FnvTakesOneMore([97] + [98], 99, 2166136261);
  }

  lemma FnvOfNone(h: bv32)
    ensures Fnv32a([], h) == h
  {
  }

  lemma DropTopBitOfA()
    ensures DropTopBit(0xe40c292c) == 0xe40c292c - 0x8000_0000
  {
    assert 0xe40c292c & 0x7fffffff == (0x640c292c as bv32);
  }

  lemma DropTopBitOfAb()
    ensures DropTopBit(0x4d2505ca) == 0x4d2505ca
  {
    assert 0x4d2505ca & 0x7fffffff == (0x4d2505ca as bv32);
  }

  /** ihash of "a", whose hash has the top bit set, and of "ab", whose hash has not. */
  lemma IhashKnownValues()
    ensures Ihash([97]) == 0xe40c292c - 0x8000_0000
    ensures Ihash([97] + [98]) == 0x4d2505ca
  {
    FnvKnownValues();
    hide Fnv32a, DropTopBit;
    DropTopBitOfA();
    DropTopBitOfAb();
  }

  // ---------- sorting ----------

  ghost predicate SortedByKey(s: seq<KeyValue>) {
    s != [] ==> (forall x | x in s[1..] :: AtMost(s[0].key, x.key)) && SortedByKey(s[1..])
  }

  /** What sort.Sort(ByKey(kva)) may leave behind: any arrangement that is ascending by key. */
  ghost predicate SortResult(kva: seq<KeyValue>, s: seq<KeyValue>) {
    SortedByKey(s) && multiset(s) == multiset(kva)
  }

  function Insert(x: KeyValue, s: seq<KeyValue>): seq<KeyValue> {
    if s == [] || AtMost(x.key, s[0].key) then [x] + s else [s[0]] + Insert(x, s[1..])
  }

  lemma {:induction false} InsertSorts(x: KeyValue, s: seq<KeyValue>)
    requires SortedByKey(s)
    ensures SortedByKey(Insert(x, s)) && multiset(Insert(x, s)) == multiset(s) + multiset{x}
  {
    if s != [] {
      assert s == [s[0]] + s[1..];
      if AtMost(x.key, s[0].key) {
        forall y | y in s
          ensures AtMost(x.key, y.key)
        {
          if y != s[0] && x.key != s[0].key && s[0].key != y.key {
            LessTransitive(x.key, s[0].key, y.key);
          }
        }
        assert Insert(x, s)[1..] == s;
      } else {
        LessTotal(x.key, s[0].key);
        InsertSorts(x, s[1..]);
        assert Insert(x, s)[1..] == Insert(x, s[1..]);
        forall y | y in Insert(x, s[1..])
          ensures AtMost(s[0].key, y.key)
        {
          assert y in multiset(Insert(x, s[1..]));
        }
      }
    }
  }

  lemma SameLength(kva: seq<KeyValue>, s: seq<KeyValue>)
    requires multiset(s) == multiset(kva)
    ensures |s| == |kva|
  {
    assert |multiset(s)| == |s| && |multiset(kva)| == |kva|;
  }

  method Sorted(a: array<KeyValue>) returns (s: seq<KeyValue>)
    ensures SortResult(a[..], s)
  {
    s := [];
    for i := 0 to a.Length
      invariant SortResult(a[..i], s)
    {
      InsertSorts(a[i], s);
      assert a[..i + 1] == a[..i] + [a[i]];
      s := Insert(a[i], s);
    }
    assert a[..a.Length] == a[..];
  }

  /** sort.Sort is not stable, so callers may rely on no more than the contract. */
  method SortByKey(a: array<KeyValue>)
    modifies a
    ensures SortResult(old(a[..]), a[..])
  {
    var s := Sorted(a);
    SameLength(a[..], s);
    for i := 0 to a.Length
      invariant forall k | 0 <= k < i :: a[k] == s[k]
    {
      a[i] := s[i];
    }
    assert a[..] == s;
  }

  // ---------- grouping ----------

  /** How many pairs at the front have the key. */
  function RunOf(s: seq<KeyValue>, key: GoString): (n: nat)
    ensures n <= |s|
  {
    if s == [] || s[0].key != key then 0 else 1 + RunOf(s[1..], key)
  }

  function Values(s: seq<KeyValue>): seq<GoString> {
    if s == [] then [] else [s[0].value] + Values(s[1..])
  }

  /** Adjacent pairs with equal keys, taken together. */
  function Groups(s: seq<KeyValue>): seq<Group>
    decreases |s|
  {
    if s == [] then [] else
      var n := RunOf(s, s[0].key);
      [Group(s[0].key, Values(s[..n]))] + Groups(s[n..])
  }

  function Lines(gs: seq<Group>, reducef: Reducer): seq<GoString> {
    if gs == [] then [] else [Line(gs[0].key, reducef(gs[0].key, gs[0].values))] + Lines(gs[1..], reducef)
  }

  lemma {:induction false} RunEnds(s: seq<KeyValue>, n: nat, key: GoString)
    requires n <= |s| && forall i | 0 <= i < n :: s[i].key == key
    requires n < |s| ==> s[n].key != key
    ensures RunOf(s, key) == n
  {
    if n > 0 {
      RunEnds(s[1..], n - 1, key);
    }
  }

  lemma {:induction false} ValuesSnoc(s: seq<KeyValue>, kv: KeyValue)
    ensures Values(s + [kv]) == Values(s) + [kv.value]
  {
    if s == [] {
      assert s + [kv] == [kv];
    } else {
      ValuesSnoc(s[1..], kv);
      assert (s + [kv])[1..] == s[1..] + [kv];
    }
  }

  lemma SliceSnoc<T>(s: seq<T>, i: nat, k: nat)
    requires i <= k < |s|
    ensures s[i..k + 1] == s[i..k] + [s[k]]
  {
  }

  lemma NextValue(s: seq<KeyValue>, i: nat, k: nat)
    requires i <= k < |s|
    ensures Values(s[i..k + 1]) == Values(s[i..k]) + [s[k].value]
  {
    SliceSnoc(s, i, k);
    ValuesSnoc(s[i..k], s[k]);
  }

  lemma NextGroup(s: seq<KeyValue>, i: nat, j: nat)
    requires i < j <= |s| && forall k | i <= k < j :: s[k].key == s[i].key
    requires j < |s| ==> s[j].key != s[i].key
    ensures Groups(s[i..]) == [Group(s[i].key, Values(s[i..j]))] + Groups(s[j..])
  {
    var t := s[i..];
    assert t[..j - i] == s[i..j] && t[j - i..] == s[j..];
    RunEnds(t, j - i, t[0].key);
  }

  /** A maximal run of equal keys starting at i gives the next line. */
  lemma NextLine(s: seq<KeyValue>, i: nat, j: nat, reducef: Reducer, written: seq<GoString>)
    requires i < j <= |s| && forall k | i <= k < j :: s[k].key == s[i].key
    requires j < |s| ==> s[j].key != s[i].key
    ensures written + Lines(Groups(s[i..]), reducef) ==
      written + [Line(s[i].key, reducef(s[i].key, Values(s[i..j])))] + Lines(Groups(s[j..]), reducef)
  {
    NextGroup(s, i, j);
    LinesCons(Group(s[i].key, Values(s[i..j])), Groups(s[j..]), reducef);
  }

  lemma LinesCons(g: Group, gs: seq<Group>, reducef: Reducer)
    ensures Lines([g] + gs, reducef) == [Line(g.key, reducef(g.key, g.values))] + Lines(gs, reducef)
  {
    assert ([g] + gs)[1..] == gs;
  }

  /** The reduce loop of main over the sorted pairs. */
  method ReduceRuns(intermediate: array<KeyValue>, reducef: Reducer) returns (ofile: seq<GoString>)
    ensures ofile == Lines(Groups(intermediate[..]), reducef)
  {
    ghost var s := intermediate[..];
    ofile := [];
    var i := 0;
    assert s[i..] == s;
    while i < intermediate.Length
      invariant 0 <= i <= intermediate.Length
      invariant ofile + Lines(Groups(s[i..]), reducef) == Lines(Groups(s), reducef)
    {
      var j := i + 1;
      while j < intermediate.Length && intermediate[j].key == intermediate[i].key
        invariant i < j <= intermediate.Length
        invariant forall k | i <= k < j :: s[k].key == s[i].key
      {
        j := j + 1;
      }
      var values: seq<GoString> := [];
      for k := i to j
        invariant values == Values(s[i..k])
      {
        NextValue(s, i, k);
        values := values + [intermediate[k].value];
      }
      var output := reducef(intermediate[i].key, values);
      NextLine(s, i, j, reducef, ofile);
      ofile := ofile + [Line(intermediate[i].key, output)];
      i := j;
    }
    assert s[i..] == [] && ofile + [] == ofile;
  }

  /** The part of main after the map calls: sort in place, then reduce each run of equal keys. */
  method SortAndReduce(intermediate: array<KeyValue>, reducef: Reducer) returns (ofile: seq<GoString>)
    modifies intermediate
    ensures SortResult(old(intermediate[..]), intermediate[..])
    ensures ofile == Lines(Groups(intermediate[..]), reducef)
  {
    SortByKey(intermediate);
    ofile := ReduceRuns(intermediate, reducef);
  }

  // ---------- what the groups are ----------

  /** All values of a key, in order of occurrence. */
  function ValuesOf(s: seq<KeyValue>, key: GoString): seq<GoString> {
    if s == [] then [] else (if s[0].key == key then [s[0].value] else []) + ValuesOf(s[1..], key)
  }

  ghost predicate HasKey(s: seq<KeyValue>, key: GoString) {
    exists kv | kv in s :: kv.key == key
  }

  function GroupKeys(gs: seq<Group>): seq<GoString> {
    if gs == [] then [] else [gs[0].key] + GroupKeys(gs[1..])
  }

  function GroupSizes(gs: seq<Group>): nat {
    if gs == [] then 0 else |gs[0].values| + GroupSizes(gs[1..])
  }

  lemma {:induction false} ValuesOfAppend(s: seq<KeyValue>, t: seq<KeyValue>, key: GoString)
    ensures ValuesOf(s + t, key) == ValuesOf(s, key) + ValuesOf(t, key)
  {
    if s == [] {
      assert s + t == t;
    } else {
      assert (s + t)[0] == s[0] && (s + t)[1..] == s[1..] + t;
      ValuesOfAppend(s[1..], t, key);
    }
  }

  /** A value occurs among a key's values as often as the pair does. */
  lemma {:induction false} ValueCounts(s: seq<KeyValue>, key: GoString, v: GoString)
    ensures multiset(ValuesOf(s, key))[v] == multiset(s)[KeyValue(key, v)]
  {
    if s != [] {
      ValueCounts(s[1..], key, v);
      assert s == [s[0]] + s[1..];
      var own := if s[0].key == key then [s[0].value] else [];
      assert multiset(s) == multiset{s[0]} + multiset(s[1..]);
      assert multiset(own)[v] == if s[0] == KeyValue(key, v) then 1 else 0;
    }
  }

  lemma {:induction false} ValuesOfOneKey(s: seq<KeyValue>, k: GoString, key: GoString)
    requires forall i | 0 <= i < |s| :: s[i].key == k
    ensures ValuesOf(s, key) == if key == k then Values(s) else []
    ensures |Values(s)| == |s|
  {
    if s != [] {
      ValuesOfOneKey(s[1..], k, key);
    }
  }

  lemma {:induction false} ValuesOfAbsentKey(s: seq<KeyValue>, key: GoString)
    requires forall i | 0 <= i < |s| :: s[i].key != key
    ensures ValuesOf(s, key) == []
  {
    if s != [] {
      ValuesOfAbsentKey(s[1..], key);
    }
  }

  /** In a sorted sequence the first run holds all pairs with its key, and larger keys follow. */
  lemma {:induction false} FirstRun(s: seq<KeyValue>, key: GoString)
    requires SortedByKey(s) && forall kv | kv in s :: AtMost(key, kv.key)
    ensures forall i | 0 <= i < RunOf(s, key) :: s[i].key == key
    ensures forall i | RunOf(s, key) <= i < |s| :: Less(key, s[i].key)
    ensures SortedByKey(s[RunOf(s, key)..])
  {
    if s != [] {
      assert s[0] in s;
      var n := RunOf(s, key);
      if s[0].key == key {
        assert forall kv | kv in s[1..] :: kv in s;
        FirstRun(s[1..], key);
        assert s[n..] == s[1..][n - 1..];
        forall i | n <= i < |s|
          ensures Less(key, s[i].key)
        {
          assert s[i] == s[1..][i - 1];
        }
      } else {
        assert s[n..] == s;
        forall i | 0 <= i < |s|
          ensures Less(key, s[i].key)
        {
          assert s[i] in s;
          if i > 0 && s[0].key != s[i].key {
            assert s[i] == s[1..][i - 1];
            LessTransitive(key, s[0].key, s[i].key);
          }
        }
      }
    }
  }

  /** The first step of grouping a sorted sequence. */
  lemma SplitOff(s: seq<KeyValue>) returns (n: nat)
    requires SortedByKey(s) && s != []
    ensures 0 < n <= |s| && n == RunOf(s, s[0].key)
    ensures Groups(s) == [Group(s[0].key, Values(s[..n]))] + Groups(s[n..])
    ensures forall i | 0 <= i < n :: s[i].key == s[0].key
    ensures forall i | n <= i < |s| :: Less(s[0].key, s[i].key)
    ensures SortedByKey(s[n..])
  {
    n := RunOf(s, s[0].key);
    forall kv | kv in s
      ensures AtMost(s[0].key, kv.key)
    {
      assert s == [s[0]] + s[1..];
    }
    FirstRun(s, s[0].key);
  }

  lemma HasKeyAppend(s: seq<KeyValue>, t: seq<KeyValue>, key: GoString)
    ensures HasKey(s + t, key) <==> HasKey(s, key) || HasKey(t, key)
  {
    if HasKey(s, key) {
      var kv :| kv in s && kv.key == key;
      assert kv in s + t;
    }
    if HasKey(t, key) {
      var kv :| kv in t && kv.key == key;
      assert kv in s + t;
    }
  }

  lemma KeysAfterRun(s: seq<KeyValue>, n: nat, key: GoString)
    requires 0 < n <= |s| && forall i | 0 <= i < n :: s[i].key == s[0].key
    ensures HasKey(s, key) <==> key == s[0].key || HasKey(s[n..], key)
  {
    assert s == s[..n] + s[n..];
    HasKeyAppend(s[..n], s[n..], key);
    assert s[..n][0] == s[0];
    if HasKey(s[..n], key) {
      var i :| 0 <= i < n && s[..n][i].key == key;
    }
  }

  lemma {:induction false} GroupKeyMembers(s: seq<KeyValue>, key: GoString)
    requires SortedByKey(s)
    ensures key in GroupKeys(Groups(s)) <==> HasKey(s, key)
    decreases |s|
  {
    if s != [] {
      var n := SplitOff(s);
      GroupKeyMembers(s[n..], key);
      KeysAfterRun(s, n, key);
      assert GroupKeys(Groups(s)) == [s[0].key] + GroupKeys(Groups(s[n..]));
    }
  }

  lemma {:induction false} GroupKeysIncrease(s: seq<KeyValue>)
    requires SortedByKey(s)
    ensures Increasing(GroupKeys(Groups(s)))
    decreases |s|
  {
    if s != [] {
      var n := SplitOff(s);
      GroupKeysIncrease(s[n..]);
      var rest := GroupKeys(Groups(s[n..]));
      assert GroupKeys(Groups(s)) == [s[0].key] + rest;
      forall key | key in rest
        ensures Less(s[0].key, key)
      {
        GroupKeyMembers(s[n..], key);
        var kv :| kv in s[n..] && kv.key == key;
        var i :| 0 <= i < |s[n..]| && s[n..][i] == kv;
        assert s[n..][i] == s[n + i];
      }
    }
  }

  /** The lines for given keys, each reduced from the values the key has in s. */
  function LinesFor(keys: seq<GoString>, s: seq<KeyValue>, reducef: Reducer): seq<GoString> {
    if keys == [] then [] else
      [Line(keys[0], reducef(keys[0], ValuesOf(s, keys[0])))] + LinesFor(keys[1..], s, reducef)
  }

  /** Lines do not depend on pairs with other keys. */
  lemma {:induction false} LinesForWithin(keys: seq<GoString>, s: seq<KeyValue>, t: seq<KeyValue>, reducef: Reducer)
    requires forall i | 0 <= i < |keys| ::
      reducef(keys[i], ValuesOf(s, keys[i])) == reducef(keys[i], ValuesOf(t, keys[i]))
    ensures LinesFor(keys, s, reducef) == LinesFor(keys, t, reducef)
  {
    if keys != [] {
      LinesForWithin(keys[1..], s, t, reducef);
    }
  }

  lemma ValuesSkip(s: seq<KeyValue>, n: nat, key: GoString)
    requires n <= |s| && forall i | 0 <= i < n :: s[i].key == s[0].key
    requires n > 0 && key != s[0].key
    ensures ValuesOf(s[n..], key) == ValuesOf(s, key)
  {
    assert s == s[..n] + s[n..];
    ValuesOfAppend(s[..n], s[n..], key);
    ValuesOfOneKey(s[..n], s[0].key, key);
  }

  lemma ValuesTake(s: seq<KeyValue>, n: nat)
    requires 0 < n <= |s| && forall i | 0 <= i < n :: s[i].key == s[0].key
    requires forall i | n <= i < |s| :: Less(s[0].key, s[i].key)
    ensures Values(s[..n]) == ValuesOf(s, s[0].key) && |Values(s[..n])| == n
  {
    LessIrreflexive(s[0].key);
    assert s == s[..n] + s[n..];
    ValuesOfAppend(s[..n], s[n..], s[0].key);
    ValuesOfOneKey(s[..n], s[0].key, s[0].key);
    ValuesOfAbsentKey(s[n..], s[0].key);
  }

  /** Each reduce call gets all the values of its key. */
  lemma {:induction false} LinesAreForKeys(s: seq<KeyValue>, reducef: Reducer)
    requires SortedByKey(s)
    ensures Lines(Groups(s), reducef) == LinesFor(GroupKeys(Groups(s)), s, reducef)
    decreases |s|
  {
    if s != [] {
      var n := SplitOff(s);
      LinesAreForKeys(s[n..], reducef);
      var keys := GroupKeys(Groups(s));
      assert keys == [s[0].key] + keys[1..] && keys[1..] == GroupKeys(Groups(s[n..]));
      GroupKeysIncrease(s);
      LessIrreflexive(s[0].key);
      forall i | 0 <= i < |keys[1..]|
        ensures ValuesOf(s[n..], keys[1..][i]) == ValuesOf(s, keys[1..][i])
      {
        assert keys[1..][i] in keys[1..];
        ValuesSkip(s, n, keys[1..][i]);
      }
      LinesForWithin(keys[1..], s[n..], s, reducef);
      ValuesTake(s, n);
    }
  }

  lemma {:induction false} GroupsTakeEverything(s: seq<KeyValue>)
    requires SortedByKey(s)
    ensures GroupSizes(Groups(s)) == |s|
    decreases |s|
  {
    if s != [] {
      var n := SplitOff(s);
      GroupsTakeEverything(s[n..]);
      ValuesTake(s, n);
    }
  }

  lemma {:induction false} GroupValues(s: seq<KeyValue>, i: nat)
    requires SortedByKey(s) && i < |Groups(s)|
    ensures Groups(s)[i].values == ValuesOf(s, Groups(s)[i].key)
    ensures |GroupKeys(Groups(s))| == |Groups(s)| && Groups(s)[i].key == GroupKeys(Groups(s))[i]
    decreases |s|
  {
    var n := SplitOff(s);
    var rest := Groups(s[n..]);
    GroupKeysLength(rest);
    ValuesTake(s, n);
    if i > 0 {
      GroupValues(s[n..], i - 1);
      GroupKeysIncrease(s);
      LessIrreflexive(s[0].key);
      assert GroupKeys(Groups(s))[1..] == GroupKeys(rest);
      assert rest[i - 1].key in GroupKeys(rest);
      ValuesSkip(s, n, rest[i - 1].key);
    }
  }

  lemma {:induction false} GroupKeysLength(gs: seq<Group>)
    ensures |GroupKeys(gs)| == |gs|
  {
    if gs != [] {
      GroupKeysLength(gs[1..]);
    }
  }

  // ---------- what matters of the sort ----------

  /** The values of a key are the same up to order whatever the arrangement. */
  lemma {:induction false} ValuesOfPermuted(s: seq<KeyValue>, t: seq<KeyValue>, key: GoString)
    requires multiset(s) == multiset(t)
    ensures multiset(ValuesOf(s, key)) == multiset(ValuesOf(t, key))
  {
    SameLength(s, t);
    if s != [] {
      var i := Occurrence(s, t);
      ValuesOfPermuted(s[1..], t[..i] + t[i + 1..], key);
      ValuesOfWithout(t, i, key);
    }
  }

  lemma Without<T>(t: seq<T>, i: nat)
    requires i < |t|
    ensures multiset(t[..i] + t[i + 1..]) == multiset(t) - multiset{t[i]}
  {
    assert t == t[..i] + [t[i]] + t[i + 1..];
  }

  lemma Occurrence<T>(s: seq<T>, t: seq<T>) returns (i: nat)
    requires multiset(s) == multiset(t) && s != []
    ensures i < |t| && t[i] == s[0] && multiset(s[1..]) == multiset(t[..i] + t[i + 1..])
  {
    assert s[0] in multiset(t);
    i :| 0 <= i < |t| && t[i] == s[0];
    Without(s, 0);
    assert s[..0] + s[1..] == s[1..];
    Without(t, i);
  }

  lemma ValuesOfWithout(t: seq<KeyValue>, i: nat, key: GoString)
    requires i < |t|
    ensures multiset(ValuesOf(t, key)) ==
      multiset(if t[i].key == key then [t[i].value] else []) + multiset(ValuesOf(t[..i] + t[i + 1..], key))
  {
    assert t == t[..i] + t[i..];
    ValuesOfAppend(t[..i], t[i..], key);
    ValuesOfAppend(t[..i], t[i + 1..], key);
  }

  /** One group per distinct key, keys strictly ascending, each with exactly the values of its key in some order;
      the groups use up all the pairs. */
  ghost predicate GroupsExactly(kva: seq<KeyValue>, gs: seq<Group>) {
    && Increasing(GroupKeys(gs))
    && (forall key :: key in GroupKeys(gs) <==> HasKey(kva, key))
    && (forall i | 0 <= i < |gs| :: multiset(gs[i].values) == multiset(ValuesOf(kva, gs[i].key)))
    && (forall i, v | 0 <= i < |gs| :: multiset(gs[i].values)[v] == multiset(kva)[KeyValue(gs[i].key, v)])
    && GroupSizes(gs) == |kva|
  }

  /** What the sequential program groups, for every outcome of the unstable sort. */
  lemma OneGroupPerKey(kva: seq<KeyValue>, s: seq<KeyValue>)
    requires SortResult(kva, s)
    ensures GroupsExactly(kva, Groups(s))
  {
    GroupKeysIncrease(s);
    GroupsTakeEverything(s);
    SameLength(kva, s);
    forall key
      ensures key in GroupKeys(Groups(s)) <==> HasKey(kva, key)
    {
      GroupKeyMembers(s, key);
      SameKeys(s, kva, key);
    }
    forall i | 0 <= i < |Groups(s)|
      ensures multiset(Groups(s)[i].values) == multiset(ValuesOf(kva, Groups(s)[i].key))
    {
      GroupValues(s, i);
      ValuesOfPermuted(s, kva, Groups(s)[i].key);
    }
    forall i, v | 0 <= i < |Groups(s)|
      ensures multiset(Groups(s)[i].values)[v] == multiset(kva)[KeyValue(Groups(s)[i].key, v)]
    {
      ValueCounts(kva, Groups(s)[i].key, v);
    }
  }

  lemma SameKeys(s: seq<KeyValue>, t: seq<KeyValue>, key: GoString)
    requires multiset(s) == multiset(t)
    ensures HasKey(s, key) <==> HasKey(t, key)
  {
    forall kv
      ensures kv in s <==> kv in t
    {
      assert kv in s <==> kv in multiset(s);
    }
  }

  // ---------- bucket by bucket ----------

  /** A reduce function that does not look at the order of the values. */
  ghost predicate IgnoresOrder(reducef: Reducer) {
    forall key, v, w :: multiset(v) == multiset(w) ==> reducef(key, v) == reducef(key, w)
  }

  /** The pairs that go to reduce task b. */
  function Bucket(kva: seq<KeyValue>, hash: GoString -> nat, nReduce: nat, b: nat): seq<KeyValue>
    requires nReduce > 0
  {
    if kva == [] then [] else
      (if hash(kva[0].key) % nReduce == b then [kva[0]] else []) + Bucket(kva[1..], hash, nReduce, b)
  }

  lemma {:induction false} BucketValues(kva: seq<KeyValue>, hash: GoString -> nat, nReduce: nat, b: nat, key: GoString)
    requires nReduce > 0
    ensures ValuesOf(Bucket(kva, hash, nReduce, b), key) ==
      if hash(key) % nReduce == b then ValuesOf(kva, key) else []
    ensures HasKey(Bucket(kva, hash, nReduce, b), key) <==> hash(key) % nReduce == b && HasKey(kva, key)
  {
    if kva != [] {
      BucketValues(kva[1..], hash, nReduce, b, key);
      var rest := Bucket(kva[1..], hash, nReduce, b);
      var own := if hash(kva[0].key) % nReduce == b then [kva[0]] else [];
      ValuesOfAppend(own, rest, key);
      assert kva == [kva[0]] + kva[1..];
      HasKeyAppend([kva[0]], kva[1..], key);
      HasKeyAppend(own, rest, key);
      HasKeyOne(kva[0], key);
    }
  }

  lemma HasKeyOne(kv: KeyValue, key: GoString)
    ensures HasKey([kv], key) <==> kv.key == key
  {
    assert kv in [kv];
  }

  /** The output files of the reduce tasks, one after the other. */
  function AllLines(sorted: seq<seq<KeyValue>>, reducef: Reducer): seq<GoString> {
    if sorted == [] then [] else
      var last := |sorted| - 1;
      AllLines(sorted[..last], reducef) + Lines(Groups(sorted[last]), reducef)
  }

  function AllKeys(sorted: seq<seq<KeyValue>>): seq<GoString> {
    if sorted == [] then [] else
      var last := |sorted| - 1;
      AllKeys(sorted[..last]) + GroupKeys(Groups(sorted[last]))
  }

  /** The first tasks' inputs, each sorted in some way. */
  ghost predicate SortedBuckets(kva: seq<KeyValue>, hash: GoString -> nat, nReduce: nat, sorted: seq<seq<KeyValue>>)
    requires nReduce > 0
  {
    forall b | 0 <= b < |sorted| :: SortResult(Bucket(kva, hash, nReduce, b), sorted[b])
  }

  lemma TaskKey(kva: seq<KeyValue>, hash: GoString -> nat, nReduce: nat, b: nat, s: seq<KeyValue>, key: GoString)
    requires nReduce > 0 && SortResult(Bucket(kva, hash, nReduce, b), s)
    ensures key in GroupKeys(Groups(s)) <==> hash(key) % nReduce == b && HasKey(kva, key)
  {
    GroupKeyMembers(s, key);
    SameKeys(s, Bucket(kva, hash, nReduce, b), key);
    BucketValues(kva, hash, nReduce, b, key);
  }

  lemma {:induction false} TaskKeys(kva: seq<KeyValue>, hash: GoString -> nat, nReduce: nat,
                                    sorted: seq<seq<KeyValue>>, key: GoString)
    requires nReduce > 0 && SortedBuckets(kva, hash, nReduce, sorted)
    ensures key in AllKeys(sorted) <==> hash(key) % nReduce < |sorted| && HasKey(kva, key)
    ensures multiset(AllKeys(sorted))[key] <= 1
  {
    if sorted != [] {
      var last := |sorted| - 1;
      TaskKeys(kva, hash, nReduce, sorted[..last], key);
      TaskKey(kva, hash, nReduce, last, sorted[last], key);
      GroupKeysIncrease(sorted[last]);
      IncreasingOnce(GroupKeys(Groups(sorted[last])), key);
      OnceInOne(AllKeys(sorted[..last]), GroupKeys(Groups(sorted[last])), key);
    }
  }

  lemma OnceInOne(s: seq<GoString>, t: seq<GoString>, key: GoString)
    requires !(key in s && key in t)
    requires multiset(s)[key] <= 1 && multiset(t)[key] <= 1
    ensures multiset(s + t)[key] <= 1
    ensures key in s + t <==> key in s || key in t
  {
    assert key in s <==> key in multiset(s);
    assert key in t <==> key in multiset(t);
  }

  lemma {:induction false} IncreasingOnce(s: seq<GoString>, key: GoString)
    requires Increasing(s)
    ensures multiset(s)[key] <= 1
  {
    if s != [] {
      IncreasingOnce(s[1..], key);
      LessIrreflexive(s[0]);
      assert s == [s[0]] + s[1..];
      assert s[0] !in multiset(s[1..]) by {
        assert s[0] !in s[1..];
      }
    }
  }

  lemma {:induction false} LinesForAppend(k: seq<GoString>, l: seq<GoString>, s: seq<KeyValue>, reducef: Reducer)
    ensures LinesFor(k + l, s, reducef) == LinesFor(k, s, reducef) + LinesFor(l, s, reducef)
  {
    if k == [] {
      assert k + l == l;
    } else {
      LinesForAppend(k[1..], l, s, reducef);
      assert (k + l)[1..] == k[1..] + l;
    }
  }

  /** One task's lines, for each of its keys computed from all the pairs. */
  lemma TaskLines(kva: seq<KeyValue>, hash: GoString -> nat, nReduce: nat, b: nat, s: seq<KeyValue>, reducef: Reducer)
    requires nReduce > 0 && SortResult(Bucket(kva, hash, nReduce, b), s) && IgnoresOrder(reducef)
    ensures Lines(Groups(s), reducef) == LinesFor(GroupKeys(Groups(s)), kva, reducef)
  {
    LinesAreForKeys(s, reducef);
    var keys := GroupKeys(Groups(s));
    forall i | 0 <= i < |keys|
      ensures reducef(keys[i], ValuesOf(s, keys[i])) == reducef(keys[i], ValuesOf(kva, keys[i]))
    {
      assert keys[i] in keys;
      TaskKey(kva, hash, nReduce, b, s, keys[i]);
      BucketValues(kva, hash, nReduce, b, keys[i]);
      ValuesOfPermuted(s, Bucket(kva, hash, nReduce, b), keys[i]);
    }
    LinesForWithin(keys, s, kva, reducef);
  }

  lemma {:induction false} AllTaskLines(kva: seq<KeyValue>, hash: GoString -> nat, nReduce: nat,
                                        sorted: seq<seq<KeyValue>>, reducef: Reducer)
    requires nReduce > 0 && SortedBuckets(kva, hash, nReduce, sorted) && IgnoresOrder(reducef)
    ensures AllLines(sorted, reducef) == LinesFor(AllKeys(sorted), kva, reducef)
  {
    if sorted != [] {
      var last := |sorted| - 1;
      AllTaskLines(kva, hash, nReduce, sorted[..last], reducef);
      TaskLines(kva, hash, nReduce, last, sorted[last], reducef);
      LinesForAppend(AllKeys(sorted[..last]), GroupKeys(Groups(sorted[last])), kva, reducef);
    }
  }

  lemma LinesForWithout(l: seq<GoString>, i: nat, s: seq<KeyValue>, reducef: Reducer)
    requires i < |l|
    ensures multiset(LinesFor(l, s, reducef)) ==
      multiset{Line(l[i], reducef(l[i], ValuesOf(s, l[i])))} + multiset(LinesFor(l[..i] + l[i + 1..], s, reducef))
  {
    assert l == l[..i] + l[i..];
    LinesForAppend(l[..i], l[i..], s, reducef);
    LinesForAppend(l[..i], l[i + 1..], s, reducef);
  }

  lemma {:induction false} LinesForPermuted(k: seq<GoString>, l: seq<GoString>, s: seq<KeyValue>, reducef: Reducer)
    requires multiset(k) == multiset(l)
    ensures multiset(LinesFor(k, s, reducef)) == multiset(LinesFor(l, s, reducef))
  {
    if k == [] {
      assert |multiset(l)| == |l| && |multiset(k)| == 0;
    } else {
      var i := Occurrence(k, l);
      LinesForPermuted(k[1..], l[..i] + l[i + 1..], s, reducef);
      LinesForWithout(l, i, s, reducef);
    }
  }

  /** Lines of the sequential run, computed from the unsorted pairs. */
  lemma SequentialLines(kva: seq<KeyValue>, s: seq<KeyValue>, reducef: Reducer)
    requires SortResult(kva, s) && IgnoresOrder(reducef)
    ensures Lines(Groups(s), reducef) == LinesFor(GroupKeys(Groups(s)), kva, reducef)
  {
    LinesAreForKeys(s, reducef);
    var keys := GroupKeys(Groups(s));
    forall i | 0 <= i < |keys|
      ensures reducef(keys[i], ValuesOf(s, keys[i])) == reducef(keys[i], ValuesOf(kva, keys[i]))
    {
      ValuesOfPermuted(s, kva, keys[i]);
    }
    LinesForWithin(keys, s, kva, reducef);
  }

  /** Splitting the pairs over nReduce tasks by hash and reducing each part alone yields the sequential output,
      up to the order of the lines. */
  lemma BucketsGiveTheSameLines(kva: seq<KeyValue>, s: seq<KeyValue>, hash: GoString -> nat, nReduce: nat,
                                sorted: seq<seq<KeyValue>>, reducef: Reducer)
    requires nReduce > 0 && |sorted| == nReduce && SortedBuckets(kva, hash, nReduce, sorted)
    requires SortResult(kva, s) && IgnoresOrder(reducef)
    ensures multiset(AllLines(sorted, reducef)) == multiset(Lines(Groups(s), reducef))
  {
    SequentialLines(kva, s, reducef);
    AllTaskLines(kva, hash, nReduce, sorted, reducef);
    var k, l := AllKeys(sorted), GroupKeys(Groups(s));
    GroupKeysIncrease(s);
    forall key
      ensures multiset(k)[key] == multiset(l)[key]
    {
      TaskKeys(kva, hash, nReduce, sorted, key);
      GroupKeyMembers(s, key);
      SameKeys(s, kva, key);
      IncreasingOnce(l, key);
      assert key in k <==> key in multiset(k);
      assert key in l <==> key in multiset(l);
    }
    assert multiset(k) == multiset(l);
    LinesForPermuted(k, l, kva, reducef);
  }

  /** In particular with the worker's ihash. */
  lemma IhashBucketsGiveTheSameLines(kva: seq<KeyValue>, s: seq<KeyValue>, nReduce: nat,
                                     sorted: seq<seq<KeyValue>>, reducef: Reducer)
    requires nReduce > 0 && |sorted| == nReduce && SortedBuckets(kva, Ihash, nReduce, sorted)
    requires SortResult(kva, s) && IgnoresOrder(reducef)
    ensures multiset(AllLines(sorted, reducef)) == multiset(Lines(Groups(s), reducef))
  {
    BucketsGiveTheSameLines(kva, s, Ihash, nReduce, sorted, reducef);
  }
}
