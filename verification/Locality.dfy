/** Checking every key by itself is the same as checking the whole store. */
module Locality {
  import opened GoStrings
  import opened KvModel

  type Store = map<GoString, KvState<GoString>>

  function At(m: Store, k: GoString): KvState<GoString> {
    if k in m then m[k] else Init()
  }

  // ---------- linearizability ----------

  /** No operation that returned before another was called comes after it. */
  ghost predicate RealTime(l: seq<Operation>) {
    l != [] ==> (forall o | o in l[1..] :: !(o.ret < l[0].call)) && RealTime(l[1..])
  }

  /** One register accepts the operations in this order. */
  ghost predicate Accepts(st: KvState<GoString>, l: seq<Operation>)
    decreases l
  {
    l != [] ==>
      var (ok, next) := Step(st, l[0].input, l[0].output);
      ok && Accepts(next, l[1..])
  }

  /** The store, a map of registers, accepts the operations in this order. */
  ghost predicate StoreAccepts(m: Store, l: seq<Operation>)
    decreases l
  {
    l != [] ==>
      var (ok, next) := Step(At(m, l[0].input.key), l[0].input, l[0].output);
      ok && StoreAccepts(m[l[0].input.key := next], l[1..])
  }

  ghost predicate Linearizes(h: seq<Operation>, l: seq<Operation>) {
    multiset(l) == multiset(h) && RealTime(l) && Accepts(Init(), l)
  }

  ghost predicate StoreLinearizes(h: seq<Operation>, l: seq<Operation>) {
    multiset(l) == multiset(h) && RealTime(l) && StoreAccepts(map[], l)
  }

  ghost predicate Linearizable(h: seq<Operation>) {
    exists l :: Linearizes(h, l)
  }

  ghost predicate StoreLinearizable(h: seq<Operation>) {
    exists l :: StoreLinearizes(h, l)
  }

  // ---------- what a register promises ----------

  ghost predicate OkPut(o: Operation) {
    o.input.op == 1 && o.output.err == "OK"
  }

  lemma {:induction false} OkPutsComeLater(st: KvState<GoString>, l: seq<Operation>, j: nat)
    requires st.KvState? && st.version + |l| < UINT64_SIZE
    requires Accepts(st, l) && j < |l| && OkPut(l[j])
    ensures st.version <= l[j].input.version
    decreases l
  {
    if j > 0 {
      var (_, next) := Step(st, l[0].input, l[0].output);
      OkPutsComeLater(next, l[1..], j - 1);
    }
  }

  /** A version is put over at most once: the puts that returned OK carry strictly rising versions. */
  lemma {:induction false} OkPutsRise(st: KvState<GoString>, l: seq<Operation>, i: nat, j: nat)
    requires st.KvState? && st.version + |l| < UINT64_SIZE
    requires Accepts(st, l) && i < j < |l| && OkPut(l[i]) && OkPut(l[j])
    ensures l[i].input.version < l[j].input.version
    decreases l
  {
    var (_, next) := Step(st, l[0].input, l[0].output);
    if i > 0 {
      OkPutsRise(next, l[1..], i - 1, j - 1);
    } else {
      OkPutsComeLater(next, l[1..], j - 1);
    }
  }

  /** What an order of operations makes of a register, told from the operations alone: a put takes effect if it
      carries the version the puts before it have brought about. */
  ghost predicate TakesEffect(st: KvState<GoString>, l: seq<Operation>, k: nat)
    requires st.KvState? && k < |l|
    decreases k, 1
  {
    l[k].input.op == 1 && l[k].input.version == VersionBefore(st, l, k)
  }

  ghost function VersionBefore(st: KvState<GoString>, l: seq<Operation>, k: nat): Uint64
    requires st.KvState? && k <= |l|
    decreases k, 0
  {
    if k == 0 then st.version else
      (VersionBefore(st, l, k - 1) + if TakesEffect(st, l, k - 1) then 1 else 0) % UINT64_SIZE
  }

  /** The value of the last put that took effect. */
  ghost function ValueBefore(st: KvState<GoString>, l: seq<Operation>, k: nat): GoString
    requires st.KvState? && k <= |l|
  {
    if k == 0 then st.value
    else if TakesEffect(st, l, k - 1) then l[k - 1].input.value
    else ValueBefore(st, l, k - 1)
  }

  ghost predicate Answered(st: KvState<GoString>, l: seq<Operation>, k: nat)
    requires st.KvState? && k < |l|
  {
    var out := l[k].output;
    if l[k].input.op == 0 then out.value == ValueBefore(st, l, k)
    else
      l[k].input.op == 1 && (out.err == "ErrMaybe" || out.err == if TakesEffect(st, l, k) then "OK" else "ErrVersion")
  }

  lemma {:induction false} OneStepOn(st: KvState<GoString>, l: seq<Operation>, k: nat)
    requires st.KvState? && 0 < k <= |l| && (l[0].input.op == 0 || l[0].input.op == 1)
    ensures var next := Step(st, l[0].input, l[0].output).1;
      && next.KvState?
      && VersionBefore(st, l, k) == VersionBefore(next, l[1..], k - 1)
      && ValueBefore(st, l, k) == ValueBefore(next, l[1..], k - 1)
    decreases k
  {
    if k > 1 {
      OneStepOn(st, l, k - 1);
      assert l[1..][k - 2] == l[k - 1];
    }
  }

  lemma AnsweredOneStepOn(st: KvState<GoString>, l: seq<Operation>, k: nat)
    requires st.KvState? && 0 < k < |l| && (l[0].input.op == 0 || l[0].input.op == 1)
    ensures var next := Step(st, l[0].input, l[0].output).1;
      next.KvState? && (Answered(st, l, k) <==> Answered(next, l[1..], k - 1))
  {
    OneStepOn(st, l, k);
    assert l[1..][k - 1] == l[k];
  }

  /** Step accepts an order exactly when every get returns the value of the last put that took effect, and every
      put is answered OK or ErrVersion according to whether it takes effect, or ErrMaybe. */
  lemma {:induction false} AcceptsExactly(st: KvState<GoString>, l: seq<Operation>)
    requires st.KvState?
    ensures Accepts(st, l) <==> forall k: nat | k < |l| :: Answered(st, l, k)
    decreases l
  {
    if l != [] {
      var (ok, next) := Step(st, l[0].input, l[0].output);
      assert ok <==> Answered(st, l, 0);
      if ok {
        AcceptsExactly(next, l[1..]);
        forall k: nat | 0 < k < |l|
          ensures Answered(st, l, k) <==> Answered(next, l[1..], k - 1)
        {
          AnsweredOneStepOn(st, l, k);
        }
        if forall k: nat | k < |l| :: Answered(st, l, k) {
          forall k: nat | k < |l[1..]|
            ensures Answered(next, l[1..], k)
          {
            assert Answered(st, l, k + 1);
          }
        }
      }
    }
  }

  /** Without puts in between, the value stays. */
  lemma {:induction false} ValueStays(st: KvState<GoString>, l: seq<Operation>, i: nat, j: nat)
    requires st.KvState? && i <= j <= |l|
    requires forall k | i <= k < j :: l[k].input.op != 1
    ensures ValueBefore(st, l, j) == ValueBefore(st, l, i)
    decreases j
  {
    if i < j {
      ValueStays(st, l, i, j - 1);
    }
  }

  /** A get returns what the last put before it wrote, if that put was answered OK. */
  lemma GetReturnsLastPut(st: KvState<GoString>, l: seq<Operation>, i: nat, j: nat)
    requires st.KvState? && Accepts(st, l) && i < j < |l| && OkPut(l[i]) && l[j].input.op == 0
    requires forall k | i < k < j :: l[k].input.op != 1
    ensures l[j].output.value == l[i].input.value
  {
    AcceptsExactly(st, l);
    assert Answered(st, l, i) && Answered(st, l, j);
    ValueStays(st, l, i + 1, j);
  }

  /** A get returns the initial value or that of an earlier put that was not answered ErrVersion. */
  lemma GetReturnsSomePut(st: KvState<GoString>, l: seq<Operation>, j: nat)
    requires st.KvState? && Accepts(st, l) && j < |l| && l[j].input.op == 0
    ensures l[j].output.value == st.value ||
            exists i: nat | i < j :: l[i].input.op == 1 && l[i].output.err != "ErrVersion"
                                     && l[j].output.value == l[i].input.value
  {
    AcceptsExactly(st, l);
    assert Answered(st, l, j);
    ValueHasSource(st, l, j);
    if ValueBefore(st, l, j) != st.value {
      var i: nat :| i < j && TakesEffect(st, l, i) && ValueBefore(st, l, j) == l[i].input.value;
      assert Answered(st, l, i);
    }
  }

  lemma {:induction false} ValueHasSource(st: KvState<GoString>, l: seq<Operation>, j: nat)
    requires st.KvState? && j <= |l|
    ensures ValueBefore(st, l, j) == st.value ||
            exists i: nat | i < j :: TakesEffect(st, l, i) && ValueBefore(st, l, j) == l[i].input.value
    decreases j
  {
    if j > 0 && !TakesEffect(st, l, j - 1) {
      ValueHasSource(st, l, j - 1);
    }
  }

  /** A fresh register: gets before any put return the empty string, and the first put answered OK, if no put
      before it was undecided, carries version 0. */
  lemma FreshRegister(l: seq<Operation>, j: nat)
    requires Accepts(Init(), l) && j < |l|
    requires forall k | 0 <= k < j :: l[k].input.op == 0 || l[k].output.err == "ErrVersion"
    ensures l[j].input.op == 0 ==> l[j].output.value == []
    ensures OkPut(l[j]) ==> l[j].input.version == 0
    ensures l[j].input.op == 1 && l[j].output.err == "ErrVersion" ==> l[j].input.version != 0
  {
    AcceptsExactly(Init(), l);
    NothingTakesEffect(Init(), l, j);
    assert Answered(Init(), l, j);
  }

  lemma {:induction false} NothingTakesEffect(st: KvState<GoString>, l: seq<Operation>, j: nat)
    requires st.KvState? && j <= |l|
    requires forall k: nat | k < |l| :: Answered(st, l, k)
    requires forall k | 0 <= k < j :: l[k].input.op == 0 || l[k].output.err == "ErrVersion"
    ensures VersionBefore(st, l, j) == st.version && ValueBefore(st, l, j) == st.value
    decreases j
  {
    if j > 0 {
      NothingTakesEffect(st, l, j - 1);
      assert Answered(st, l, j - 1);
    }
  }

  // ---------- restricting to a key ----------

  /** The store accepts an order exactly when each register accepts its part of it. */
  lemma {:induction false} StoreAcceptsByKey(m: Store, l: seq<Operation>)
    ensures StoreAccepts(m, l) <==> forall k :: Accepts(At(m, k), ForKey(l, k))
    decreases l
  {
    if l != [] {
      var key := l[0].input.key;
      var (ok, next) := Step(At(m, key), l[0].input, l[0].output);
      var n := m[key := next];
      StoreAcceptsByKey(n, l[1..]);
      forall k | k != key
        ensures Accepts(At(m, k), ForKey(l, k)) <==> Accepts(At(n, k), ForKey(l[1..], k))
      {
        assert ForKey(l, k) == ForKey(l[1..], k);
      }
      assert ForKey(l, key)[1..] == ForKey(l[1..], key);
      assert Accepts(At(m, key), ForKey(l, key)) <==> ok && Accepts(At(n, key), ForKey(l[1..], key));
    }
  }

  lemma {:induction false} CountForKey(l: seq<Operation>, k: GoString, o: Operation)
    ensures multiset(ForKey(l, k))[o] == if o.input.key == k then multiset(l)[o] else 0
  {
    if l != [] {
      CountForKey(l[1..], k, o);
      assert l == [l[0]] + l[1..];
    }
  }

  lemma SameOpsForKey(l: seq<Operation>, h: seq<Operation>, k: GoString)
    requires multiset(l) == multiset(h)
    ensures multiset(ForKey(l, k)) == multiset(ForKey(h, k))
  {
    forall o
      ensures multiset(ForKey(l, k))[o] == multiset(ForKey(h, k))[o]
    {
      CountForKey(l, k, o);
      CountForKey(h, k, o);
    }
  }

  lemma SameOps(l: seq<Operation>, h: seq<Operation>)
    requires forall k :: multiset(ForKey(l, k)) == multiset(ForKey(h, k))
    ensures multiset(l) == multiset(h)
  {
    forall o
      ensures multiset(l)[o] == multiset(h)[o]
    {
      CountForKey(l, o.input.key, o);
      CountForKey(h, o.input.key, o);
    }
  }

  lemma {:induction false} ForKeyMembers(l: seq<Operation>, k: GoString)
    ensures forall o :: o in ForKey(l, k) <==> o in l && o.input.key == k
  {
    if l != [] {
      ForKeyMembers(l[1..], k);
      assert l == [l[0]] + l[1..];
    }
  }

  lemma {:induction false} RealTimeForKey(l: seq<Operation>, k: GoString)
    requires RealTime(l)
    ensures RealTime(ForKey(l, k))
  {
    if l != [] {
      RealTimeForKey(l[1..], k);
      ForKeyMembers(l[1..], k);
      if l[0].input.key == k {
        assert ForKey(l, k)[1..] == ForKey(l[1..], k);
      } else {
        assert ForKey(l, k) == ForKey(l[1..], k);
      }
    }
  }

  lemma StoreToKey(h: seq<Operation>, k: GoString)
    requires StoreLinearizable(h)
    ensures Linearizable(ForKey(h, k))
  {
    var l :| StoreLinearizes(h, l);
    StoreAcceptsByKey(map[], l);
    SameOpsForKey(l, h, k);
    RealTimeForKey(l, k);
    assert At(map[], k) == Init();
    assert Linearizes(ForKey(h, k), ForKey(l, k));
  }

  // ---------- merging the keys ----------

  /** An operation with a point in time between its call and its return. */
  datatype Stamped = Stamped(op: Operation, point: int)

  function Ops(s: seq<Stamped>): seq<Operation> {
    if s == [] then [] else [s[0].op] + Ops(s[1..])
  }

  /** Points never go back and lie within their operations. */
  ghost predicate Timed(s: seq<Stamped>) {
    s != [] ==>
      && s[0].op.call <= s[0].point <= s[0].op.ret
      && (forall x | x in s[1..] :: s[0].point <= x.point)
      && Timed(s[1..])
  }

  /** Every operation gets the latest call among itself and those before it. */
  function Stamp(l: seq<Operation>, from: int): seq<Stamped> {
    if l == [] then [] else
      var p := if from < l[0].call then l[0].call else from;
      [Stamped(l[0], p)] + Stamp(l[1..], p)
  }

  lemma {:induction false} StampTimed(l: seq<Operation>, from: int)
    requires RealTime(l)
    requires forall o | o in l :: o.call <= o.ret && from <= o.ret
    ensures Timed(Stamp(l, from)) && Ops(Stamp(l, from)) == l
    ensures forall x | x in Stamp(l, from) :: from <= x.point
  {
    if l != [] {
      var p := if from < l[0].call then l[0].call else from;
      assert l == [l[0]] + l[1..];
      assert l[0] in l;
      StampTimed(l[1..], p);
      assert Stamp(l, from)[1..] == Stamp(l[1..], p);
    }
  }

  function Merge(a: seq<Stamped>, b: seq<Stamped>): seq<Stamped>
    decreases |a| + |b|
  {
    if a == [] then b
    else if b == [] then a
    else if a[0].point <= b[0].point then [a[0]] + Merge(a[1..], b)
    else [b[0]] + Merge(a, b[1..])
  }

  lemma {:induction false} MergeTimed(a: seq<Stamped>, b: seq<Stamped>)
    requires Timed(a) && Timed(b)
    ensures Timed(Merge(a, b))
    ensures forall x :: x in Merge(a, b) <==> x in a || x in b
    decreases |a| + |b|
  {
    if a != [] && b != [] {
      assert a == [a[0]] + a[1..] && b == [b[0]] + b[1..];
      if a[0].point <= b[0].point {
        MergeTimed(a[1..], b);
        assert Merge(a, b)[1..] == Merge(a[1..], b);
      } else {
        MergeTimed(a, b[1..]);
        assert Merge(a, b)[1..] == Merge(a, b[1..]);
      }
    }
  }

  /** Merging keeps the order of a key all of whose operations are on one side. */
  lemma {:induction false} MergeForKey(a: seq<Stamped>, b: seq<Stamped>, k: GoString)
    requires ForKey(Ops(a), k) == [] || ForKey(Ops(b), k) == []
    ensures ForKey(Ops(Merge(a, b)), k) == ForKey(Ops(a), k) + ForKey(Ops(b), k)
    decreases |a| + |b|
  {
    if a != [] && b != [] {
      if a[0].point <= b[0].point {
        MergeForKey(a[1..], b, k);
        assert Merge(a, b)[1..] == Merge(a[1..], b);
      } else {
        MergeForKey(a, b[1..], k);
        assert Merge(a, b)[1..] == Merge(a, b[1..]);
      }
    }
  }

  lemma {:induction false} OpsMembers(s: seq<Stamped>)
    ensures forall o :: o in Ops(s) <==> exists x :: x in s && x.op == o
  {
    if s != [] {
      OpsMembers(s[1..]);
      assert s == [s[0]] + s[1..];
      assert s[0] in s;
    }
  }

  lemma {:induction false} TimedRealTime(s: seq<Stamped>)
    requires Timed(s)
    ensures RealTime(Ops(s))
  {
    if s != [] {
      TimedRealTime(s[1..]);
      OpsMembers(s[1..]);
      TimedMembers(s[1..]);
      assert Ops(s)[1..] == Ops(s[1..]);
    }
  }

  lemma {:induction false} TimedMembers(s: seq<Stamped>)
    requires Timed(s)
    ensures forall x | x in s :: x.op.call <= x.point <= x.op.ret
  {
    if s != [] {
      TimedMembers(s[1..]);
      assert s == [s[0]] + s[1..];
    }
  }

  /** Stamped operations that run through the first n keys, each in an order its register accepts. */
  ghost predicate Merged(h: seq<Operation>, keys: seq<GoString>, n: nat, s: seq<Stamped>)
    requires n <= |keys|
  {
    && Timed(s)
    && (forall i | 0 <= i < n :: Linearizes(ForKey(h, keys[i]), ForKey(Ops(s), keys[i])))
    && (forall k | k !in keys[..n] :: ForKey(Ops(s), k) == [])
  }

  lemma {:induction false} IncreasingDistinct(keys: seq<GoString>, i: nat, j: nat)
    requires Increasing(keys) && i < j < |keys|
    ensures keys[i] != keys[j]
  {
    LessIrreflexive(keys[0]);
    if i > 0 {
      IncreasingDistinct(keys[1..], i - 1, j - 1);
    } else {
      assert keys[j] == keys[1..][j - 1];
    }
  }

  lemma ForOwnKey(l: seq<Operation>, k: GoString, j: GoString)
    requires forall o | o in l :: o.input.key == k
    ensures ForKey(l, j) == if j == k then l else []
  {
    if l != [] {
      assert l[0] in l;
      ForOwnKey(l[1..], k, j);
    }
  }

  lemma SameMembers(l: seq<Operation>, h: seq<Operation>)
    requires multiset(l) == multiset(h)
    ensures forall o :: o in l <==> o in h
  {
    forall o
      ensures o in l <==> o in h
    {
      assert o in l <==> o in multiset(l);
      assert o in h <==> o in multiset(h);
    }
  }

  lemma StampLinearization(h: seq<Operation>, k: GoString, l: seq<Operation>) returns (b: seq<Stamped>)
    requires forall o | o in h :: o.call <= o.ret
    requires Linearizes(ForKey(h, k), l)
    ensures Timed(b) && Ops(b) == l
    ensures forall o | o in l :: o.input.key == k
  {
    SameMembers(l, ForKey(h, k));
    ForKeyMembers(h, k);
    var from := if l == [] then 0 else l[0].call;
    forall o | o in l
      ensures o.call <= o.ret && from <= o.ret
    {
      assert l != [] && l == [l[0]] + l[1..];
    }
    StampTimed(l, from);
    b := Stamp(l, from);
  }

  lemma NextKeyIsNew(keys: seq<GoString>, n: nat)
    requires Increasing(keys) && n < |keys|
    ensures keys[n] !in keys[..n]
  {
    forall i | 0 <= i < n
      ensures keys[i] != keys[n]
    {
      IncreasingDistinct(keys, i, n);
    }
  }

  lemma MergeAddsKey(s: seq<Stamped>, b: seq<Stamped>, key: GoString)
    requires forall o | o in Ops(b) :: o.input.key == key
    requires ForKey(Ops(s), key) == []
    ensures forall k :: ForKey(Ops(Merge(s, b)), k) == if k == key then Ops(b) else ForKey(Ops(s), k)
  {
    forall k
      ensures ForKey(Ops(Merge(s, b)), k) == if k == key then Ops(b) else ForKey(Ops(s), k)
    {
      ForOwnKey(Ops(b), key, k);
      MergeForKey(s, b, k);
    }
  }

  /** r holds l under the n-th key and what s holds under every other. */
  ghost predicate Extends(s: seq<Stamped>, r: seq<Stamped>, key: GoString, l: seq<Operation>) {
    forall k :: ForKey(Ops(r), k) == if k == key then l else ForKey(Ops(s), k)
  }

  lemma EarlierKeysStay(h: seq<Operation>, keys: seq<GoString>, n: nat, s: seq<Stamped>, r: seq<Stamped>,
                        l: seq<Operation>, i: nat)
    requires Increasing(keys) && n < |keys| && Merged(h, keys, n, s) && i <= n
    requires Extends(s, r, keys[n], l) && Linearizes(ForKey(h, keys[n]), l)
    ensures Linearizes(ForKey(h, keys[i]), ForKey(Ops(r), keys[i]))
  {
    if i < n {
      IncreasingDistinct(keys, i, n);
      assert ForKey(Ops(r), keys[i]) == ForKey(Ops(s), keys[i]);
    }
  }

  lemma LaterKeysStayEmpty(h: seq<Operation>, keys: seq<GoString>, n: nat, s: seq<Stamped>, r: seq<Stamped>,
                           l: seq<Operation>, k: GoString)
    requires n < |keys| && Merged(h, keys, n, s) && Extends(s, r, keys[n], l)
    requires k !in keys[..n + 1]
    ensures ForKey(Ops(r), k) == []
  {
    assert keys[..n + 1] == keys[..n] + [keys[n]];
    assert k != keys[n] && k !in keys[..n];
  }

  lemma AddKey(h: seq<Operation>, keys: seq<GoString>, n: nat, s: seq<Stamped>, l: seq<Operation>)
    returns (r: seq<Stamped>)
    requires forall o | o in h :: o.call <= o.ret
    requires Increasing(keys) && n < |keys| && Merged(h, keys, n, s)
    requires Linearizes(ForKey(h, keys[n]), l)
    ensures Merged(h, keys, n + 1, r)
  {
    var b := StampLinearization(h, keys[n], l);
    r := Merge(s, b);
    MergeTimed(s, b);
    NextKeyIsNew(keys, n);
    MergeAddsKey(s, b, keys[n]);
    forall i: nat | i < n + 1
      ensures Linearizes(ForKey(h, keys[i]), ForKey(Ops(r), keys[i]))
    {
      EarlierKeysStay(h, keys, n, s, r, l, i);
    }
    forall k | k !in keys[..n + 1]
      ensures ForKey(Ops(r), k) == []
    {
      LaterKeysStayEmpty(h, keys, n, s, r, l, k);
    }
  }

  lemma {:induction false} MergeKeys(h: seq<Operation>, keys: seq<GoString>, n: nat) returns (s: seq<Stamped>)
    requires forall o | o in h :: o.call <= o.ret
    requires Increasing(keys) && n <= |keys|
    requires forall i | 0 <= i < n :: Linearizable(ForKey(h, keys[i]))
    ensures Merged(h, keys, n, s)
  {
    if n == 0 {
      s := [];
    } else {
      var t := MergeKeys(h, keys, n - 1);
      var l :| Linearizes(ForKey(h, keys[n - 1]), l);
      s := AddKey(h, keys, n - 1, t, l);
    }
  }

  lemma KeysToStore(h: seq<Operation>, keys: seq<GoString>)
    requires forall o | o in h :: o.call <= o.ret
    requires Increasing(keys) && forall k :: k in keys <==> k in KeysOf(h)
    requires forall i | 0 <= i < |keys| :: Linearizable(ForKey(h, keys[i]))
    ensures StoreLinearizable(h)
  {
    var s := MergeKeys(h, keys, |keys|);
    var l := Ops(s);
    assert keys[..|keys|] == keys;
    forall k
      ensures multiset(ForKey(l, k)) == multiset(ForKey(h, k))
      ensures Accepts(At(map[], k), ForKey(l, k))
    {
      if k in keys {
        var i :| 0 <= i < |keys| && keys[i] == k;
        assert Linearizes(ForKey(h, keys[i]), ForKey(l, keys[i]));
      } else {
        NoKeyNoOps(h, k);
      }
    }
    SameOps(l, h);
    TimedRealTime(s);
    StoreAcceptsByKey(map[], l);
    assert StoreLinearizes(h, l);
  }

  /** "We're partitioning by key, so this is okay": a history whose operations do not return before they
      are called is linearizable against the whole store exactly when every part is against one register. */
  lemma LocalityTheorem(h: seq<Operation>, keys: seq<GoString>, parts: seq<seq<Operation>>)
    requires forall o | o in h :: o.call <= o.ret
    requires IsPartition(h, keys, parts)
    ensures StoreLinearizable(h) <==> forall i | 0 <= i < |parts| :: Linearizable(parts[i])
  {
    if StoreLinearizable(h) {
      forall i | 0 <= i < |parts|
        ensures Linearizable(parts[i])
      {
        StoreToKey(h, keys[i]);
      }
    } else if forall i | 0 <= i < |parts| :: Linearizable(parts[i]) {
      forall i | 0 <= i < |keys|
        ensures Linearizable(ForKey(h, keys[i]))
      {
        assert parts[i] == ForKey(h, keys[i]);
      }
      KeysToStore(h, keys);
    }
  }

  lemma {:induction false} CrossedIntervals(l: seq<Operation>, a: Operation, b: Operation)
    requires a in l && b in l && a != b && a.ret < b.call && b.ret < a.call
    ensures !RealTime(l)
  {
    assert l == [l[0]] + l[1..];
    if l[0] != a && l[0] != b {
      CrossedIntervals(l[1..], a, b);
    }
  }

  lemma AloneLinearizes(o: Operation)
    requires Step(Init(), o.input, o.output).0
    ensures Linearizes([o], [o])
  {
    assert [o][1..] == [];
  }

  /** The premise is needed: whenever two operations on different keys each return before the other is called,
      they are in order key by key and not together. */
  lemma LocalityNeedsIntervals(a: Operation, b: Operation)
    requires a.input.key != b.input.key && a.ret < b.call && b.ret < a.call
    requires Step(Init(), a.input, a.output).0 && Step(Init(), b.input, b.output).0
    ensures Linearizable(ForKey([a, b], a.input.key)) && Linearizable(ForKey([a, b], b.input.key))
    ensures !StoreLinearizable([a, b])
  {
    var x, y := a.input.key, b.input.key;
    assert [a] + [b] == [a, b];
    forall k | k == x || k == y
      ensures ForKey([a, b], k) == if k == x then [a] else [b]
    {
      ForKeyAppend([a], [b], k);
      ForOwnKey([a], x, k);
      ForOwnKey([b], y, k);
    }
    AloneLinearizes(a);
    AloneLinearizes(b);
    forall l
      ensures !StoreLinearizes([a, b], l)
    {
      if multiset(l) == multiset([a, b]) {
        SameMembers(l, [a, b]);
        assert a in [a, b] && b in [a, b];
        CrossedIntervals(l, a, b);
      }
    }
  }
}
