/** The model handed to the linearizability checker: one versioned register per key. */
module KvModel {
  import opened GoStrings

  const UINT64_SIZE: int := 0x1_0000_0000_0000_0000

  type Uint64 = x: int | 0 <= x < UINT64_SIZE

  /** Values are left open: strings in the model itself, decoded JSON for the clients that use it. */
  datatype KvInput<V> = KvInput(op: int, key: GoString, value: V, version: Uint64)
  datatype KvOutput<V> = KvOutput(value: V, version: Uint64, err: string)

  /** Invalid is the state "<invalid>" that Step returns for an unknown operation. */
  datatype KvState<V> = KvState(value: V, version: Uint64) | Invalid

  datatype Operation = Operation(clientId: int, input: KvInput<GoString>, call: int,
                                 output: KvOutput<GoString>, ret: int)

  function Init(): KvState<GoString> {
    KvState([], 0)
  }

  function Step<V(==)>(st: KvState<V>, inp: KvInput<V>, out: KvOutput<V>): (bool, KvState<V>) {
    if st.Invalid? then (false, Invalid)
    else if inp.op == 0 then (out.value == st.value, st)
    else if inp.op == 1 then
      if st.version == inp.version then
        (out.err == "OK" || out.err == "ErrMaybe", KvState(inp.value, (st.version + 1) % UINT64_SIZE))
      else
        (out.err == "ErrVersion" || out.err == "ErrMaybe", st)
    else (false, Invalid)
  }

  // ---------- Partition ----------

  /** The operations on one key, in the order of the history. */
  function ForKey(h: seq<Operation>, k: GoString): seq<Operation> {
    if h == [] then []
    else (if h[0].input.key == k then [h[0]] else []) + ForKey(h[1..], k)
  }

  ghost function KeysOf(h: seq<Operation>): set<GoString> {
    set o | o in h :: o.input.key
  }

  /** parts lists the operations key by key, in ascending order of the keys that occur. */
  ghost predicate IsPartition(h: seq<Operation>, keys: seq<GoString>, parts: seq<seq<Operation>>) {
    && Increasing(keys)
    && (forall k :: k in keys <==> k in KeysOf(h))
    && |parts| == |keys|
    && forall i | 0 <= i < |keys| :: parts[i] == ForKey(h, keys[i])
  }

  lemma {:induction false} ForKeyAppend(a: seq<Operation>, b: seq<Operation>, k: GoString)
    ensures ForKey(a + b, k) == ForKey(a, k) + ForKey(b, k)
  {
    if a == [] {
      assert a + b == b;
    } else {
      ForKeyAppend(a[1..], b, k);
      assert (a + b)[1..] == a[1..] + b;
    }
  }

  lemma ForKeySnoc(h: seq<Operation>, o: Operation, k: GoString)
    ensures ForKey(h + [o], k) == ForKey(h, k) + if k == o.input.key then [o] else []
  {
    ForKeyAppend(h, [o], k);
  }

  lemma KeysOfAppend(h: seq<Operation>, o: Operation)
    ensures KeysOf(h + [o]) == KeysOf(h) + {o.input.key}
  {
    assert o in h + [o];
    forall k | k in KeysOf(h)
      ensures k in KeysOf(h + [o])
    {
      var p :| p in h && p.input.key == k;
      assert p in h + [o];
    }
  }

  ghost predicate Grouped(m: map<GoString, seq<Operation>>, h: seq<Operation>) {
    m.Keys == KeysOf(h) && forall k | k in m :: m[k] == ForKey(h, k)
  }

  lemma {:induction false} NoKeyNoOps(h: seq<Operation>, k: GoString)
    requires k !in KeysOf(h)
    ensures ForKey(h, k) == []
  {
    if h != [] {
      assert h[0] in h;
      forall o | o in h[1..]
        ensures o in h
      {
      }
      NoKeyNoOps(h[1..], k);
    }
  }

  lemma GroupOneMore(m: map<GoString, seq<Operation>>, h: seq<Operation>, o: Operation)
    requires Grouped(m, h)
    ensures Grouped(m[o.input.key := (if o.input.key in m then m[o.input.key] else []) + [o]], h + [o])
  {
    var key := o.input.key;
    var m' := m[key := (if key in m then m[key] else []) + [o]];
    KeysOfAppend(h, o);
    if key !in m {
      NoKeyNoOps(h, key);
    }
    forall k | k in m'
      ensures m'[k] == ForKey(h + [o], k)
    {
      ForKeySnoc(h, o, k);
    }
  }

  lemma {:induction false} NoRepeatsSnoc(s: seq<GoString>, x: GoString)
    requires NoRepeats(s) && x !in s
    ensures NoRepeats(s + [x])
  {
    if s != [] {
      NoRepeatsSnoc(s[1..], x);
      assert (s + [x])[1..] == s[1..] + [x];
    }
  }

  method Partition(history: seq<Operation>) returns (ret: seq<seq<Operation>>)
    ensures exists keys :: IsPartition(history, keys, ret)
  {
    var m: map<GoString, seq<Operation>> := map[];
    for i := 0 to |history|
      invariant Grouped(m, history[..i])
    {
      var v := history[i];
      GroupOneMore(m, history[..i], v);
      assert history[..i + 1] == history[..i] + [v];
      m := m[v.input.key := (if v.input.key in m then m[v.input.key] else []) + [v]];
    }
    assert history[..|history|] == history;

    // the keys in whatever order the map yields them
    var keys, todo := [], m.Keys;
    while todo != {}
      invariant todo <= m.Keys && NoRepeats(keys)
      invariant forall k :: k in keys <==> k in m.Keys - todo
    {
      var k :| k in todo;
      NoRepeatsSnoc(keys, k);
      keys, todo := keys + [k], todo - {k};
    }
    SortStringsIncreasing(keys);
    keys := SortStrings(keys);

    ret := [];
    for i := 0 to |keys|
      invariant |ret| == i
      invariant forall j | 0 <= j < i :: ret[j] == ForKey(history, keys[j])
    {
      assert keys[i] in keys;
      ret := ret + [m[keys[i]]];
    }
    assert IsPartition(history, keys, ret);
  }

  /** The order in which the map yields its keys does not show in the result. */
  lemma PartitionUnique(h: seq<Operation>, ks: seq<GoString>, ps: seq<seq<Operation>>,
                        kt: seq<GoString>, pt: seq<seq<Operation>>)
    requires IsPartition(h, ks, ps) && IsPartition(h, kt, pt)
    ensures ps == pt
  {
    IncreasingUnique(ks, kt);
  }
}
