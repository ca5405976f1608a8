/** The Raft tests' own bookkeeping: committed entries as the apply channel delivers them, the checks made on
    the way, and snapshots taken and ingested. */
module RaftHarness {

  const SNAPSHOT_INTERVAL := 10

  /** An interface{} value; commands are compared with ==. */
  datatype Any = Nil | Command(id: int)

  type Logs = map<int, Any>

  /** A decoded snapshot: the last index it includes, and entries 0 up to that index. */
  datatype Snapshot = Snapshot(last: int, xlog: seq<Any>)

  /** An rfsrv. */
  datatype Srv = Srv(logs: Logs, lastApplied: int)

  // ---------- what the checks mean ----------

  ghost predicate Conflict(srvs: seq<Srv>, index: int, v: Any) {
    exists j | 0 <= j < |srvs| :: index in srvs[j].logs && srvs[j].logs[index] != v
  }

  function Record(srvs: seq<Srv>, i: nat, index: int, v: Any): seq<Srv>
    requires i < |srvs|
  {
    srvs[i := srvs[i].(logs := srvs[i].logs[index := v])]
  }

  /** A command the applier of server i takes without an error. */
  ghost predicate Accepts(srvs: seq<Srv>, i: nat, index: int, v: Any) {
    i < |srvs| && !Conflict(srvs, index, v) && (index > 1 ==> index - 1 in srvs[i].logs)
  }

  function Entry(logs: Logs, j: int): Any {
    if j in logs then logs[j] else Nil
  }

  function SnapshotOf(logs: Logs, index: int): Snapshot
    requires index >= -1
  {
    Snapshot(index, seq(index + 1, j => Entry(logs, j)))
  }

  function Restored(s: Snapshot): Srv {
    Srv(map j | 0 <= j < |s.xlog| :: s.xlog[j], s.last)
  }

  // ---------- the harness ----------

  class RaftTest {
    var srvs: seq<Srv>
    var maxIndex: int

    constructor (n: nat)
      ensures srvs == seq(n, _ => Srv(map[], 0)) && maxIndex == 0
    {
      srvs, maxIndex := seq(n, _ => Srv(map[], 0)), 0;
    }

    method CheckLogs(i: nat, index: int, v: Any) returns (mismatch: bool, prevok: bool)
      requires i < |srvs|
      modifies this
      ensures mismatch <==> Conflict(old(srvs), index, v)
      ensures prevok <==> index - 1 in old(srvs)[i].logs
      ensures srvs == Record(old(srvs), i, index, v)
      ensures maxIndex == if index > old(maxIndex) then index else old(maxIndex)
    {
      mismatch := false;
      for j := 0 to |srvs|
        invariant mismatch <==> exists k | 0 <= k < j :: index in srvs[k].logs && srvs[k].logs[index] != v
      {
        if index in srvs[j].logs && srvs[j].logs[index] != v {
          mismatch := true;
        }
      }
      prevok := index - 1 in srvs[i].logs;
      srvs := srvs[i := srvs[i].(logs := srvs[i].logs[index := v])];
      if index > maxIndex {
        maxIndex := index;
      }
    }

    /** applier, on one message with a command; failed is where it ends the test. */
    method Apply(i: nat, index: int, v: Any) returns (failed: bool)
      requires i < |srvs|
      modifies this
      ensures !failed <==> Accepts(old(srvs), i, index, v)
      ensures srvs == Record(old(srvs), i, index, v)
    {
      var mismatch, prevok := CheckLogs(i, index, v);
      failed := mismatch || (index > 1 && !prevok);
    }

    /** applierSnap, on a command; what it hands to raft.Snapshot is returned. */
    method ApplySnap(i: nat, index: int, v: Any) returns (failed: bool, prevMissing: bool, made: seq<Snapshot>)
      requires i < |srvs| && srvs[i].lastApplied >= 0
      modifies this
      ensures !failed <==> index == old(srvs)[i].lastApplied + 1 && Accepts(old(srvs), i, index, v)
      ensures prevMissing <==> index == old(srvs)[i].lastApplied + 1 && index > 1 && index - 1 !in old(srvs)[i].logs
      ensures !failed ==> srvs == Applied(old(srvs), i, index, v) && made == Made(srvs[i].logs, index)
    {
      failed, prevMissing, made := index != srvs[i].lastApplied + 1, false, [];
      if !failed {
        var mismatch, prevok := CheckLogs(i, index, v);
        failed := mismatch;
        if index > 1 && !prevok {
          failed, prevMissing := true, true;
        }
      }
      srvs := srvs[i := srvs[i].(lastApplied := index)];
      if index >= 0 && (index + 1) % SNAPSHOT_INTERVAL == 0 {
        var xlog: seq<Any>, logs := [], srvs[i].logs;
        for j := 0 to index + 1
          invariant xlog == seq(j, k => Entry(logs, k))
        {
          xlog := xlog + [Entry(logs, j)];
        }
        made := [Snapshot(index, xlog)];
      }
    }

    /** ingestSnap; index is -1 when a starting server reads its Persister. */
    method IngestSnap(i: nat, s: Snapshot, index: int) returns (failed: bool)
      requires i < |srvs|
      modifies this
      ensures failed <==> index != -1 && index != s.last
      ensures srvs == if failed then old(srvs) else old(srvs)[i := Restored(s)]
    {
      if index != -1 && index != s.last {
        return true;
      }
      var logs: Logs := map[];
      for j := 0 to |s.xlog|
        invariant logs == map k | 0 <= k < j :: s.xlog[k]
      {
        logs := logs[j := s.xlog[j]];
      }
      srvs := srvs[i := Srv(logs, s.last)];
      return false;
    }

    /** How many servers have the index, and with which value; mismatch is where it ends the test. */
    method NCommitted(index: int) returns (count: nat, cmd: Any, mismatch: bool)
      ensures mismatch <==> !Agreed(srvs, index)
      ensures !mismatch ==> count == |HoldersOf(srvs, index)|
      ensures !mismatch ==> forall j | 0 <= j < |srvs| && index in srvs[j].logs :: srvs[j].logs[index] == cmd
      ensures !mismatch && count == 0 ==> cmd == Nil
    {
      count, cmd, mismatch := 0, Nil, false;
      for i := 0 to |srvs|
        invariant count == Holders(srvs[..i], index)
        invariant forall j | 0 <= j < i && index in srvs[j].logs :: count > 0 && srvs[j].logs[index] == cmd
        invariant count > 0 ==> exists j :: 0 <= j < i && index in srvs[j].logs
        invariant count == 0 ==> cmd == Nil
      {
        assert srvs[..i + 1][..i] == srvs[..i];
        if index in srvs[i].logs {
          var cmd1 := srvs[i].logs[index];
          if count > 0 && cmd != cmd1 {
            mismatch := true;
            return;
          }
          count, cmd := count + 1, cmd1;
        }
      }
      assert srvs[..|srvs|] == srvs;
      HoldersCount(srvs, index);
    }
  }

  /** No two servers hold different values at the index. */
  ghost predicate Agreed(srvs: seq<Srv>, index: int) {
    forall a, b | 0 <= a < |srvs| && 0 <= b < |srvs| && index in srvs[a].logs && index in srvs[b].logs ::
      srvs[a].logs[index] == srvs[b].logs[index]
  }

  function Holders(srvs: seq<Srv>, index: int): nat {
    if srvs == [] then 0 else
      var n := |srvs| - 1;
      Holders(srvs[..n], index) + if index in srvs[n].logs then 1 else 0
  }

  /** A command applied in order by applierSnap. */
  function Applied(srvs: seq<Srv>, i: nat, index: int, v: Any): seq<Srv>
    requires i < |srvs|
  {
    srvs[i := Srv(srvs[i].logs[index := v], index)]
  }

  function Made(logs: Logs, index: int): seq<Snapshot>
    requires index >= 0
  {
    if (index + 1) % SNAPSHOT_INTERVAL == 0 then [SnapshotOf(logs, index)] else []
  }

  /** The positive indices are exactly 1..n. */
  ghost predicate UpTo(logs: Logs, n: int) {
    n >= 0 && forall k :: k > 0 ==> (k in logs <==> k <= n)
  }

  // ---------- runs of applier ----------

  /** A delivery to server i. */
  datatype Delivery = Delivery(i: nat, index: int, v: Any)

  ghost predicate ErrorFree(n: nat, ds: seq<Delivery>)
    decreases ds, 0
  {
    ds != [] ==>
      var init, d := ds[..|ds| - 1], ds[|ds| - 1];
      ErrorFree(n, init) && Accepts(Delivered(n, init), d.i, d.index, d.v)
  }

  /** The servers after the deliveries. */
  ghost function Delivered(n: nat, ds: seq<Delivery>): seq<Srv>
    requires ErrorFree(n, ds)
    decreases ds, 1
  {
    if ds == [] then seq(n, _ => Srv(map[], 0)) else
      var init, d := ds[..|ds| - 1], ds[|ds| - 1];
      Record(Delivered(n, init), d.i, d.index, d.v)
  }

  /** Every log is 1..n for some n, and logs agree wherever both have an entry. */
  ghost predicate Consistent(srvs: seq<Srv>, lens: seq<int>) {
    && |lens| == |srvs|
    && (forall i | 0 <= i < |srvs| :: UpTo(srvs[i].logs, lens[i]))
    && forall k :: Agreed(srvs, k)
  }

  lemma RecordKeepsConsistent(srvs: seq<Srv>, lens: seq<int>, d: Delivery)
    requires Consistent(srvs, lens) && Accepts(srvs, d.i, d.index, d.v)
    ensures Consistent(Record(srvs, d.i, d.index, d.v),
                       lens[d.i := if d.index == lens[d.i] + 1 then d.index else lens[d.i]])
  {
    var next := Record(srvs, d.i, d.index, d.v);
    assert UpTo(srvs[d.i].logs, lens[d.i]);
    forall k
      ensures Agreed(next, k)
    {
      assert Agreed(srvs, k);
    }
  }

  lemma {:induction false} ErrorFreeIsConsistent(n: nat, ds: seq<Delivery>) returns (lens: seq<int>)
    requires ErrorFree(n, ds)
    ensures Consistent(Delivered(n, ds), lens)
    decreases |ds|
  {
    if ds == [] {
      lens := seq(n, _ => 0);
    } else {
      var init, d := ds[..|ds| - 1], ds[|ds| - 1];
      lens := ErrorFreeIsConsistent(n, init);
      RecordKeepsConsistent(Delivered(n, init), lens, d);
      lens := lens[d.i := if d.index == lens[d.i] + 1 then d.index else lens[d.i]];
    }
  }

  /** In a run without errors every server's positive indices are 1..n for some n, of two servers the shorter
      log is a prefix of the longer, and nCommitted finds no two values at any index. */
  lemma ErrorFreeRunsAgree(n: nat, ds: seq<Delivery>, a: nat, b: nat) returns (la: int, lb: int)
    requires ErrorFree(n, ds) && a < |Delivered(n, ds)| && b < |Delivered(n, ds)|
    ensures UpTo(Delivered(n, ds)[a].logs, la) && UpTo(Delivered(n, ds)[b].logs, lb)
    ensures la <= lb ==> forall k | 1 <= k <= la ::
              k in Delivered(n, ds)[a].logs && k in Delivered(n, ds)[b].logs
              && Delivered(n, ds)[a].logs[k] == Delivered(n, ds)[b].logs[k]
    ensures forall k :: Agreed(Delivered(n, ds), k)
  {
    var lens := ErrorFreeIsConsistent(n, ds);
    la, lb := lens[a], lens[b];
    var srvs := Delivered(n, ds);
    assert UpTo(srvs[a].logs, la) && UpTo(srvs[b].logs, lb);
    forall k | 1 <= k <= la && la <= lb
      ensures k in srvs[a].logs && k in srvs[b].logs && srvs[a].logs[k] == srvs[b].logs[k]
    {
      assert Agreed(srvs, k);
    }
  }

  // ---------- runs of applierSnap ----------

  /** Commands, snapshots sent up the channel, and restarts with or without a snapshot in the Persister. */
  datatype SnapEvent =
    | Cmd(i: nat, index: int, v: Any)
    | Install(i: nat, s: Snapshot, index: int)
    | Restart(i: nat, from: seq<Snapshot>)

  datatype SnapWorld = SnapWorld(srvs: seq<Srv>, made: set<Snapshot>)

  /** Handled without an error. Only snapshots that some applierSnap made exist. */
  ghost predicate Handles(w: SnapWorld, e: SnapEvent) {
    match e
    case Cmd(i, index, v) => i < |w.srvs| && index == w.srvs[i].lastApplied + 1 && Accepts(w.srvs, i, index, v)
    case Install(i, s, index) => i < |w.srvs| && s in w.made && (index == -1 || index == s.last)
    case Restart(i, from) => i < |w.srvs| && |from| <= 1 && forall s | s in from :: s in w.made
  }

  ghost function Handle(w: SnapWorld, e: SnapEvent): (v: SnapWorld)
    requires Handles(w, e)
    ensures |v.srvs| == |w.srvs|
  {
    match e
    case Cmd(i, index, v) =>
      var srvs := Applied(w.srvs, i, index, v);
      SnapWorld(srvs, w.made + if index >= 0 then set s | s in Made(srvs[i].logs, index) else {})
    case Install(i, s, _) => w.(srvs := w.srvs[i := Restored(s)])
    case Restart(i, from) => w.(srvs := w.srvs[i := if from == [] then Srv(map[], 0) else Restored(from[0])])
  }

  ghost predicate SnapRun(n: nat, es: seq<SnapEvent>)
    decreases es, 0
  {
    es != [] ==> SnapRun(n, es[..|es| - 1]) && Handles(SnapAfter(n, es[..|es| - 1]), es[|es| - 1])
  }

  ghost function SnapAfter(n: nat, es: seq<SnapEvent>): (w: SnapWorld)
    requires SnapRun(n, es)
    ensures |w.srvs| == n
    decreases es, 1
  {
    if es == [] then SnapWorld(seq(n, _ => Srv(map[], 0)), {}) else Handle(SnapAfter(n, es[..|es| - 1]), es[|es| - 1])
  }

  ghost predicate InOrder(srv: Srv) {
    UpTo(srv.logs, srv.lastApplied)
  }

  ghost predicate Whole(s: Snapshot) {
    s.last >= 0 && |s.xlog| == s.last + 1
  }

  ghost predicate SnapFine(w: SnapWorld) {
    && (forall i | 0 <= i < |w.srvs| :: InOrder(w.srvs[i]))
    && forall s | s in w.made :: Whole(s)
  }

  /** Ingesting a snapshot taken at index i brings back entries 1..i as they were, and nothing else. */
  lemma SnapshotRestoresEntries(logs: Logs, index: int)
    requires index >= 0 && UpTo(logs, index)
    ensures InOrder(Restored(SnapshotOf(logs, index))) && Restored(SnapshotOf(logs, index)).lastApplied == index
    ensures forall k | 1 <= k <= index ::
              k in Restored(SnapshotOf(logs, index)).logs && Restored(SnapshotOf(logs, index)).logs[k] == logs[k]
    ensures forall k :: k in Restored(SnapshotOf(logs, index)).logs <==> 0 <= k <= index
    ensures Restored(SnapshotOf(logs, index)).logs[0] == if 0 in logs then logs[0] else Nil
  {
  }

  lemma HandleKeepsFine(w: SnapWorld, e: SnapEvent)
    requires SnapFine(w) && Handles(w, e)
    ensures SnapFine(Handle(w, e))
  {
    var v := Handle(w, e);
    assert InOrder(w.srvs[e.i]);
    if e.Restart? && e.from != [] {
      assert e.from[0] in e.from;
    }
    forall i | 0 <= i < |v.srvs|
      ensures InOrder(v.srvs[i])
    {
      assert InOrder(w.srvs[i]);
    }
  }

  lemma {:induction false} SnapRunsAreFine(n: nat, es: seq<SnapEvent>)
    requires SnapRun(n, es)
    ensures SnapFine(SnapAfter(n, es))
    decreases |es|
  {
    if es != [] {
      SnapRunsAreFine(n, es[..|es| - 1]);
      HandleKeepsFine(SnapAfter(n, es[..|es| - 1]), es[|es| - 1]);
    }
  }

  /** Through commands, snapshots and restarts a server's positive indices are exactly 1..lastApplied; so the
      next command in order always finds its predecessor. */
  lemma PredecessorIsThere(n: nat, es: seq<SnapEvent>, i: nat)
    requires SnapRun(n, es) && i < |SnapAfter(n, es).srvs|
    ensures InOrder(SnapAfter(n, es).srvs[i])
    ensures var srv := SnapAfter(n, es).srvs[i]; srv.lastApplied + 1 > 1 ==> srv.lastApplied in srv.logs
  {
    SnapRunsAreFine(n, es);
  }

  /** Every snapshot in existence was taken by SnapshotOf from a log that ran 1..last, so it restores that. */
  lemma {:induction false} SnapshotsComeFromLogs(n: nat, es: seq<SnapEvent>, s: Snapshot) returns (logs: Logs)
    requires SnapRun(n, es) && s in SnapAfter(n, es).made
    ensures s.last >= 0 && (s.last + 1) % SNAPSHOT_INTERVAL == 0
    ensures UpTo(logs, s.last) && s == SnapshotOf(logs, s.last)
    ensures InOrder(Restored(s)) && Restored(s).lastApplied == s.last
    ensures forall k | 1 <= k <= s.last :: k in Restored(s).logs && Restored(s).logs[k] == logs[k]
    decreases |es|
  {
    assert es != [];
    var init, e := es[..|es| - 1], es[|es| - 1];
    var w := SnapAfter(n, init);
    if s in w.made {
      logs := SnapshotsComeFromLogs(n, init, s);
    } else {
      SnapRunsAreFine(n, init);
      HandleKeepsFine(w, e);
      assert InOrder(Handle(w, e).srvs[e.i]);
      logs := Handle(w, e).srvs[e.i].logs;
      SnapshotRestoresEntries(logs, e.index);
    }
  }

  // ---------- runs in which Raft keeps its snapshots ----------

  /** What the Persister of server i holds after the event: the last snapshot it made or was sent, if any. */
  ghost function KeptAfter(w: SnapWorld, e: SnapEvent, i: nat, kept: seq<Snapshot>): seq<Snapshot>
    requires Handles(w, e)
  {
    if e.i != i then kept else
      match e
      case Cmd(_, index, v) =>
        if index >= 0 && (index + 1) % SNAPSHOT_INTERVAL == 0
        then Made(w.srvs[i].logs[index := v], index) else kept
      case Install(_, s, _) => [s]
      case Restart(_, _) => kept
  }

  ghost function KeptNext(w: SnapWorld, e: SnapEvent, kept: seq<seq<Snapshot>>): (next: seq<seq<Snapshot>>)
    requires Handles(w, e) && |kept| == |w.srvs|
    ensures |next| == |kept|
  {
    kept[e.i := KeptAfter(w, e, e.i, kept[e.i])]
  }

  ghost function Kept(n: nat, es: seq<SnapEvent>): (kept: seq<seq<Snapshot>>)
    requires SnapRun(n, es)
    ensures |kept| == n
  {
    if es == [] then seq(n, _ => []) else
      var init := es[..|es| - 1];
      KeptNext(SnapAfter(n, init), es[|es| - 1], Kept(n, init))
  }

  /** Restarts find the snapshot kept, and no snapshot is sent up that would take a server back. */
  ghost predicate Durable(n: nat, es: seq<SnapEvent>)
    requires SnapRun(n, es)
  {
    es != [] ==>
      var init, e := es[..|es| - 1], es[|es| - 1];
      Durable(n, init) && StepsForward(SnapAfter(n, init), e, Kept(n, init)[e.i])
  }

  ghost predicate StepsForward(w: SnapWorld, e: SnapEvent, kept: seq<Snapshot>)
    requires Handles(w, e)
  {
    && (e.Install? ==> e.s.last >= w.srvs[e.i].lastApplied)
    && (e.Restart? ==> e.from == kept)
  }

  /** The server's log goes on from the snapshot. */
  ghost predicate Extends(srv: Srv, s: Snapshot) {
    && Whole(s) && s.last <= srv.lastApplied
    && forall k | 1 <= k <= s.last :: k in srv.logs && srv.logs[k] == s.xlog[k]
  }

  /** The server cannot forget the snapshot: what it keeps goes at least as far. */
  ghost predicate Holds(srv: Srv, kept: seq<Snapshot>, s: Snapshot) {
    kept != [] && Extends(srv, kept[0]) && s.last <= kept[0].last && Extends(srv, s)
  }

  ghost predicate KeptFine(w: SnapWorld, i: nat, kept: seq<Snapshot>)
    requires i < |w.srvs|
  {
    kept != [] ==> kept[0] in w.made && Holds(w.srvs[i], kept, kept[0])
  }

  /** Two servers' logs agree on the positive indices both have. */
  ghost predicate Compatible(x: Srv, y: Srv) {
    forall k | k > 0 && k in x.logs && k in y.logs :: x.logs[k] == y.logs[k]
  }

  ghost predicate Held(w: SnapWorld, kept: seq<seq<Snapshot>>, s: Snapshot)
    requires |kept| == |w.srvs|
  {
    exists i: nat | i < |w.srvs| :: Holds(w.srvs[i], kept[i], s)
  }

  /** Logs agree, every server keeps what it is to restart from, every snapshot is held by some server. */
  ghost predicate AgreeFine(w: SnapWorld, kept: seq<seq<Snapshot>>) {
    && |kept| == |w.srvs|
    && (forall a, b | 0 <= a < |w.srvs| && 0 <= b < |w.srvs| :: Compatible(w.srvs[a], w.srvs[b]))
    && (forall i: nat | i < |w.srvs| :: KeptFine(w, i, kept[i]))
    && (forall s | s in w.made :: Held(w, kept, s))
  }

  // a restart

  lemma RestartHolds(srv: Srv, kept: seq<Snapshot>, s: Snapshot)
    requires Holds(srv, kept, s)
    ensures Holds(Restored(kept[0]), kept, s)
  {
  }

  lemma RestartCompatible(srv: Srv, s: Snapshot, other: Srv)
    requires Extends(srv, s) && Compatible(srv, other)
    ensures Compatible(Restored(s), other)
  {
    forall k | k > 0 && k in Restored(s).logs && k in other.logs
      ensures Restored(s).logs[k] == other.logs[k]
    {
      assert k in srv.logs && srv.logs[k] == s.xlog[k];
    }
  }

  // an install

  lemma InstallHolds(srv: Srv, kept: seq<Snapshot>, t: Snapshot, holder: Srv, s: Snapshot)
    requires Holds(srv, kept, t) && Extends(holder, s) && Compatible(srv, holder) && s.last >= srv.lastApplied
    ensures Holds(Restored(s), [s], t)
  {
    forall k | 1 <= k <= t.last
      ensures s.xlog[k] == t.xlog[k]
    {
      assert srv.logs[k] == t.xlog[k] && holder.logs[k] == s.xlog[k];
    }
  }

  lemma SnapshotHoldsItself(s: Snapshot)
    requires Whole(s)
    ensures Holds(Restored(s), [s], s)
  {
  }

  // a command

  lemma CommandHolds(srv: Srv, kept: seq<Snapshot>, index: int, v: Any, s: Snapshot)
    requires InOrder(srv) && index == srv.lastApplied + 1 && Holds(srv, kept, s)
    ensures Holds(Srv(srv.logs[index := v], index), kept, s)
    ensures Holds(Srv(srv.logs[index := v], index), [SnapshotOf(srv.logs[index := v], index)], s)
  {
  }

  lemma MadeIsHeld(srv: Srv, index: int, v: Any)
    requires InOrder(srv) && index == srv.lastApplied + 1
    ensures var logs := srv.logs[index := v];
      Holds(Srv(logs, index), [SnapshotOf(logs, index)], SnapshotOf(logs, index))
  {
  }

  lemma CommandCompatible(srvs: seq<Srv>, i: nat, index: int, v: Any, b: nat)
    requires i < |srvs| && b < |srvs| && !Conflict(srvs, index, v) && Compatible(srvs[i], srvs[b])
    ensures Compatible(Srv(srvs[i].logs[index := v], index), srvs[b])
  {
  }

  // all of them

  lemma MovedCompatible(w: SnapWorld, kept: seq<seq<Snapshot>>, e: SnapEvent, b: nat)
    requires AgreeFine(w, kept) && Handles(w, e) && StepsForward(w, e, kept[e.i]) && b < |w.srvs|
    ensures Compatible(Handle(w, e).srvs[e.i], w.srvs[b])
  {
    hide Compatible, Holds, Conflict;
    assert Compatible(w.srvs[e.i], w.srvs[b]);
    if e.Cmd? {
      CommandCompatible(w.srvs, e.i, e.index, e.v, b);
    } else if e.Install? {
      assert Held(w, kept, e.s);
      var j: nat :| j < |w.srvs| && Holds(w.srvs[j], kept[j], e.s);
      HoldsExtends(w.srvs[j], kept[j], e.s);
      RestartCompatible(w.srvs[j], e.s, w.srvs[b]);
    } else if e.from != [] {
      assert KeptFine(w, e.i, kept[e.i]);
      HoldsExtends(w.srvs[e.i], kept[e.i], e.from[0]);
      RestartCompatible(w.srvs[e.i], e.from[0], w.srvs[b]);
    } else {
      NothingIsCompatible(w.srvs[b]);
    }
  }

  lemma HoldsExtends(srv: Srv, kept: seq<Snapshot>, s: Snapshot)
    requires Holds(srv, kept, s)
    ensures Extends(srv, s) && Whole(s) && kept != []
  {
  }

  lemma NothingIsCompatible(y: Srv)
    ensures Compatible(Srv(map[], 0), y)
  {
  }

  lemma CompatibleSymmetric(x: Srv, y: Srv)
    requires Compatible(x, y)
    ensures Compatible(y, x) && Compatible(x, x)
  {
  }

  /** What the moving server holds, it still holds. */
  lemma StaysHeld(w: SnapWorld, kept: seq<seq<Snapshot>>, e: SnapEvent, s: Snapshot)
    requires |kept| == |w.srvs| && Handles(w, e) && StepsForward(w, e, kept[e.i])
    requires Holds(w.srvs[e.i], kept[e.i], s) && InOrder(w.srvs[e.i]) && AgreeFine(w, kept)
    ensures Holds(Handle(w, e).srvs[e.i], KeptAfter(w, e, e.i, kept[e.i]), s)
  {
    hide Compatible, Extends, InOrder, Conflict, Holds, KeptFine;
    HoldsExtends(w.srvs[e.i], kept[e.i], s);
    if e.Cmd? {
      CommandHolds(w.srvs[e.i], kept[e.i], e.index, e.v, s);
    } else if e.Install? {
      assert Held(w, kept, e.s);
      var j: nat :| j < |w.srvs| && Holds(w.srvs[j], kept[j], e.s);
      HoldsExtends(w.srvs[j], kept[j], e.s);
      InstallHolds(w.srvs[e.i], kept[e.i], s, w.srvs[j], e.s);
    } else {
      RestartHolds(w.srvs[e.i], kept[e.i], s);
    }
  }

  /** What the moving server keeps, it holds, and it has been made. */
  lemma StaysKept(w: SnapWorld, kept: seq<seq<Snapshot>>, e: SnapEvent)
    requires |kept| == |w.srvs| && Handles(w, e) && StepsForward(w, e, kept[e.i])
    requires InOrder(w.srvs[e.i]) && AgreeFine(w, kept)
    ensures KeptFine(Handle(w, e), e.i, KeptAfter(w, e, e.i, kept[e.i]))
  {
    hide Compatible, Holds, InOrder, Conflict;
    var before, next := kept[e.i], KeptAfter(w, e, e.i, kept[e.i]);
    assert KeptFine(w, e.i, before);
    if next == before {
      if before != [] {
        StaysHeld(w, kept, e, before[0]);
      }
    } else if e.Cmd? {
      MadeIsHeld(w.srvs[e.i], e.index, e.v);
    } else {
      assert Held(w, kept, e.s);
      var j: nat :| j < |w.srvs| && Holds(w.srvs[j], kept[j], e.s);
      HoldsExtends(w.srvs[j], kept[j], e.s);
      SnapshotHoldsItself(e.s);
    }
  }

  lemma NewIsHeld(w: SnapWorld, kept: seq<seq<Snapshot>>, e: SnapEvent, s: Snapshot)
    requires |kept| == |w.srvs| && Handles(w, e) && s in Handle(w, e).made && s !in w.made && InOrder(w.srvs[e.i])
    ensures Holds(Handle(w, e).srvs[e.i], KeptNext(w, e, kept)[e.i], s)
  {
    hide Holds, InOrder, Conflict;
    MadeIsHeld(w.srvs[e.i], e.index, e.v);
  }

  lemma OthersStay(w: SnapWorld, e: SnapEvent)
    requires Handles(w, e)
    ensures e.i < |w.srvs| && Handle(w, e).srvs == w.srvs[e.i := Handle(w, e).srvs[e.i]]
    ensures w.made <= Handle(w, e).made
  {
  }

  lemma LogsStayCompatible(w: SnapWorld, kept: seq<seq<Snapshot>>, e: SnapEvent)
    requires AgreeFine(w, kept) && Handles(w, e) && StepsForward(w, e, kept[e.i])
    ensures var srvs := Handle(w, e).srvs;
      forall a, b | 0 <= a < |srvs| && 0 <= b < |srvs| :: Compatible(srvs[a], srvs[b])
  {
    hide Compatible, Handle, Handles, KeptFine, Held;
    OthersStay(w, e);
    forall b: nat | b < |w.srvs|
      ensures Compatible(Handle(w, e).srvs[e.i], w.srvs[b]) && Compatible(w.srvs[b], Handle(w, e).srvs[e.i])
      ensures Compatible(Handle(w, e).srvs[e.i], Handle(w, e).srvs[e.i])
    {
      MovedCompatible(w, kept, e, b);
      CompatibleSymmetric(Handle(w, e).srvs[e.i], w.srvs[b]);
    }
  }

  lemma SnapshotsStayHeld(w: SnapWorld, kept: seq<seq<Snapshot>>, e: SnapEvent, s: Snapshot)
    requires |kept| == |w.srvs| && Handles(w, e) && s in Handle(w, e).made
    requires StepsForward(w, e, kept[e.i]) && InOrder(w.srvs[e.i]) && AgreeFine(w, kept)
    ensures Held(Handle(w, e), KeptNext(w, e, kept), s)
  {
    hide Compatible, Handle, Handles, KeptFine, Holds, KeptAfter, InOrder, StepsForward;
    var v, next := Handle(w, e), KeptNext(w, e, kept);
    OthersStay(w, e);
    var i: nat := e.i;
    if s in w.made {
      assert Held(w, kept, s);
      i :| i < |w.srvs| && Holds(w.srvs[i], kept[i], s);
      if i == e.i {
        StaysHeld(w, kept, e, s);
      }
    } else {
      NewIsHeld(w, kept, e, s);
    }
    assert Holds(v.srvs[i], next[i], s);
  }

  lemma HandleKeepsAgreement(w: SnapWorld, kept: seq<seq<Snapshot>>, e: SnapEvent)
    requires AgreeFine(w, kept) && SnapFine(w) && Handles(w, e) && StepsForward(w, e, kept[e.i])
    ensures AgreeFine(Handle(w, e), KeptNext(w, e, kept))
  {
    hide Compatible, Handle, Handles, Holds, KeptAfter, InOrder, StepsForward, Held;
    var v, next := Handle(w, e), KeptNext(w, e, kept);
    OthersStay(w, e);
    LogsStayCompatible(w, kept, e);
    assert InOrder(w.srvs[e.i]);
    forall i: nat | i < |v.srvs|
      ensures KeptFine(v, i, next[i])
    {
      assert KeptFine(w, i, kept[i]);
      if i == e.i {
        StaysKept(w, kept, e);
      }
    }
    forall s | s in v.made
      ensures Held(v, next, s)
    {
      SnapshotsStayHeld(w, kept, e, s);
    }
  }

  lemma {:induction false} DurableIsFine(n: nat, es: seq<SnapEvent>)
    requires SnapRun(n, es) && Durable(n, es)
    ensures AgreeFine(SnapAfter(n, es), Kept(n, es))
    decreases |es|
  {
    if es != [] {
      hide Handle, Handles, AgreeFine, StepsForward, KeptNext;
      var init, e := es[..|es| - 1], es[|es| - 1];
      DurableIsFine(n, init);
      SnapRunsAreFine(n, init);
      HandleKeepsAgreement(SnapAfter(n, init), Kept(n, init), e);
    }
  }

  /** In an error-free run in which Raft keeps its snapshots, any two logs agree on every positive index both
      have, and every log agrees with every snapshot ever made. */
  lemma SnapshotsAgree(n: nat, es: seq<SnapEvent>, a: nat, b: nat, s: Snapshot)
    requires SnapRun(n, es) && Durable(n, es)
    requires a < |SnapAfter(n, es).srvs| && b < |SnapAfter(n, es).srvs|
    ensures Compatible(SnapAfter(n, es).srvs[a], SnapAfter(n, es).srvs[b])
    ensures s in SnapAfter(n, es).made ==> Compatible(Restored(s), SnapAfter(n, es).srvs[a])
  {
    hide Compatible, Holds, KeptFine, SnapAfter, SnapRun, Kept, Durable;
    DurableIsFine(n, es);
    var w, kept := SnapAfter(n, es), Kept(n, es);
    if s in w.made {
      assert Held(w, kept, s);
      var j: nat :| j < |w.srvs| && Holds(w.srvs[j], kept[j], s);
      HoldsExtends(w.srvs[j], kept[j], s);
      RestartCompatible(w.srvs[j], s, w.srvs[a]);
    }
  }

  /** So nCommitted never finds two values at a positive index, through snapshots and restarts either. */
  lemma NothingMismatches(n: nat, es: seq<SnapEvent>, k: int)
    requires SnapRun(n, es) && Durable(n, es) && k > 0
    ensures Agreed(SnapAfter(n, es).srvs, k)
  {
    hide SnapAfter, SnapRun, Durable;
    var w := SnapAfter(n, es);
    forall a: nat, b: nat | a < |w.srvs| && b < |w.srvs|
      ensures Compatible(w.srvs[a], w.srvs[b])
    {
      SnapshotsAgree(n, es, a, b, Snapshot(0, []));
    }
  }

  // ---------- what the checks let through ----------

  ghost function HoldersOf(srvs: seq<Srv>, index: int): set<int> {
    set j | 0 <= j < |srvs| && index in srvs[j].logs
  }

  /** nCommitted counts servers. */
  lemma {:induction false} HoldersCount(srvs: seq<Srv>, index: int)
    ensures Holders(srvs, index) == |HoldersOf(srvs, index)|
  {
    if srvs == [] {
      assert HoldersOf(srvs, index) == {};
    } else {
      var n := |srvs| - 1;
      HoldersCount(srvs[..n], index);
      var last := if index in srvs[n].logs then {n} else {};
      assert HoldersOf(srvs, index) == HoldersOf(srvs[..n], index) + last;
    }
  }

  /** How many deliveries there are to server i. */
  function CountFor(ds: seq<Delivery>, i: nat): nat {
    if ds == [] then 0 else CountFor(ds[..|ds| - 1], i) + if ds[|ds| - 1].i == i then 1 else 0
  }

  /** Every server is delivered the commands in order from the first. */
  predicate InOrderFrom(n: nat, cmds: seq<Any>, ds: seq<Delivery>) {
    ds != [] ==>
      var init, d := ds[..|ds| - 1], ds[|ds| - 1];
      && InOrderFrom(n, cmds, init)
      && d.i < n && d.index == CountFor(init, d.i) + 1 && d.index <= |cmds| && d.v == cmds[d.index - 1]
  }

  /** The log is the first m commands. */
  ghost predicate IsPrefix(logs: Logs, cmds: seq<Any>, m: int) {
    m <= |cmds| && forall k :: (k in logs <==> 1 <= k <= m) && (k in logs ==> logs[k] == cmds[k - 1])
  }

  /** applier lets every run through in which the servers are delivered one list of commands, each at its own
      pace, and the logs are what was delivered. */
  lemma {:induction false} InOrderRunsPass(n: nat, cmds: seq<Any>, ds: seq<Delivery>)
    requires InOrderFrom(n, cmds, ds)
    ensures ErrorFree(n, ds) && |Delivered(n, ds)| == n
    ensures forall i: nat | i < n :: IsPrefix(Delivered(n, ds)[i].logs, cmds, CountFor(ds, i))
    decreases |ds|
  {
    if ds != [] {
      var init, d := ds[..|ds| - 1], ds[|ds| - 1];
      InOrderRunsPass(n, cmds, init);
      var srvs := Delivered(n, init);
      assert IsPrefix(srvs[d.i].logs, cmds, CountFor(init, d.i));
      TakesNext(srvs, n, cmds, init, d);
    }
  }

  lemma TakesNext(srvs: seq<Srv>, n: nat, cmds: seq<Any>, init: seq<Delivery>, d: Delivery)
    requires |srvs| == n && d.i < n && d.index == CountFor(init, d.i) + 1 <= |cmds| && d.v == cmds[d.index - 1]
    requires forall i: nat | i < n :: IsPrefix(srvs[i].logs, cmds, CountFor(init, i))
    ensures Accepts(srvs, d.i, d.index, d.v)
    ensures IsPrefix(srvs[d.i].logs[d.index := d.v], cmds, d.index)
  {
    forall j: nat | j < n && d.index in srvs[j].logs
      ensures srvs[j].logs[d.index] == d.v
    {
      assert IsPrefix(srvs[j].logs, cmds, CountFor(init, j));
    }
    assert IsPrefix(srvs[d.i].logs, cmds, CountFor(init, d.i));
  }

  /** applierSnap: a server behind another can always be delivered what the other holds next. */
  lemma CatchesUp(n: nat, es: seq<SnapEvent>, a: nat, b: nat)
    requires SnapRun(n, es) && Durable(n, es) && a < n && b < n
    requires SnapAfter(n, es).srvs[b].lastApplied < SnapAfter(n, es).srvs[a].lastApplied
    ensures var srvs := SnapAfter(n, es).srvs;
      var next := srvs[b].lastApplied + 1;
      next in srvs[a].logs && Handles(SnapAfter(n, es), Cmd(b, next, srvs[a].logs[next]))
  {
    var w := SnapAfter(n, es);
    SnapRunsAreFine(n, es);
    assert InOrder(w.srvs[a]) && InOrder(w.srvs[b]);
    var next := w.srvs[b].lastApplied + 1;
    NothingMismatches(n, es, next);
  }

  /** Every tenth command leaves a snapshot that restores the log as it is then. */
  lemma TenthIsKept(n: nat, es: seq<SnapEvent>, i: nat, index: int, v: Any) returns (s: Snapshot)
    requires SnapRun(n, es) && Handles(SnapAfter(n, es), Cmd(i, index, v)) && index % 10 == 9
    ensures s in Handle(SnapAfter(n, es), Cmd(i, index, v)).made && s.last == index
    ensures var now := Handle(SnapAfter(n, es), Cmd(i, index, v)).srvs[i];
      forall k | 1 <= k <= index ::
        k in now.logs && k in Restored(s).logs && Restored(s).logs[k] == now.logs[k]
  {
    var w := SnapAfter(n, es);
    SnapRunsAreFine(n, es);
    assert InOrder(w.srvs[i]);
    var now := Handle(w, Cmd(i, index, v)).srvs[i];
    s := SnapshotOf(now.logs, index);
    assert s in Made(now.logs, index);
    SnapshotRestoresEntries(now.logs, index);
  }
}
