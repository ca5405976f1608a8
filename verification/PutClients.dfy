/** Any number of OneClientPut loops on one key, the puts' own check and the checker of their tally. */
module PutClients {
  import opened KvModel
  import opened KvTest

  /** What the key holds: nothing yet, or the JSON of EntryV{Id, V}. */
  datatype Value = Nothing | EntryV(id: int, v: Uint64)

  /** Top: at the select; Putting: about to Put; Getting: Put returned err, about to Get. */
  datatype Pc = Top | Putting | Getting(err: string) | Stopped

  datatype Client = Client(pc: Pc, ver: Uint64, nok: nat, nmaybe: nat)

  datatype World = World(reg: KvState<Value>, clients: seq<Client>)

  /** Clients that have not begun, on a key earlier clients have left with the tally prior. */
  ghost predicate Initial(w: World, prior: ClntRes) {
    && w.reg.KvState?
    && prior.nok <= w.reg.version <= prior.nok + prior.nmaybe
    && (w.reg.version > 0 ==> w.reg.value.EntryV?)
    && forall c | 0 <= c < |w.clients| :: w.clients[c] == Client(Top, 0, 0, 0)
  }

  ghost predicate StartStep(w: World, c: nat, next: World)
    requires c < |w.clients|
  {
    var cl := w.clients[c];
    cl.pc.Top? && (next == w.(clients := w.clients[c := cl.(pc := Stopped)])
                || next == w.(clients := w.clients[c := cl.(pc := Putting)]))
  }

  ghost predicate PutStep(w: World, c: nat, err: string, next: World)
    requires c < |w.clients|
  {
    var cl := w.clients[c];
    cl.pc.Putting? &&
    var (ok, reg) := Step(w.reg, KvInput(1, KEY, EntryV(c, cl.ver), cl.ver), KvOutput(Nothing, 0, err));
    ok && next == World(reg, w.clients[c := cl.(pc := Getting(err))])
  }

  function AfterGet(cl: Client, err: string, ver0: Uint64): Client {
    if err == "OK" then Client(Top, ver0, cl.nok + 1, cl.nmaybe)
    else if err == "ErrMaybe" then Client(Top, ver0, cl.nok, cl.nmaybe + 1)
    else cl.(pc := Putting, ver := ver0)
  }

  ghost predicate GetStep(w: World, c: nat, next: World)
    requires c < |w.clients|
  {
    var cl := w.clients[c];
    && cl.pc.Getting? && w.reg.KvState?
    && next == w.(clients := w.clients[c := AfterGet(cl, cl.pc.err, w.reg.version)])
  }

  ghost predicate ClientStep(w: World, c: nat, next: World)
    requires c < |w.clients|
  {
    StartStep(w, c, next) || GetStep(w, c, next) || exists err :: PutStep(w, c, err, next)
  }

  ghost predicate Next(w: World, next: World) {
    exists c: nat | c < |w.clients| :: ClientStep(w, c, next)
  }

  ghost predicate IsRun(ws: seq<World>, prior: ClntRes) {
    && ws != []
    && Initial(ws[0], prior)
    && forall i | 0 <= i < |ws| - 1 :: Next(ws[i], ws[i + 1])
  }

  // ---------- tallies ----------

  /** Puts that returned OK so far, counted or about to be. */
  function Oks(cl: Client): nat {
    cl.nok + if cl.pc == Getting("OK") then 1 else 0
  }

  function Maybes(cl: Client): nat {
    cl.nmaybe + if cl.pc == Getting("ErrMaybe") then 1 else 0
  }

  function Total(clients: seq<Client>): ClntRes {
    if clients == [] then ClntRes(0, 0) else
      var t := Total(clients[..|clients| - 1]);
      var cl := clients[|clients| - 1];
      ClntRes(t.nok + Oks(cl), t.nmaybe + Maybes(cl))
  }

  lemma {:induction false} TotalUpdate(clients: seq<Client>, c: nat, cl: Client)
    requires c < |clients|
    ensures Total(clients[c := cl]).nok == Total(clients).nok - Oks(clients[c]) + Oks(cl)
    ensures Total(clients[c := cl]).nmaybe == Total(clients).nmaybe - Maybes(clients[c]) + Maybes(cl)
    decreases |clients|
  {
    var n := |clients| - 1;
    if c < n {
      TotalUpdate(clients[..n], c, cl);
      assert clients[c := cl][..n] == clients[..n][c := cl];
    } else {
      assert clients[c := cl][..n] == clients[..n];
    }
  }

  // ---------- the invariant ----------

  ghost predicate ClientFine(reg: KvState<Value>, c: nat, cl: Client)
    requires reg.KvState?
  {
    && cl.ver <= reg.version
    && (cl.pc.Getting? ==>
          && cl.pc.err in {"OK", "ErrMaybe", "ErrVersion"}
          && reg.version > 0
          && (cl.pc.err == "OK" ==>
                && reg.version > cl.ver
                && (reg.version == cl.ver + 1 ==> reg.value == EntryV(c, cl.ver))))
  }

  ghost predicate Fine(w: World, prior: ClntRes) {
    && w.reg.KvState?
    && (w.reg.version > 0 ==> w.reg.value.EntryV?)
    && (forall c | 0 <= c < |w.clients| :: ClientFine(w.reg, c, w.clients[c]))
    && var t := Total(w.clients);
       prior.nok + t.nok <= w.reg.version <= prior.nok + prior.nmaybe + t.nok + t.nmaybe
  }

  /** Puts that returned OK or ErrMaybe. */
  function Finished(w: World): nat {
    Total(w.clients).nok + Total(w.clients).nmaybe
  }

  lemma PutKeepsFine(w: World, prior: ClntRes, c: nat, err: string, next: World)
    requires Fine(w, prior) && c < |w.clients| && PutStep(w, c, err, next) && w.reg.version < UINT64_SIZE - 1
    ensures Fine(next, prior) && next.reg.version <= w.reg.version + 1
    ensures Finished(next) <= Finished(w) + 1
  {
    TotalUpdate(w.clients, c, w.clients[c].(pc := Getting(err)));
    forall d | 0 <= d < |next.clients|
      ensures ClientFine(next.reg, d, next.clients[d])
    {
      assert ClientFine(w.reg, d, w.clients[d]);
    }
  }

  lemma LocalKeepsFine(w: World, prior: ClntRes, c: nat, next: World)
    requires Fine(w, prior) && c < |w.clients| && (StartStep(w, c, next) || GetStep(w, c, next))
    ensures Fine(next, prior) && next.reg == w.reg
    ensures Finished(next) <= Finished(w) + 1
  {
    assert ClientFine(w.reg, c, w.clients[c]);
    TotalUpdate(w.clients, c, next.clients[c]);
  }

  lemma StepKeepsFine(w: World, prior: ClntRes, next: World)
    requires Fine(w, prior) && Next(w, next) && w.reg.version < UINT64_SIZE - 1
    ensures Fine(next, prior) && next.reg.version <= w.reg.version + 1
    ensures Finished(next) <= Finished(w) + 1
  {
    hide StartStep, GetStep, PutStep;
    var c: nat :| c < |w.clients| && ClientStep(w, c, next);
    if StartStep(w, c, next) || GetStep(w, c, next) {
      LocalKeepsFine(w, prior, c, next);
    } else {
      var err :| PutStep(w, c, err, next);
      PutKeepsFine(w, prior, c, err, next);
    }
  }

  lemma {:induction false} InitialTotal(clients: seq<Client>)
    requires forall c | 0 <= c < |clients| :: clients[c] == Client(Top, 0, 0, 0)
    ensures Total(clients) == ClntRes(0, 0)
  {
    if clients != [] {
      InitialTotal(clients[..|clients| - 1]);
    }
  }

  /** A run short enough for the version not to wrap around. */
  ghost predicate NoWrap(ws: seq<World>, prior: ClntRes) {
    prior.nok + prior.nmaybe + |ws| < UINT64_SIZE
  }

  lemma {:induction false} RunsAreFine(ws: seq<World>, prior: ClntRes)
    requires IsRun(ws, prior) && NoWrap(ws, prior)
    ensures Fine(ws[|ws| - 1], prior)
    ensures ws[|ws| - 1].reg.version <= prior.nok + prior.nmaybe + |ws| - 1
    ensures Finished(ws[|ws| - 1]) <= |ws| - 1
    decreases |ws|
  {
    var n := |ws| - 1;
    if n == 0 {
      InitialTotal(ws[0].clients);
    } else {
      assert forall i | 0 <= i < n - 1 :: Next(ws[..n][i], ws[..n][i + 1]);
      RunsAreFine(ws[..n], prior);
      assert Next(ws[n - 1], ws[n]);
      StepKeepsFine(ws[n - 1], prior, ws[n]);
    }
  }

  // ---------- OnePut's own check ----------

  /** Where OnePut calls Fatalf: the value cannot be decoded, the error is none of the three, or its own
      successful put is still the last one and the value is not what it put. */
  ghost predicate OnePutFails(w: World, c: nat)
    requires c < |w.clients|
  {
    var cl := w.clients[c];
    cl.pc.Getting? &&
    (  !w.reg.KvState? || !w.reg.value.EntryV?
    || !(cl.pc.err == "OK" || cl.pc.err == "ErrVersion" || cl.pc.err == "ErrMaybe")
    || (cl.pc.err == "OK" && w.reg.version == (cl.ver + 1) % UINT64_SIZE
        && w.reg.value.id != c && w.reg.value.v != cl.ver))
  }

  /** The check could be stricter: a successful put that is still the last one left exactly its own value. */
  lemma OnePutNeverFails(ws: seq<World>, prior: ClntRes, c: nat)
    requires IsRun(ws, prior) && NoWrap(ws, prior) && c < |ws[|ws| - 1].clients|
    ensures !OnePutFails(ws[|ws| - 1], c)
    ensures var w, cl := ws[|ws| - 1], ws[|ws| - 1].clients[c];
      cl.pc == Getting("OK") && w.reg.KvState? && w.reg.version == (cl.ver + 1) % UINT64_SIZE ==>
        w.reg.value == EntryV(c, cl.ver)
  {
    RunsAreFine(ws, prior);
    var w := ws[|ws| - 1];
    assert ClientFine(w.reg, c, w.clients[c]);
  }

  // ---------- CheckPutConcurrent ----------

  function Sum(rs: seq<ClntRes>): ClntRes {
    if rs == [] then ClntRes(0, 0) else
      var t, r := Sum(rs[..|rs| - 1]), rs[|rs| - 1];
      ClntRes(t.nok + r.nok, t.nmaybe + r.nmaybe)
  }

  /** rpc.Tversion(n) for a non-negative int. */
  function Tversion(n: nat): Uint64 {
    n % UINT64_SIZE
  }

  ghost predicate PutsPass(ver0: Uint64, res: ClntRes, reliable: bool) {
    if reliable then ver0 == Tversion(res.nok) else ver0 <= Tversion(res.nok + res.nmaybe)
  }

  method CheckPutConcurrent(ver0: Uint64, rs: seq<ClntRes>, prior: ClntRes, reliable: bool)
    returns (res: ClntRes, passed: bool)
    ensures res == ClntRes(prior.nok + Sum(rs).nok, prior.nmaybe + Sum(rs).nmaybe)
    ensures passed <==> PutsPass(ver0, res, reliable)
  {
    res := prior;
    for i := 0 to |rs|
      invariant res == ClntRes(prior.nok + Sum(rs[..i]).nok, prior.nmaybe + Sum(rs[..i]).nmaybe)
    {
      assert rs[..i + 1][..i] == rs[..i];
      res := ClntRes(res.nok + rs[i].nok, res.nmaybe + rs[i].nmaybe);
    }
    assert rs[..|rs|] == rs;
    if reliable {
      passed := ver0 == Tversion(res.nok);
    } else {
      passed := !(ver0 > Tversion(res.nok + res.nmaybe));
    }
  }

  ghost predicate AllStopped(w: World) {
    forall c | 0 <= c < |w.clients| :: w.clients[c].pc == Stopped
  }

  function Results(clients: seq<Client>): seq<ClntRes> {
    seq(|clients|, c requires 0 <= c < |clients| => ClntRes(clients[c].nok, clients[c].nmaybe))
  }

  lemma {:induction false} TotalOfStopped(clients: seq<Client>)
    requires forall c | 0 <= c < |clients| :: clients[c].pc == Stopped
    ensures Sum(Results(clients)) == Total(clients)
  {
    if clients != [] {
      var n := |clients| - 1;
      TotalOfStopped(clients[..n]);
      assert Results(clients)[..n] == Results(clients[..n]);
    }
  }

  /** When all clients are done the version lies between the puts that returned OK and those plus the
      undecided ones, so the check passes; without undecided puts it passes in its reliable form too. */
  lemma PutRunsPass(ws: seq<World>, prior: ClntRes)
    requires IsRun(ws, prior) && NoWrap(ws, prior) && AllStopped(ws[|ws| - 1])
    ensures var w, rs := ws[|ws| - 1], Sum(Results(ws[|ws| - 1].clients));
      var res := ClntRes(prior.nok + rs.nok, prior.nmaybe + rs.nmaybe);
      && w.reg.KvState?
      && res.nok <= w.reg.version <= res.nok + res.nmaybe
      && PutsPass(w.reg.version, res, false)
      && (res.nmaybe == 0 ==> PutsPass(w.reg.version, res, true))
  {
    RunsAreFine(ws, prior);
    TotalOfStopped(ws[|ws| - 1].clients);
  }

  // ---------- tallies are of answers ----------

  /** In the k-th step of the run a put of client c is answered err. */
  ghost predicate AnsweredAt(ws: seq<World>, k: nat, c: nat, err: string) {
    && k + 1 < |ws| && c < |ws[k].clients| && c < |ws[k + 1].clients|
    && ws[k].clients[c].pc == Putting && ws[k + 1].clients[c].pc == Getting(err)
  }

  /** In the k-th step of the run client c gets. */
  ghost predicate GetsAt(ws: seq<World>, k: nat, c: nat) {
    && k + 1 < |ws| && c < |ws[k].clients| && c < |ws[k + 1].clients|
    && ws[k].clients[c].pc.Getting? && !ws[k + 1].clients[c].pc.Getting?
  }

  /** How many puts of client c are answered err. */
  ghost function Answers(ws: seq<World>, c: nat, err: string): nat {
    if |ws| <= 1 then 0 else
      Answers(ws[..|ws| - 1], c, err) + if AnsweredAt(ws, |ws| - 2, c, err) then 1 else 0
  }

  /** The version that the last get of client c found; 0 before its first. */
  ghost function LastSeen(ws: seq<World>, c: nat): Uint64 {
    if |ws| <= 1 then 0
    else if GetsAt(ws, |ws| - 2, c) && ws[|ws| - 2].reg.KvState? then ws[|ws| - 2].reg.version
    else LastSeen(ws[..|ws| - 1], c)
  }

  /** How the last put of client c was answered; empty before its first. */
  ghost function LastAnswer(ws: seq<World>, c: nat): string {
    if |ws| <= 1 then "" else
      var w, next := ws[|ws| - 2], ws[|ws| - 1];
      if c < |w.clients| && c < |next.clients| && w.clients[c].pc.Putting? && next.clients[c].pc.Getting?
      then next.clients[c].pc.err else LastAnswer(ws[..|ws| - 1], c)
  }

  lemma OneClientMoves(w: World, next: World, c: nat)
    requires Next(w, next) && c < |w.clients|
    ensures |next.clients| == |w.clients|
    ensures next.clients[c] == w.clients[c] || ClientStep(w, c, next)
  {
    var d: nat :| d < |w.clients| && ClientStep(w, d, next);
  }

  /** What a step of client c does to its own record. */
  lemma OwnStep(w: World, next: World, c: nat)
    requires Next(w, next) && c < |w.clients| && c < |next.clients|
    ensures var cl, now := w.clients[c], next.clients[c];
      && Oks(now) == Oks(cl) + (if cl.pc.Putting? && now.pc == Getting("OK") then 1 else 0)
      && Maybes(now) == Maybes(cl) + (if cl.pc.Putting? && now.pc == Getting("ErrMaybe") then 1 else 0)
      && (cl.pc.Getting? && !now.pc.Getting? ==>
            w.reg.KvState? && now.ver == w.reg.version
            && now.pc == if cl.pc.err == "OK" || cl.pc.err == "ErrMaybe" then Top else Putting)
      && (!(cl.pc.Getting? && !now.pc.Getting?) ==> now.ver == cl.ver)
      && (cl.pc.Stopped? ==> now == cl)
      && (now.pc.Stopped? ==> cl.pc.Stopped? || cl.pc.Top?)
      && (now.pc.Top? ==> cl.pc.Top? || cl.pc.Getting?)
      && (now.pc.Getting? ==> now.pc == cl.pc || cl.pc.Putting?)
  {
    OneClientMoves(w, next, c);
  }

  lemma {:induction false} RunKeepsClients(ws: seq<World>, prior: ClntRes, k: nat)
    requires IsRun(ws, prior) && k < |ws|
    ensures |ws[k].clients| == |ws[0].clients|
  {
    if k > 0 {
      RunKeepsClients(ws, prior, k - 1);
      assert Next(ws[k - 1], ws[k]);
    }
  }

  /** The run without its last step. */
  lemma Shorter(ws: seq<World>, prior: ClntRes)
    requires IsRun(ws, prior) && |ws| > 1
    ensures IsRun(ws[..|ws| - 1], prior) && Next(ws[|ws| - 2], ws[|ws| - 1])
  {
    var n := |ws| - 1;
    forall i | 0 <= i < n - 1
      ensures Next(ws[..n][i], ws[..n][i + 1])
    {
      assert Next(ws[i], ws[i + 1]);
    }
  }

  /** Each client counts its answers, keeps the version it saw last, and goes on to a new put or stops only
      after a put was answered OK or ErrMaybe. */
  lemma {:induction false} TalliesAreExact(ws: seq<World>, prior: ClntRes, c: nat)
    requires IsRun(ws, prior) && c < |ws[|ws| - 1].clients|
    ensures var cl := ws[|ws| - 1].clients[c];
      && Oks(cl) == Answers(ws, c, "OK") && Maybes(cl) == Answers(ws, c, "ErrMaybe")
      && cl.ver == LastSeen(ws, c)
      && (cl.pc.Getting? ==> cl.pc.err == LastAnswer(ws, c))
      && (cl.pc.Top? || cl.pc.Stopped? ==> LastAnswer(ws, c) in {"", "OK", "ErrMaybe"})
    decreases |ws|
  {
    var n := |ws| - 1;
    if n > 0 {
      Shorter(ws, prior);
      RunKeepsClients(ws, prior, n);
      RunKeepsClients(ws, prior, n - 1);
      TalliesAreExact(ws[..n], prior, c);
      OwnStep(ws[n - 1], ws[n], c);
    }
  }

  /** Answers to the first m clients. */
  ghost function AllAnswers(ws: seq<World>, m: nat, err: string): nat {
    if m == 0 then 0 else AllAnswers(ws, m - 1, err) + Answers(ws, m - 1, err)
  }

  lemma {:induction false} TotalIsAnswers(ws: seq<World>, prior: ClntRes, m: nat)
    requires IsRun(ws, prior) && m <= |ws[|ws| - 1].clients|
    ensures Total(ws[|ws| - 1].clients[..m]) == ClntRes(AllAnswers(ws, m, "OK"), AllAnswers(ws, m, "ErrMaybe"))
  {
    if m > 0 {
      TotalIsAnswers(ws, prior, m - 1);
      TalliesAreExact(ws, prior, m - 1);
      assert ws[|ws| - 1].clients[..m][..m - 1] == ws[|ws| - 1].clients[..m - 1];
    }
  }

  /** The tally handed to the checker is that of the answers; where no put is answered ErrMaybe the version is
      exactly the number of puts answered OK, and the check passes in its reliable form. */
  lemma ReliableRunsPass(ws: seq<World>, prior: ClntRes)
    requires IsRun(ws, prior) && NoWrap(ws, prior) && AllStopped(ws[|ws| - 1])
    ensures var w, m := ws[|ws| - 1], |ws[|ws| - 1].clients|;
      var ok, maybe := AllAnswers(ws, m, "OK"), AllAnswers(ws, m, "ErrMaybe");
      && Sum(Results(w.clients)) == ClntRes(ok, maybe)
      && w.reg.KvState?
      && (prior.nmaybe + maybe == 0 ==>
            w.reg.version == prior.nok + ok && PutsPass(w.reg.version, ClntRes(prior.nok + ok, 0), true))
  {
    hide Initial, NoWrap, Total, Answers, AllAnswers;
    var w := ws[|ws| - 1];
    PutRunsPass(ws, prior);
    TotalOfStopped(w.clients);
    TotalIsAnswers(ws, prior, |w.clients|);
    assert w.clients[..|w.clients|] == w.clients;
  }

  /** A put and the get after it, with nobody in between. */
  lemma OneTry(w: World, c: nat) returns (asked: World, done: World)
    requires w.reg.KvState? && c < |w.clients| && w.clients[c].pc.Putting?
    ensures Next(w, asked) && Next(asked, done)
    ensures var cl := w.clients[c];
      if cl.ver == w.reg.version then
        var version := (w.reg.version + 1) % UINT64_SIZE;
        && done.reg == KvState(EntryV(c, cl.ver), version)
        && done.clients == w.clients[c := Client(Top, version, cl.nok + 1, cl.nmaybe)]
      else
        done.reg == w.reg && done.clients == w.clients[c := cl.(ver := w.reg.version)]
  {
    var cl := w.clients[c];
    var err := if cl.ver == w.reg.version then "OK" else "ErrVersion";
    var reg := Step(w.reg, KvInput(1, KEY, EntryV(c, cl.ver), cl.ver), KvOutput(Nothing, 0, err)).1;
    asked := World(reg, w.clients[c := cl.(pc := Getting(err))]);
    done := asked.(clients := asked.clients[c := AfterGet(asked.clients[c], err, reg.version)]);
    assert PutStep(w, c, err, asked) && GetStep(asked, c, done);
    assert ClientStep(w, c, asked) && ClientStep(asked, c, done);
  }

  ghost predicate Follows(ws: seq<World>) {
    forall i | 0 <= i < |ws| - 1 :: Next(ws[i], ws[i + 1])
  }

  lemma FollowsOn(ws: seq<World>, w: World)
    requires ws != [] && Follows(ws) && Next(ws[|ws| - 1], w)
    ensures Follows(ws + [w])
  {
    hide Next;
    var more := ws + [w];
    forall i | 0 <= i < |more| - 1
      ensures Next(more[i], more[i + 1])
    {
      assert i < |ws| - 1 ==> Next(ws[i], ws[i + 1]);
    }
  }

  lemma UpdateTwice(clients: seq<Client>, c: nat, x: Client, y: Client)
    requires c < |clients|
    ensures clients[c := x][c := y] == clients[c := y]
  {
  }

  lemma Begins(w: World, c: nat) returns (begun: World)
    requires c < |w.clients| && w.clients[c].pc.Top?
    ensures Next(w, begun) && begun == w.(clients := w.clients[c := w.clients[c].(pc := Putting)])
  {
    begun := w.(clients := w.clients[c := w.clients[c].(pc := Putting)]);
    assert StartStep(w, c, begun);
    assert ClientStep(w, c, begun);
  }

  /** A client left to itself puts in at most two tries, from any state. */
  lemma PutsAlone(w: World, c: nat) returns (ws: seq<World>)
    requires w.reg.KvState? && c < |w.clients| && w.clients[c].pc.Top?
    ensures 4 <= |ws| <= 6 && ws[0] == w && Follows(ws)
    ensures var cl, last := w.clients[c], ws[|ws| - 1];
      var version := (w.reg.version + 1) % UINT64_SIZE;
      && last.reg == KvState(EntryV(c, w.reg.version), version)
      && last.clients == w.clients[c := Client(Top, version, cl.nok + 1, cl.nmaybe)]
  {
    hide Next;
    var cl := w.clients[c];
    var begun := Begins(w, c);
    FollowsOn([w], begun);
    hide Follows;
    var asked, done := OneTry(begun, c);
    FollowsOn([w] + [begun], asked);
    FollowsOn([w] + [begun] + [asked], done);
    ws := [w] + [begun] + [asked] + [done];
    UpdateTwice(w.clients, c, begun.clients[c], done.clients[c]);
    if cl.ver != w.reg.version {
      var asked', done' := OneTry(done, c);
      FollowsOn(ws, asked');
      FollowsOn(ws + [asked'], done');
      ws := ws + [asked'] + [done'];
      UpdateTwice(w.clients, c, done.clients[c], done'.clients[c]);
    }
  }
}
