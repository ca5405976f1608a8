/** Any number of OneClientAppend loops over one versioned register, and the checker of their result. */
module AppendClients {
  import opened KvModel
  import opened KvTest
  import opened SetSums

  const INT64_SIZE: int := 0x8000_0000_0000_0000

  /** The n-th append of client id. */
  datatype Entry = Entry(id: int, n: int)

  type Log = seq<Entry>

  // ---------- what the checker looks at ----------

  /** The append numbers of client c, in the order of the log. */
  function Own(es: Log, c: int): seq<int> {
    if es == [] then [] else
      var n := |es| - 1;
      Own(es[..n], c) + if es[n].id == c then [es[n].n] else []
  }

  /** One more than the last number. */
  function Reach(ns: seq<int>): int {
    if ns == [] then 0 else ns[|ns| - 1] + 1
  }

  /** Numbers from 0 up, each larger than the one before. */
  ghost predicate Rising(ns: seq<int>) {
    ns != [] ==> Rising(ns[..|ns| - 1]) && ns[|ns| - 1] >= Reach(ns[..|ns| - 1])
  }

  /** int(ver) in Go. */
  function AsInt(ver: Uint64): int {
    if ver < INT64_SIZE then ver else ver - UINT64_SIZE
  }

  ghost predicate AppendsPass(es: Log, nclnt: nat, rs: seq<ClntRes>, ver: Uint64)
    requires nclnt <= |rs|
  {
    && (forall c | 0 <= c < nclnt :: Rising(Own(es, c)))
    && |es| + 1 == AsInt(ver)
    && (forall c | 0 <= c < nclnt :: Reach(Own(es, c)) - |Own(es, c)| <= rs[c].nmaybe)
    && (forall c | 0 <= c < nclnt :: Reach(Own(es, c)) <= rs[c].nok + rs[c].nmaybe)
  }

  lemma {:induction false} FallsForGood(es: Log, k: nat, c: int)
    requires k <= |es| && !Rising(Own(es[..k], c))
    ensures !Rising(Own(es, c))
    decreases |es|
  {
    if k < |es| {
      var n := |es| - 1;
      assert es[..n][..k] == es[..k];
      FallsForGood(es[..n], k, c);
      var ns := Own(es, c);
      assert ns == Own(es[..n], c) || ns[..|ns| - 1] == Own(es[..n], c);
    } else {
      assert es[..k] == es;
    }
  }

  lemma OwnSnoc(seen: Log, e: Entry, c: int)
    ensures Own(seen + [e], c) == Own(seen, c) + if e.id == c then [e.n] else []
  {
    assert (seen + [e])[..|seen|] == seen;
  }

  /** A client's numbers so far, their reach, and how many numbers below it are missing. */
  ghost predicate Tracked(ns: seq<int>, reach: int, skipped: int) {
    Rising(ns) && reach == Reach(ns) && skipped == reach - |ns|
  }

  lemma TrackOne(ns: seq<int>, reach: int, skipped: int, n: int)
    requires Tracked(ns, reach, skipped)
    ensures reach <= n ==> Tracked(ns + [n], n + 1, skipped + (n - reach))
    ensures reach > n ==> !Rising(ns + [n])
  {
    assert (ns + [n])[..|ns|] == ns;
  }

  /** The counters after the entries seen. */
  ghost predicate Scanned(seen: Log, nclnt: nat, expected: map<int, int>, skipped: map<int, int>) {
    && (forall c :: c in expected <==> 0 <= c < nclnt)
    && (forall c :: c in skipped <==> 0 <= c < nclnt)
    && (forall c | 0 <= c < nclnt :: Tracked(Own(seen, c), expected[c], skipped[c]))
  }

  lemma ScanOne(seen: Log, e: Entry, nclnt: nat, expected: map<int, int>, skipped: map<int, int>)
    requires 0 <= e.id < nclnt && Scanned(seen, nclnt, expected, skipped)
    ensures expected[e.id] <= e.n ==>
              Scanned(seen + [e], nclnt, expected[e.id := e.n + 1],
                      skipped[e.id := skipped[e.id] + (e.n - expected[e.id])])
    ensures expected[e.id] == e.n ==> Scanned(seen + [e], nclnt, expected[e.id := expected[e.id] + 1], skipped)
    ensures expected[e.id] > e.n ==> !Rising(Own(seen + [e], e.id))
  {
    assert skipped[e.id := skipped[e.id] + 0] == skipped;
    TrackOne(Own(seen, e.id), expected[e.id], skipped[e.id], e.n);
    forall c | 0 <= c < nclnt
      ensures Own(seen + [e], c) == if c == e.id then Own(seen, c) + [e.n] else Own(seen, c)
    {
      OwnSnoc(seen, e, c);
    }
  }

  method Zeros(nclnt: nat) returns (m: map<int, int>)
    ensures Scanned([], nclnt, m, m)
  {
    m := map[];
    for i := 0 to nclnt
      invariant forall c :: c in m <==> 0 <= c < i
      invariant forall c | 0 <= c < i :: m[c] == 0
    {
      m := m[i := 0];
    }
  }

  /** One entry of the scan; ok is false where the original calls Fatalf. */
  method CountEntry(ghost seen: Log, e: Entry, nclnt: nat, expected: map<int, int>, skipped: map<int, int>)
    returns (ok: bool, expected': map<int, int>, skipped': map<int, int>)
    requires 0 <= e.id < nclnt && Scanned(seen, nclnt, expected, skipped)
    ensures ok ==> Scanned(seen + [e], nclnt, expected', skipped')
    ensures !ok ==> !Rising(Own(seen + [e], e.id))
  {
    ok, expected', skipped' := true, expected, skipped;
    ScanOne(seen, e, nclnt, expected, skipped);
    if expected[e.id] > e.n {
      ok := false;
    } else if expected[e.id] == e.n {
      expected' := expected[e.id := expected[e.id] + 1];
    } else {
      var s := e.n - expected[e.id];
      expected' := expected[e.id := e.n + 1];
      skipped' := skipped[e.id := skipped[e.id] + s];
    }
  }

  method ScanEntries(es: Log, nclnt: nat) returns (ok: bool, expected: map<int, int>, skipped: map<int, int>)
    requires forall i | 0 <= i < |es| :: 0 <= es[i].id < nclnt
    ensures ok ==> Scanned(es, nclnt, expected, skipped)
    ensures !ok ==> exists c :: 0 <= c < nclnt && !Rising(Own(es, c))
  {
    expected := Zeros(nclnt);
    skipped := expected;
    assert es[..0] == [];
    for k := 0 to |es|
      invariant Scanned(es[..k], nclnt, expected, skipped)
    {
      assert es[..k + 1] == es[..k] + [es[k]];
      ok, expected, skipped := CountEntry(es[..k], es[k], nclnt, expected, skipped);
      if !ok {
        FallsForGood(es, k + 1, es[k].id);
        return;
      }
    }
    assert es[..|es|] == es;
    ok := true;
  }

  method CheckAppends(es: Log, nclnt: nat, rs: seq<ClntRes>, ver: Uint64) returns (passed: bool)
    requires nclnt <= |rs| && forall i | 0 <= i < |es| :: 0 <= es[i].id < nclnt
    ensures passed <==> AppendsPass(es, nclnt, rs, ver)
  {
    var ok, expected, skipped := ScanEntries(es, nclnt);
    if !ok || |es| + 1 != AsInt(ver) {
      return false;
    }
    // the map yields its keys in any order
    var todo := expected.Keys;
    while todo != {}
      invariant todo <= expected.Keys
      invariant forall c | c in expected.Keys - todo ::
                  skipped[c] <= rs[c].nmaybe && expected[c] <= rs[c].nok + rs[c].nmaybe
    {
      SomeMember(todo);
      var c: int :| c in todo;
      if skipped[c] > rs[c].nmaybe || expected[c] > rs[c].nok + rs[c].nmaybe {
        return false;
      }
      todo := todo - {c};
    }
    return true;
  }

  // ---------- the clients ----------

  /** Top: at the select; Reading: about to Get; Writing: about to Put what it read plus one entry. */
  datatype Pc = Top | Reading | Writing(es: Log, ver: Uint64) | Stopped

  datatype Client = Client(pc: Pc, i: nat, nok: nat, nmay: nat)

  datatype World = World(reg: KvState<Log>, clients: seq<Client>)

  /** The register holds an empty list at version 1. */
  ghost predicate Initial(w: World) {
    && w.reg == KvState([], 1)
    && forall c | 0 <= c < |w.clients| :: w.clients[c] == Client(Top, 0, 0, 0)
  }

  function AfterPut(cl: Client, err: string): Client {
    if err == "OK" then Client(Top, cl.i + 1, cl.nok + 1, cl.nmay)
    else if err == "ErrMaybe" then Client(Top, cl.i + 1, cl.nok, cl.nmay + 1)
    else cl.(pc := Reading)
  }

  ghost predicate LocalStep(w: World, c: nat, next: World)
    requires c < |w.clients|
  {
    var cl := w.clients[c];
    match cl.pc
    case Top => next == w.(clients := w.clients[c := cl.(pc := Stopped)])
             || next == w.(clients := w.clients[c := cl.(pc := Reading)])
    case Reading => w.reg.KvState? &&
                    next == w.(clients := w.clients[c := cl.(pc := Writing(w.reg.value, w.reg.version))])
    case Writing(_, _) => false
    case Stopped => false
  }

  /** The put takes effect and the clerk returns err, as Step allows. */
  ghost predicate PutStep(w: World, c: nat, err: string, next: World)
    requires c < |w.clients|
  {
    var cl := w.clients[c];
    cl.pc.Writing? &&
    var inp := KvInput(1, KEY, cl.pc.es + [Entry(c, cl.i)], cl.pc.ver);
    var (ok, reg) := Step(w.reg, inp, KvOutput([], 0, err));
    ok && next == World(reg, w.clients[c := AfterPut(cl, err)])
  }

  ghost predicate ClientStep(w: World, c: nat, next: World)
    requires c < |w.clients|
  {
    LocalStep(w, c, next) || exists err :: PutStep(w, c, err, next)
  }

  ghost predicate Next(w: World, next: World) {
    exists c: nat | c < |w.clients| :: ClientStep(w, c, next)
  }

  ghost predicate IsRun(ws: seq<World>) {
    && ws != []
    && Initial(ws[0])
    && forall i | 0 <= i < |ws| - 1 :: Next(ws[i], ws[i + 1])
  }

  ghost predicate ClientFine(reg: KvState<Log>, c: nat, cl: Client)
    requires reg.KvState?
  {
    && cl.i == cl.nok + cl.nmay
    && Rising(Own(reg.value, c)) && Reach(Own(reg.value, c)) <= cl.i
    && |Own(reg.value, c)| >= cl.nok
    && (cl.pc.Writing? ==> cl.pc.ver <= reg.version && (cl.pc.ver == reg.version ==> cl.pc.es == reg.value))
  }

  ghost predicate Fine(w: World) {
    && w.reg.KvState?
    && w.reg.version == |w.reg.value| + 1
    && (forall i | 0 <= i < |w.reg.value| :: 0 <= w.reg.value[i].id < |w.clients|)
    && forall c | 0 <= c < |w.clients| :: ClientFine(w.reg, c, w.clients[c])
  }

  lemma AppendKeepsFine(w: World, c: nat, err: string, next: World)
    requires Fine(w) && c < |w.clients| && PutStep(w, c, err, next)
    requires w.reg.version == w.clients[c].pc.ver && w.reg.version < UINT64_SIZE - 1
    ensures Fine(next)
  {
    var cl := w.clients[c];
    var es := w.reg.value + [Entry(c, cl.i)];
    assert next.reg == KvState(es, w.reg.version + 1);
    forall d | 0 <= d < |next.clients|
      ensures ClientFine(next.reg, d, next.clients[d])
    {
      assert ClientFine(w.reg, d, w.clients[d]);
      assert es[..|es| - 1] == w.reg.value;
      var ns := Own(es, d);
      if d == c {
        assert ns[..|ns| - 1] == Own(w.reg.value, d);
      } else {
        assert ns == Own(w.reg.value, d);
      }
    }
  }

  lemma StepKeepsFine(w: World, next: World)
    requires Fine(w) && Next(w, next) && w.reg.version < UINT64_SIZE - 1
    ensures Fine(next)
    ensures w.reg.version <= next.reg.version <= w.reg.version + 1
  {
    var c: nat :| c < |w.clients| && ClientStep(w, c, next);
    assert ClientFine(w.reg, c, w.clients[c]);
    if !LocalStep(w, c, next) {
      var err :| PutStep(w, c, err, next);
      if w.reg.version == w.clients[c].pc.ver {
        AppendKeepsFine(w, c, err, next);
      }
    }
  }

  lemma {:induction false} RunsAreFine(ws: seq<World>)
    requires IsRun(ws) && |ws| < INT64_SIZE
    ensures Fine(ws[|ws| - 1]) && ws[|ws| - 1].reg.version <= |ws|
    decreases |ws|
  {
    var n := |ws| - 1;
    if n > 0 {
      assert forall i | 0 <= i < n - 1 :: Next(ws[..n][i], ws[..n][i + 1]);
      RunsAreFine(ws[..n]);
      assert Next(ws[n - 1], ws[n]);
      StepKeepsFine(ws[n - 1], ws[n]);
    }
  }

  function Results(clients: seq<Client>): seq<ClntRes> {
    seq(|clients|, c requires 0 <= c < |clients| => ClntRes(clients[c].nok, clients[c].nmay))
  }

  /** Whatever the interleaving and the number of clients, the value the run leaves behind passes every
      check of CheckAppends, for all runs too short for the version to leave the range of int. */
  lemma AppendRunsPass(ws: seq<World>)
    requires IsRun(ws) && |ws| < INT64_SIZE
    ensures var w := ws[|ws| - 1];
      && w.reg.KvState?
      && (forall i | 0 <= i < |w.reg.value| :: 0 <= w.reg.value[i].id < |w.clients|)
      && AppendsPass(w.reg.value, |w.clients|, Results(w.clients), w.reg.version)
  {
    RunsAreFine(ws);
    FinePasses(ws[|ws| - 1]);
  }

  lemma FinePasses(w: World)
    requires Fine(w) && w.reg.version < INT64_SIZE
    ensures AppendsPass(w.reg.value, |w.clients|, Results(w.clients), w.reg.version)
  {
    var rs := Results(w.clients);
    assert AsInt(w.reg.version) == w.reg.version;
    forall c | 0 <= c < |w.clients|
      ensures Rising(Own(w.reg.value, c))
      ensures Reach(Own(w.reg.value, c)) - |Own(w.reg.value, c)| <= rs[c].nmaybe
      ensures Reach(Own(w.reg.value, c)) <= rs[c].nok + rs[c].nmaybe
    {
      assert ClientFine(w.reg, c, w.clients[c]);
    }
  }

  // ---------- tallies are of answers ----------

  /** What a step is: something a client does by itself, or the answer to its put. */
  datatype Label = Local(c: nat) | Answer(c: nat, err: string)

  ghost predicate Labelled(w: World, l: Label, next: World) {
    && l.c < |w.clients|
    && if l.Local? then LocalStep(w, l.c, next) else PutStep(w, l.c, l.err, next)
  }

  ghost predicate LabelledRun(ws: seq<World>, ls: seq<Label>) {
    && |ws| == |ls| + 1 && Initial(ws[0])
    && forall k | 0 <= k < |ls| :: Labelled(ws[k], ls[k], ws[k + 1])
  }

  lemma StepHasLabel(w: World, next: World) returns (l: Label)
    requires Next(w, next)
    ensures Labelled(w, l, next)
  {
    hide LocalStep, PutStep;
    var c: nat :| c < |w.clients| && ClientStep(w, c, next);
    l := Local(c);
    if !LocalStep(w, c, next) {
      var err :| PutStep(w, c, err, next);
      l := Answer(c, err);
    }
  }

  /** Every run can be labelled. */
  lemma {:induction false} RunsHaveLabels(ws: seq<World>) returns (ls: seq<Label>)
    requires IsRun(ws)
    ensures LabelledRun(ws, ls)
    decreases |ws|
  {
    hide Next, Labelled, Initial;
    var n := |ws| - 1;
    if n == 0 {
      ls := [];
    } else {
      forall i | 0 <= i < n - 1
        ensures Next(ws[..n][i], ws[..n][i + 1])
      {
        assert Next(ws[i], ws[i + 1]);
      }
      var init := RunsHaveLabels(ws[..n]);
      assert Next(ws[n - 1], ws[n]);
      var l := StepHasLabel(ws[n - 1], ws[n]);
      ls := init + [l];
      forall k | 0 <= k < n
        ensures Labelled(ws[k], ls[k], ws[k + 1])
      {
        assert k < n - 1 ==> Labelled(ws[..n][k], init[k], ws[..n][k + 1]);
      }
    }
  }

  /** How many puts of client c are answered err. */
  function Answers(ls: seq<Label>, c: nat, err: string): nat {
    if ls == [] then 0 else
      Answers(ls[..|ls| - 1], c, err) + if ls[|ls| - 1] == Answer(c, err) then 1 else 0
  }

  /** How the last put of client c was answered; empty before its first. */
  function LastAnswer(ls: seq<Label>, c: nat): string {
    if ls == [] then ""
    else if ls[|ls| - 1].Answer? && ls[|ls| - 1].c == c then ls[|ls| - 1].err
    else LastAnswer(ls[..|ls| - 1], c)
  }

  /** What a step does to the record of client c. */
  lemma OwnStep(w: World, l: Label, next: World, c: nat)
    requires Labelled(w, l, next) && c < |next.clients|
    ensures |next.clients| == |w.clients|
    ensures var cl, now := w.clients[c], next.clients[c];
      && now.nok == cl.nok + (if l == Answer(c, "OK") then 1 else 0)
      && now.nmay == cl.nmay + (if l == Answer(c, "ErrMaybe") then 1 else 0)
      && now.i - cl.i == (now.nok - cl.nok) + (now.nmay - cl.nmay)
      && (l.Answer? && l.c == c && (now.pc.Top? || now.pc.Stopped?) ==> l.err == "OK" || l.err == "ErrMaybe")
      && (!(l.Answer? && l.c == c) && (now.pc.Top? || now.pc.Stopped?) ==> cl.pc.Top? || cl.pc.Stopped?)
  {
  }

  lemma Shorter(ws: seq<World>, ls: seq<Label>)
    requires LabelledRun(ws, ls) && ls != []
    ensures LabelledRun(ws[..|ls|], ls[..|ls| - 1]) && Labelled(ws[|ls| - 1], ls[|ls| - 1], ws[|ls|])
  {
    hide Labelled;
    var n := |ls|;
    forall k | 0 <= k < n - 1
      ensures Labelled(ws[..n][k], ls[..n - 1][k], ws[..n][k + 1])
    {
      assert Labelled(ws[k], ls[k], ws[k + 1]);
    }
  }

  /** Each client counts its answers and numbers its entries by them; it leaves an entry, or stops, only after a
      put was answered OK or ErrMaybe. */
  lemma {:induction false} TalliesAreExact(ws: seq<World>, ls: seq<Label>, c: nat)
    requires LabelledRun(ws, ls) && c < |ws[|ls|].clients|
    ensures var cl := ws[|ls|].clients[c];
      && cl.nok == Answers(ls, c, "OK") && cl.nmay == Answers(ls, c, "ErrMaybe")
      && cl.i == cl.nok + cl.nmay
      && (cl.pc.Top? || cl.pc.Stopped? ==> LastAnswer(ls, c) in {"", "OK", "ErrMaybe"})
    decreases |ls|
  {
    hide Labelled;
    var n := |ls|;
    if n > 0 {
      Shorter(ws, ls);
      OwnStep(ws[n - 1], ls[n - 1], ws[n], c);
      TalliesAreExact(ws[..n], ls[..n - 1], c);
    }
  }

  /** A client left to itself appends its next entry in one try, from any state. */
  lemma AppendsAlone(w: World, c: nat) returns (reading: World, writing: World, done: World)
    requires w.reg.KvState? && c < |w.clients| && w.clients[c].pc.Top?
    ensures Next(w, reading) && Next(reading, writing) && Next(writing, done)
    ensures var cl := w.clients[c];
      && done.reg == KvState(w.reg.value + [Entry(c, cl.i)], (w.reg.version + 1) % UINT64_SIZE)
      && done.clients == w.clients[c := Client(Top, cl.i + 1, cl.nok + 1, cl.nmay)]
  {
    var cl := w.clients[c];
    reading := w.(clients := w.clients[c := cl.(pc := Reading)]);
    writing := reading.(clients := reading.clients[c := cl.(pc := Writing(w.reg.value, w.reg.version))]);
    done := World(KvState(w.reg.value + [Entry(c, cl.i)], (w.reg.version + 1) % UINT64_SIZE),
                  writing.clients[c := Client(Top, cl.i + 1, cl.nok + 1, cl.nmay)]);
    assert LocalStep(w, c, reading) && LocalStep(reading, c, writing);
    assert ClientStep(w, c, reading) && ClientStep(reading, c, writing);
    assert PutStep(writing, c, "OK", done);
    assert ClientStep(writing, c, done);
  }
}
