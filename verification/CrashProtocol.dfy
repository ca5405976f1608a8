/** Requests, crashes and restarts as interleaved steps: processReq's phases race with handlers that save,
    with ShutdownServer and StartServer, and with every change of the network. */
module CrashProtocol {
  import opened GoStrings
  import opened Labrpc

  // ---------- state ----------

  /** What one Save stores. */
  datatype Data = Data(raftstate: GoString, snapshot: GoString)

  /** The value of a Persister, with its history: saves lists every Save that led to its contents, those
      before a Copy included. */
  datatype Stored = Stored(data: Data, saves: seq<Data>)

  const EMPTY := Stored(Data([], []), [])

  /** A server instance: the registered labrpc.Server with its services, and the Persister they were given. */
  datatype Instance = Instance(name: Name, pers: nat, count: nat)

  /** Where StartServer and ShutdownServer stand for one server name.
      Down: nothing runs. Prepared: startServer has copied the Persister. Built: the services run.
      Up: AddServer is done. Deleted: DeleteServer is done, shutdownServer has not copied yet. */
  datatype Phase = Down | Prepared | Built(inst: nat) | Up(inst: nat) | Deleted(last: Option<nat>)

  datatype Slot = Slot(saved: Option<nat>, phase: Phase)

  /** A Save made by a handler: its place in the list of saves, and what it stored. */
  datatype Mark = Mark(index: nat, data: Data)

  /** The goroutine that runs the handler. */
  datatype Handler =
    | Idle
    | Spawned(inst: nat)
    | Running(inst: nat, marks: seq<Mark>)
    | Ready(inst: nat, marks: seq<Mark>)
    | Collected(inst: nat, marks: seq<Mark>)

  /** processReq. Woken: out of the waiting loop, ok is replyOK. Decided: after the last isServerDead. */
  datatype Proc =
    | Sent
    | Refused
    | Chosen(inst: nat, reliable: bool, reorder: bool)
    | Waiting(inst: nat, reliable: bool, reorder: bool)
    | Woken(inst: nat, ok: bool, reliable: bool, reorder: bool)
    | Decided(alive: bool, reliable: bool, reorder: bool)
    | Delayed
    | Finished

  datatype Request = Request(end: End, proc: Proc, handler: Handler, dispatches: nat, replies: seq<bool>)

  datatype World = World(net: Net, persisters: seq<Stored>, instances: seq<Instance>,
                         slots: map<Name, Slot>, reqs: seq<Request>)

  /** Any set of server names, none started. */
  ghost predicate Initial(w: World) {
    && w.net.servers == map[] && w.persisters == [] && w.instances == [] && w.reqs == []
    && forall n | n in w.slots :: w.slots[n] == Slot(None, Down)
  }

  // ---------- steps ----------

  datatype Event =
    // the network
    | Enable(end: End, on: bool)
    | Connect(end: End, name: Name)
    | DeleteEnd(end: End)
    | SetFlags(reliable: bool, reorder: bool)
    // StartServer and ShutdownServer
    | StartCopy(name: Name)
    | Build(name: Name)
    | AddServer(name: Name)
    | DeleteServer(name: Name)
    | ShutCopy(name: Name)
    // services of any instance, dead or alive
    | Save(inst: nat, data: Data)
    // a request
    | Issue(end: End)
    | ReadInfo(r: nat)
    | DropRequest(r: nat)
    | Spawn(r: nat)
    | Dispatch(r: nat)
    | HandlerSave(r: nat, data: Data)
    | Return(r: nat)
    | Collect(r: nat)
    | Drain(r: nat)
    | Poll(r: nat)
    | FinalCheck(r: nat)
    | DropReply(r: nat)
    | Delay(r: nat)
    | Reply(r: nat)

  /** Persister.Save. */
  function Saved(p: Stored, data: Data): Stored {
    Stored(data, p.saves + [data])
  }

  ghost predicate HasInstance(w: World, inst: nat) {
    inst < |w.instances| && w.instances[inst].pers < |w.persisters|
  }

  function SaveAt(w: World, inst: nat, data: Data): World
    requires inst < |w.instances| && w.instances[inst].pers < |w.persisters|
  {
    var p := w.instances[inst].pers;
    w.(persisters := w.persisters[p := Saved(w.persisters[p], data)])
  }

  /** s.saved.Copy(), or a new Persister for a server that never ran. */
  function CopySaved(w: World, name: Name, next: Phase): World
    requires name in w.slots && (w.slots[name].saved.Some? ==> w.slots[name].saved.value < |w.persisters|)
  {
    var copy := if w.slots[name].saved.Some? then w.persisters[w.slots[name].saved.value] else EMPTY;
    w.(persisters := w.persisters + [copy],
       slots := w.slots[name := Slot(Some(|w.persisters|), next)])
  }

  function SetPhase(w: World, name: Name, phase: Phase): World
    requires name in w.slots
  {
    w.(slots := w.slots[name := w.slots[name].(phase := phase)])
  }

  function SetReq(w: World, r: nat, q: Request): World
    requires r < |w.reqs|
  {
    w.(reqs := w.reqs[r := q])
  }

  ghost predicate SlotOk(w: World, name: Name) {
    name in w.slots && (w.slots[name].saved.Some? ==> w.slots[name].saved.value < |w.persisters|)
  }

  ghost predicate Can(w: World, e: Event) {
    match e
    case Enable(_, _) => true
    case Connect(_, _) => true
    case DeleteEnd(_) => true
    case SetFlags(_, _) => true
    case StartCopy(n) => SlotOk(w, n) && w.slots[n].phase.Down?
    case Build(n) => SlotOk(w, n) && w.slots[n].phase.Prepared? && w.slots[n].saved.Some?
    case AddServer(n) => SlotOk(w, n) && w.slots[n].phase.Built?
    case DeleteServer(n) => SlotOk(w, n) && (w.slots[n].phase.Up? || w.slots[n].phase.Down?)
    case ShutCopy(n) => SlotOk(w, n) && w.slots[n].phase.Deleted?
    case Save(inst, _) => HasInstance(w, inst)
    case Issue(_) => true
    case ReadInfo(r) => r < |w.reqs| && w.reqs[r].proc.Sent?
    case DropRequest(r) => r < |w.reqs| && w.reqs[r].proc.Chosen? && !w.reqs[r].proc.reliable
    case Spawn(r) => r < |w.reqs| && w.reqs[r].proc.Chosen?
    case Dispatch(r) => r < |w.reqs| && w.reqs[r].handler.Spawned? && w.reqs[r].handler.inst < |w.instances|
    case HandlerSave(r, _) => r < |w.reqs| && w.reqs[r].handler.Running? && HasInstance(w, w.reqs[r].handler.inst)
    case Return(r) => r < |w.reqs| && w.reqs[r].handler.Running?
    case Collect(r) => r < |w.reqs| && w.reqs[r].proc.Waiting? && w.reqs[r].handler.Ready?
    case Drain(r) => r < |w.reqs| && !w.reqs[r].proc.Waiting? && w.reqs[r].handler.Ready?
    case Poll(r) => r < |w.reqs| && w.reqs[r].proc.Waiting? && w.reqs[r].proc.inst < |w.instances|
    case FinalCheck(r) => r < |w.reqs| && w.reqs[r].proc.Woken? && w.reqs[r].proc.inst < |w.instances|
    case DropReply(r) => r < |w.reqs| && w.reqs[r].proc.Decided? && w.reqs[r].proc.alive && !w.reqs[r].proc.reliable
    case Delay(r) => r < |w.reqs| && w.reqs[r].proc.Decided? && w.reqs[r].proc.alive && w.reqs[r].proc.reorder
    case Reply(r) => r < |w.reqs| && (w.reqs[r].proc.Decided? || w.reqs[r].proc.Delayed? || w.reqs[r].proc.Refused?)
  }

  function Answer(q: Request, ok: bool): Request {
    q.(proc := Finished, replies := q.replies + [ok])
  }

  ghost predicate Dead(w: World, q: Request, inst: nat)
    requires inst < |w.instances|
  {
    w.net.IsServerDead(q.end, w.instances[inst].name, inst)
  }

  predicate IsHandlerEvent(e: Event) {
    e.Dispatch? || e.HandlerSave? || e.Return? || e.Drain?
  }

  predicate IsProcEvent(e: Event) {
    || e.ReadInfo? || e.DropRequest? || e.Spawn? || e.Collect? || e.Poll?
    || e.FinalCheck? || e.DropReply? || e.Delay? || e.Reply?
  }

  predicate IsRequestEvent(e: Event) {
    IsHandlerEvent(e) || IsProcEvent(e)
  }

  /** What the event makes of its request. */
  ghost function Moved(w: World, e: Event): Request
    requires Can(w, e) && IsRequestEvent(e)
  {
    var q := w.reqs[e.r];
    match e
    case Dispatch(_) => q.(handler := Running(q.handler.inst, []), dispatches := q.dispatches + 1)
    case HandlerSave(_, data) =>
      var mark := Mark(|w.persisters[w.instances[q.handler.inst].pers].saves|, data);
      q.(handler := Running(q.handler.inst, q.handler.marks + [mark]))
    case Return(_) => q.(handler := Ready(q.handler.inst, q.handler.marks))
    case Drain(_) => q.(handler := Collected(q.handler.inst, q.handler.marks))
    case ReadInfo(_) =>
      var t := w.net.Target(q.end);
      q.(proc := if t.Some? then Chosen(t.value.1, w.net.reliable, w.net.longReordering) else Refused)
    case DropRequest(_) => Answer(q, false)
    case Spawn(_) =>
      q.(proc := Waiting(q.proc.inst, q.proc.reliable, q.proc.reorder), handler := Spawned(q.proc.inst))
    case Collect(_) =>
      q.(proc := Woken(q.proc.inst, true, q.proc.reliable, q.proc.reorder),
         handler := Collected(q.handler.inst, q.handler.marks))
    case Poll(_) =>
      if Dead(w, q, q.proc.inst) then q.(proc := Woken(q.proc.inst, false, q.proc.reliable, q.proc.reorder)) else q
    case FinalCheck(_) =>
      q.(proc := Decided(q.proc.ok && !Dead(w, q, q.proc.inst), q.proc.reliable, q.proc.reorder))
    case DropReply(_) => Answer(q, false)
    case Delay(_) => q.(proc := Delayed)
    case Reply(_) => Answer(q, q.proc.Delayed? || (q.proc.Decided? && q.proc.alive))
  }

  function CountOne(w: World, inst: nat): World
    requires inst < |w.instances|
  {
    w.(instances := w.instances[inst := w.instances[inst].(count := w.instances[inst].count + 1)])
  }

  /** The services of a new instance on the Persister that startServer prepared. */
  function BuildInstance(w: World, name: Name): World
    requires name in w.slots && w.slots[name].saved.Some?
  {
    SetPhase(w, name, Built(|w.instances|)).(instances := w.instances + [Instance(name, w.slots[name].saved.value, 0)])
  }

  function Register(w: World, name: Name, inst: nat): World
    requires name in w.slots
  {
    SetPhase(w, name, Up(inst)).(net := w.net.AddServer(name, inst))
  }

  function Unregister(w: World, name: Name): World
    requires name in w.slots
  {
    var phase := w.slots[name].phase;
    SetPhase(w, name, Deleted(if phase.Up? then Some(phase.inst) else None)).(
      net := w.net.DeleteServer(name))
  }

  /** What the event does to everything but the request it moves. */
  ghost function Effect(w: World, e: Event): World
    requires Can(w, e)
  {
    if IsProcEvent(e) || e.Return? || e.Drain? then w else
      match e
      case Enable(end, on) => w.(net := w.net.Enable(end, on))
      case Connect(end, n) => w.(net := w.net.Connect(end, n))
      case DeleteEnd(end) => w.(net := w.net.DeleteEnd(end))
      case SetFlags(rel, reorder) => w.(net := w.net.(reliable := rel, longReordering := reorder))
      case StartCopy(n) => CopySaved(w, n, Prepared)
      case Build(n) => BuildInstance(w, n)
      case AddServer(n) => Register(w, n, w.slots[n].phase.inst)
      case DeleteServer(n) => Unregister(w, n)
      case ShutCopy(n) => if w.slots[n].saved.Some? then CopySaved(w, n, Down) else SetPhase(w, n, Down)
      case Save(inst, data) => SaveAt(w, inst, data)
      case HandlerSave(r, data) => SaveAt(w, w.reqs[r].handler.inst, data)
      case Dispatch(r) => CountOne(w, w.reqs[r].handler.inst)
      case Issue(end) => w.(reqs := w.reqs + [Request(end, Sent, Idle, 0, [])])
  }

  ghost function Do(w: World, e: Event): World
    requires Can(w, e)
  {
    if IsRequestEvent(e) then SetReq(Effect(w, e), e.r, Moved(w, e)) else Effect(w, e)
  }

  ghost predicate Possible(start: World, es: seq<Event>)
    decreases es, 0
  {
    es != [] ==> Possible(start, es[..|es| - 1]) && Can(After(start, es[..|es| - 1]), es[|es| - 1])
  }

  ghost function After(start: World, es: seq<Event>): World
    requires Possible(start, es)
    decreases es, 1
  {
    if es == [] then start else Do(After(start, es[..|es| - 1]), es[|es| - 1])
  }

  lemma OneMore(start: World, es: seq<Event>, e: Event)
    requires Possible(start, es) && Can(After(start, es), e)
    ensures Possible(start, es + [e]) && After(start, es + [e]) == Do(After(start, es), e)
  {
    hide Do, Can;
    assert (es + [e])[..|es|] == es;
  }

  // ---------- what a slot knows ----------

  ghost predicate MarksIn(p: Stored, marks: seq<Mark>) {
    forall i | 0 <= i < |marks| :: marks[i].index < |p.saves| && p.saves[marks[i].index] == marks[i].data
  }

  /** The saves are in the Persister that holds the state of the server name: the one its instance writes to,
      the copy made at shutdown, or the copy a restarted instance is given. */
  ghost predicate Durable(w: World, name: Name, marks: seq<Mark>) {
    && SlotOk(w, name) && w.slots[name].saved.Some?
    && MarksIn(w.persisters[w.slots[name].saved.value], marks)
  }

  ghost predicate PersisterFine(p: Stored) {
    p.data == if p.saves == [] then EMPTY.data else p.saves[|p.saves| - 1]
  }

  /** Only the instance in charge writes to the saved Persister. */
  ghost predicate SlotFine(w: World, name: Name)
    requires name in w.slots
  {
    var slot := w.slots[name];
    && SlotOk(w, name)
    && (forall i | 0 <= i < |w.instances| && slot.saved == Some(w.instances[i].pers) ::
          slot.phase == Built(i) || slot.phase == Up(i) || slot.phase == Deleted(Some(i)))
    && match slot.phase
       case Down => name !in w.net.servers
       case Prepared => slot.saved.Some? && name !in w.net.servers
       case Built(i) => i < |w.instances| && w.instances[i].name == name && slot.saved == Some(w.instances[i].pers)
                        && name !in w.net.servers
       case Up(i) => i < |w.instances| && w.instances[i].name == name && slot.saved == Some(w.instances[i].pers)
                     && name in w.net.servers && w.net.servers[name] == i
       case Deleted(_) => name !in w.net.servers
  }

  ghost predicate SystemFine(w: World) {
    && (forall p | 0 <= p < |w.persisters| :: PersisterFine(w.persisters[p]))
    && (forall i | 0 <= i < |w.instances| :: w.instances[i].pers < |w.persisters| && w.instances[i].name in w.slots)
    && (forall n | n in w.net.servers :: n in w.slots)
    && (forall n | n in w.slots :: SlotFine(w, n))
    && (forall m, n | m in w.slots && n in w.slots && m != n && w.slots[m].saved.Some? ::
          w.slots[m].saved != w.slots[n].saved)
  }

  // ---------- what a request knows ----------

  /** The instance's Persister has the saves. */
  ghost predicate Wrote(w: World, inst: nat, marks: seq<Mark>) {
    HasInstance(w, inst) && MarksIn(w.persisters[w.instances[inst].pers], marks)
  }

  ghost predicate HandlerFine(w: World, q: Request) {
    match q.handler
    case Idle => q.dispatches == 0
    case Spawned(inst) => q.dispatches == 0 && HasInstance(w, inst)
    case Running(inst, marks) => q.dispatches == 1 && Wrote(w, inst, marks)
    case Ready(inst, marks) => q.dispatches == 1 && Wrote(w, inst, marks)
    case Collected(inst, marks) => q.dispatches == 1 && Wrote(w, inst, marks)
  }

  /** The handler has returned and what it saved is durable. */
  ghost predicate Confirmed(w: World, q: Request) {
    && q.handler.Collected? && HasInstance(w, q.handler.inst)
    && Durable(w, w.instances[q.handler.inst].name, q.handler.marks)
  }

  ghost predicate ProcFine(w: World, q: Request) {
    match q.proc
    case Sent => q.handler.Idle? && q.replies == []
    case Refused => q.handler.Idle? && q.replies == []
    case Chosen(inst, _, _) => q.handler.Idle? && q.replies == [] && HasInstance(w, inst)
    case Waiting(inst, _, _) =>
      (q.handler.Spawned? || q.handler.Running? || q.handler.Ready?) && q.handler.inst == inst && q.replies == []
    case Woken(inst, ok, _, _) =>
      !q.handler.Idle? && q.handler.inst == inst && (ok ==> q.handler.Collected?) && q.replies == []
    case Decided(alive, _, _) => !q.handler.Idle? && (alive ==> Confirmed(w, q)) && q.replies == []
    case Delayed => Confirmed(w, q) && q.replies == []
    case Finished => |q.replies| == 1 && (true in q.replies ==> Confirmed(w, q))
  }

  ghost predicate RequestFine(w: World, q: Request) {
    HandlerFine(w, q) && ProcFine(w, q)
  }

  ghost predicate Fine(w: World) {
    SystemFine(w) && forall r | 0 <= r < |w.reqs| :: RequestFine(w, w.reqs[r])
  }

  // ---------- nothing saved is ever lost ----------

  /** Instances keep their names and Persisters, Persisters keep their saves, and the saved Persister of a
      name always has at least the saves the one before it had. */
  ghost predicate Grows(w: World, v: World) {
    && |w.instances| <= |v.instances| && |w.persisters| <= |v.persisters|
    && (forall i | 0 <= i < |w.instances| ::
          v.instances[i].name == w.instances[i].name && v.instances[i].pers == w.instances[i].pers)
    && (forall p | 0 <= p < |w.persisters| :: w.persisters[p].saves <= v.persisters[p].saves)
    && (forall n | SlotOk(w, n) && w.slots[n].saved.Some? ::
          && SlotOk(v, n) && v.slots[n].saved.Some?
          && w.persisters[w.slots[n].saved.value].saves <= v.persisters[v.slots[n].saved.value].saves)
  }

  lemma SaveGrows(w: World, inst: nat, data: Data)
    requires HasInstance(w, inst)
    ensures Grows(w, SaveAt(w, inst, data))
  {
  }

  lemma CopyGrows(w: World, name: Name, next: Phase)
    requires SlotOk(w, name)
    ensures Grows(w, CopySaved(w, name, next))
  {
  }

  /** All that Grows reads is left alone, or has an instance or a slot's phase added. */
  lemma QuietGrows(w: World, v: World)
    requires v.persisters == w.persisters && |w.instances| <= |v.instances|
    requires forall i | 0 <= i < |w.instances| ::
               v.instances[i].name == w.instances[i].name && v.instances[i].pers == w.instances[i].pers
    requires forall n | n in w.slots :: n in v.slots && v.slots[n].saved == w.slots[n].saved
    ensures Grows(w, v)
  {
  }

  lemma EffectGrows(w: World, e: Event)
    requires Can(w, e)
    ensures Grows(w, Effect(w, e))
  {
    if e.Save? {
      SaveGrows(w, e.inst, e.data);
    } else if e.HandlerSave? {
      SaveGrows(w, w.reqs[e.r].handler.inst, e.data);
    } else if e.StartCopy? {
      CopyGrows(w, e.name, Prepared);
    } else if e.ShutCopy? && w.slots[e.name].saved.Some? {
      CopyGrows(w, e.name, Down);
    } else {
      QuietGrows(w, Effect(w, e));
    }
  }

  lemma EveryStepGrows(w: World, e: Event)
    requires Can(w, e)
    ensures Grows(w, Do(w, e))
  {
    EffectGrows(w, e);
  }

  lemma MarksStay(p: Stored, q: Stored, marks: seq<Mark>)
    requires MarksIn(p, marks) && p.saves <= q.saves
    ensures MarksIn(q, marks)
  {
  }

  lemma RequestStaysFine(w: World, v: World, q: Request)
    requires Grows(w, v) && RequestFine(w, q)
    ensures RequestFine(v, q)
  {
    if q.handler.Running? || q.handler.Ready? || q.handler.Collected? {
      var i := q.handler.inst;
      MarksStay(w.persisters[w.instances[i].pers], v.persisters[w.instances[i].pers], q.handler.marks);
      if Confirmed(w, q) {
        var n := w.instances[i].name;
        MarksStay(w.persisters[w.slots[n].saved.value], v.persisters[v.slots[n].saved.value], q.handler.marks);
      }
    }
  }

  // ---------- the invariant ----------

  /** The parts SystemFine reads. */
  lemma SameSystem(w: World, v: World)
    requires SystemFine(w)
    requires v.persisters == w.persisters && v.slots == w.slots && v.net.servers == w.net.servers
    requires |v.instances| == |w.instances|
    requires forall i | 0 <= i < |w.instances| ::
               v.instances[i].pers == w.instances[i].pers && v.instances[i].name == w.instances[i].name
    ensures SystemFine(v)
  {
    forall n | n in v.slots
      ensures SlotFine(v, n)
    {
      assert SlotFine(w, n);
    }
  }

  lemma SaveStaysFine(w: World, inst: nat, data: Data)
    requires SystemFine(w) && HasInstance(w, inst)
    ensures SystemFine(SaveAt(w, inst, data))
  {
    var v := SaveAt(w, inst, data);
    forall n | n in v.slots
      ensures SlotFine(v, n)
    {
      assert SlotFine(w, n);
    }
  }

  lemma CopyStaysFine(w: World, name: Name, next: Phase)
    requires SystemFine(w) && SlotOk(w, name) && name !in w.net.servers
    requires next == Prepared || next == Down
    ensures SystemFine(CopySaved(w, name, next))
  {
    var v := CopySaved(w, name, next);
    forall n | n in v.slots
      ensures SlotFine(v, n)
    {
      assert SlotFine(w, n);
    }
  }

  lemma BuildStaysFine(w: World, name: Name)
    requires SystemFine(w) && SlotOk(w, name) && w.slots[name].phase.Prepared? && w.slots[name].saved.Some?
    ensures SystemFine(BuildInstance(w, name))
  {
    var v := BuildInstance(w, name);
    forall n | n in v.slots
      ensures SlotFine(v, n)
    {
      assert SlotFine(w, n) && SlotFine(w, name);
    }
  }

  lemma RegisterStaysFine(w: World, name: Name)
    requires SystemFine(w) && SlotOk(w, name) && w.slots[name].phase.Built?
    ensures SystemFine(Register(w, name, w.slots[name].phase.inst))
  {
    var v := Register(w, name, w.slots[name].phase.inst);
    forall n | n in v.slots
      ensures SlotFine(v, n)
    {
      assert SlotFine(w, n) && SlotFine(w, name);
    }
  }

  lemma UnregisterStaysFine(w: World, name: Name)
    requires SystemFine(w) && SlotOk(w, name) && (w.slots[name].phase.Up? || w.slots[name].phase.Down?)
    ensures SystemFine(Unregister(w, name))
  {
    var v := Unregister(w, name);
    forall n | n in v.slots
      ensures SlotFine(v, n)
    {
      assert SlotFine(w, n) && SlotFine(w, name);
    }
  }

  /** Shutting down a server that never ran. */
  lemma NeverRanStaysFine(w: World, name: Name)
    requires SystemFine(w) && SlotOk(w, name) && w.slots[name].phase.Deleted? && w.slots[name].saved.None?
    ensures SystemFine(SetPhase(w, name, Down))
  {
    var v := SetPhase(w, name, Down);
    forall n | n in v.slots
      ensures SlotFine(v, n)
    {
      assert SlotFine(w, n) && SlotFine(w, name);
    }
  }

  lemma EffectStaysFine(w: World, e: Event)
    requires SystemFine(w) && Can(w, e)
    ensures SystemFine(Effect(w, e))
  {
    if e.Save? {
      SaveStaysFine(w, e.inst, e.data);
    } else if e.HandlerSave? {
      SaveStaysFine(w, w.reqs[e.r].handler.inst, e.data);
    } else if e.Build? {
      BuildStaysFine(w, e.name);
    } else if e.AddServer? {
      RegisterStaysFine(w, e.name);
    } else if e.DeleteServer? {
      UnregisterStaysFine(w, e.name);
    } else if e.StartCopy? || (e.ShutCopy? && w.slots[e.name].saved.Some?) {
      assert SlotFine(w, e.name);
      CopyStaysFine(w, e.name, if e.StartCopy? then Prepared else Down);
    } else if e.ShutCopy? {
      NeverRanStaysFine(w, e.name);
    } else {
      SameSystem(w, Effect(w, e));
    }
  }

  lemma SystemStaysFine(w: World, e: Event)
    requires SystemFine(w) && Can(w, e)
    ensures SystemFine(Do(w, e))
  {
    EffectStaysFine(w, e);
    SameSystem(Effect(w, e), Do(w, e));
  }

  // ---------- the request that moves ----------

  /** A positive last check: the server is still registered, so the Persister it writes to is the saved one. */
  lemma CheckConfirms(w: World, q: Request, inst: nat)
    requires SystemFine(w) && HandlerFine(w, q) && q.handler.Collected? && q.handler.inst == inst
    requires inst < |w.instances| && !Dead(w, q, inst)
    ensures Confirmed(w, q)
  {
    var n := w.instances[inst].name;
    assert SlotFine(w, n);
  }

  lemma TargetExists(w: World, end: End)
    requires SystemFine(w) && w.net.Target(end).Some?
    ensures HasInstance(w, w.net.Target(end).value.1)
  {
    assert SlotFine(w, w.net.Target(end).value.0);
  }

  lemma DispatchMoves(w: World, q: Request)
    requires RequestFine(w, q) && q.handler.Spawned?
    ensures RequestFine(w, q.(handler := Running(q.handler.inst, []), dispatches := q.dispatches + 1))
  {
  }

  lemma HandlerSaveMoves(w: World, q: Request, data: Data)
    requires RequestFine(w, q) && q.handler.Running? && HasInstance(w, q.handler.inst)
    ensures var v := SaveAt(w, q.handler.inst, data);
      var mark := Mark(|w.persisters[w.instances[q.handler.inst].pers].saves|, data);
      RequestFine(v, q.(handler := Running(q.handler.inst, q.handler.marks + [mark])))
  {
    SaveGrows(w, q.handler.inst, data);
  }

  /** The handler returns, or its reply is drained after processReq has given up. */
  lemma HandlerEnds(w: World, q: Request)
    requires RequestFine(w, q)
    ensures q.handler.Running? ==> RequestFine(w, q.(handler := Ready(q.handler.inst, q.handler.marks)))
    ensures q.handler.Ready? && !q.proc.Waiting? ==>
              RequestFine(w, q.(handler := Collected(q.handler.inst, q.handler.marks)))
  {
  }

  lemma ReadInfoMoves(w: World, q: Request)
    requires SystemFine(w) && RequestFine(w, q) && q.proc.Sent?
    ensures var t := w.net.Target(q.end);
      RequestFine(w, q.(proc := if t.Some? then Chosen(t.value.1, w.net.reliable, w.net.longReordering) else Refused))
  {
    if w.net.Target(q.end).Some? {
      TargetExists(w, q.end);
    }
  }

  lemma SpawnMoves(w: World, q: Request)
    requires RequestFine(w, q) && q.proc.Chosen?
    ensures RequestFine(w, q.(proc := Waiting(q.proc.inst, q.proc.reliable, q.proc.reorder),
                              handler := Spawned(q.proc.inst)))
  {
  }

  lemma CollectMoves(w: World, q: Request)
    requires RequestFine(w, q) && q.proc.Waiting? && q.handler.Ready?
    ensures RequestFine(w, q.(proc := Woken(q.proc.inst, true, q.proc.reliable, q.proc.reorder),
                              handler := Collected(q.handler.inst, q.handler.marks)))
  {
  }

  lemma PollMoves(w: World, q: Request)
    requires RequestFine(w, q) && q.proc.Waiting?
    ensures RequestFine(w, q.(proc := Woken(q.proc.inst, false, q.proc.reliable, q.proc.reorder)))
  {
  }

  lemma FinalCheckMoves(w: World, q: Request)
    requires SystemFine(w) && RequestFine(w, q) && q.proc.Woken? && q.proc.inst < |w.instances|
    ensures RequestFine(w, q.(proc := Decided(q.proc.ok && !Dead(w, q, q.proc.inst), q.proc.reliable, q.proc.reorder)))
  {
    if q.proc.ok && !Dead(w, q, q.proc.inst) {
      CheckConfirms(w, q, q.proc.inst);
    }
  }

  lemma DelayMoves(w: World, q: Request)
    requires RequestFine(w, q) && q.proc.Decided? && q.proc.alive
    ensures RequestFine(w, q.(proc := Delayed))
  {
  }

  /** A request may be answered false at any time before it is answered, and true once confirmed. */
  lemma AnswerMoves(w: World, q: Request, ok: bool)
    requires RequestFine(w, q) && !q.proc.Finished?
    requires ok ==> q.proc.Delayed? || (q.proc.Decided? && q.proc.alive)
    ensures RequestFine(w, Answer(q, ok))
  {
    var a := Answer(q, ok);
    assert a.replies == [ok];
  }

  lemma MovedByHandler(w: World, e: Event)
    requires Fine(w) && Can(w, e) && IsHandlerEvent(e)
    ensures RequestFine(Effect(w, e), Moved(w, e))
  {
    hide RequestFine, SystemFine;
    var q := w.reqs[e.r];
    assert RequestFine(w, q);
    if e.Dispatch? {
      DispatchMoves(w, q);
      SameRequests(w, Effect(w, e), Moved(w, e));
    } else if e.HandlerSave? {
      HandlerSaveMoves(w, q, e.data);
    } else {
      HandlerEnds(w, q);
    }
  }

  lemma MovedByProc(w: World, e: Event)
    requires Fine(w) && Can(w, e) && IsProcEvent(e)
    ensures RequestFine(w, Moved(w, e))
  {
    hide RequestFine, SystemFine;
    var q := w.reqs[e.r];
    assert RequestFine(w, q);
    if e.ReadInfo? {
      ReadInfoMoves(w, q);
    } else if e.Spawn? {
      SpawnMoves(w, q);
    } else if e.Collect? {
      CollectMoves(w, q);
    } else if e.Poll? {
      PollMoves(w, q);
    } else if e.FinalCheck? {
      FinalCheckMoves(w, q);
    } else if e.Delay? {
      DelayMoves(w, q);
    } else {
      AnswerMoves(w, q, e.Reply? && (q.proc.Delayed? || (q.proc.Decided? && q.proc.alive)));
    }
  }

  /** RequestFine reads Persisters, slots, and what instances were built with. */
  lemma SameRequests(w: World, v: World, q: Request)
    requires RequestFine(w, q) && v.persisters == w.persisters && v.slots == w.slots
    requires |v.instances| == |w.instances|
    requires forall i | 0 <= i < |w.instances| ::
               v.instances[i].pers == w.instances[i].pers && v.instances[i].name == w.instances[i].name
    ensures RequestFine(v, q)
  {
  }

  /** A step changes at most one request, or issues one. */
  lemma OneRequestMoves(w: World, e: Event)
    requires Can(w, e)
    ensures IsRequestEvent(e) ==> e.r < |w.reqs| && Do(w, e).reqs == w.reqs[e.r := Moved(w, e)]
    ensures e.Issue? ==> Do(w, e).reqs == w.reqs + [Request(e.end, Sent, Idle, 0, [])]
    ensures !IsRequestEvent(e) && !e.Issue? ==> Do(w, e).reqs == w.reqs
  {
    hide Moved;
  }

  lemma OthersKeepStill(w: World, e: Event, r: nat)
    requires Can(w, e) && r < |w.reqs|
    requires IsRequestEvent(e) ==> e.r != r
    ensures |Do(w, e).reqs| >= |w.reqs| && Do(w, e).reqs[r] == w.reqs[r]
  {
    hide Can, Do, Moved;
    OneRequestMoves(w, e);
  }

  lemma IssueAdds(w: World, e: Event, r: nat)
    requires Can(w, e) && |w.reqs| <= r < |Do(w, e).reqs|
    ensures RequestFine(Do(w, e), Do(w, e).reqs[r])
  {
    hide Can, Do, Moved;
    OneRequestMoves(w, e);
  }

  lemma MovedRequestIsFine(w: World, e: Event)
    requires Fine(w) && Can(w, e) && IsRequestEvent(e)
    ensures e.r < |Do(w, e).reqs| && Do(w, e).reqs[e.r] == Moved(w, e) && RequestFine(Do(w, e), Moved(w, e))
  {
    hide RequestFine, SystemFine, Moved;
    if IsHandlerEvent(e) {
      MovedByHandler(w, e);
    } else {
      MovedByProc(w, e);
    }
    SameRequests(Effect(w, e), Do(w, e), Moved(w, e));
  }

  lemma StepKeepsFine(w: World, e: Event)
    requires Fine(w) && Can(w, e)
    ensures Fine(Do(w, e))
  {
    hide Do, Can, SystemFine, RequestFine, Grows;
    SystemStaysFine(w, e);
    EveryStepGrows(w, e);
    forall r: nat | r < |Do(w, e).reqs|
      ensures RequestFine(Do(w, e), Do(w, e).reqs[r])
    {
      if IsRequestEvent(e) && r == e.r {
        MovedRequestIsFine(w, e);
      } else if r < |w.reqs| {
        OthersKeepStill(w, e, r);
        RequestStaysFine(w, Do(w, e), w.reqs[r]);
      } else {
        IssueAdds(w, e, r);
      }
    }
  }

  lemma {:induction false} ReachableIsFine(start: World, es: seq<Event>)
    requires Initial(start) && Possible(start, es)
    ensures Fine(After(start, es))
    decreases |es|
  {
    hide Do, Can;
    if es != [] {
      ReachableIsFine(start, es[..|es| - 1]);
      StepKeepsFine(After(start, es[..|es| - 1]), es[|es| - 1]);
    }
  }

  // ---------- main results ----------

  /** Call has returned true for request r. */
  ghost predicate AnsweredTrue(start: World, es: seq<Event>, r: nat)
    requires Possible(start, es)
  {
    r < |After(start, es).reqs| && true in After(start, es).reqs[r].replies
  }

  /** However handlers, crashes and restarts interleave: once Call returns true, everything the handler saved
      is in the Persister kept for the server name, whatever has happened to the server since, and in the
      Persister of any instance that now runs under that name. */
  lemma AcknowledgedSavesSurvive(start: World, es: seq<Event>, r: nat)
    requires Initial(start) && Possible(start, es) && AnsweredTrue(start, es, r)
    ensures var w := After(start, es);
      var h := w.reqs[r].handler;
      && h.Collected? && h.inst < |w.instances|
      && var n := w.instances[h.inst].name;
      && Durable(w, n, h.marks)
      && forall i: nat | w.slots[n].phase == Built(i) || w.slots[n].phase == Up(i) ::
           HasInstance(w, i) && MarksIn(w.persisters[w.instances[i].pers], h.marks)
  {
    ReachableIsFine(start, es);
    var w := After(start, es);
    assert RequestFine(w, w.reqs[r]);
    assert SlotFine(w, w.instances[w.reqs[r].handler.inst].name);
  }

  /** An instance that a shutdown has replaced can go on saving, but not into any state that is kept. */
  lemma ReplacedInstanceWritesNowhere(start: World, es: seq<Event>, inst: nat, data: Data, n: Name)
    requires Initial(start) && Possible(start, es)
    requires var w := After(start, es);
      && HasInstance(w, inst) && n in w.slots && SlotOk(w, n) && w.slots[n].saved.Some?
      && w.slots[n].phase != Built(inst) && w.slots[n].phase != Up(inst) && w.slots[n].phase != Deleted(Some(inst))
    ensures var w, v := After(start, es), SaveAt(After(start, es), inst, data);
      SlotOk(v, n) && v.slots[n] == w.slots[n]
      && v.persisters[v.slots[n].saved.value] == w.persisters[w.slots[n].saved.value]
  {
    ReachableIsFine(start, es);
    assert SlotFine(After(start, es), n);
  }

  /** A request is dispatched at most once and answered at most once. */
  lemma AtMostOnce(start: World, es: seq<Event>, r: nat)
    requires Initial(start) && Possible(start, es) && r < |After(start, es).reqs|
    ensures After(start, es).reqs[r].dispatches <= 1
    ensures |After(start, es).reqs[r].replies| <= 1
  {
    ReachableIsFine(start, es);
    assert RequestFine(After(start, es), After(start, es).reqs[r]);
  }

  /** The last check found the handler done, and its server registered and the client's end enabled. */
  ghost predicate PositiveCheck(start: World, es: seq<Event>, k: nat, r: nat)
    requires Possible(start, es)
  {
    && k < |es| && es[k] == FinalCheck(r) && Possible(start, es[..k])
    && var w := After(start, es[..k]);
       && r < |w.reqs| && w.reqs[r].handler.Collected?
       && var q := w.reqs[r];
       && q.dispatches == 1 && q.handler.inst < |w.instances|
       && w.net.IsEnabled(q.end)
       && var n := w.instances[q.handler.inst].name;
       && n in w.net.servers && w.net.servers[n] == q.handler.inst
  }

  ghost predicate Positive(q: Request) {
    (q.proc.Decided? && q.proc.alive) || q.proc.Delayed? || true in q.replies
  }

  lemma MovedToPositive(w: World, e: Event)
    requires Fine(w) && Can(w, e) && IsRequestEvent(e) && Positive(Moved(w, e))
    ensures Positive(w.reqs[e.r]) ||
            (e.FinalCheck? && w.reqs[e.r].proc.ok && !Dead(w, w.reqs[e.r], w.reqs[e.r].proc.inst))
  {
    assert RequestFine(w, w.reqs[e.r]);
  }

  lemma NewIsNotPositive(w: World, e: Event, r: nat)
    requires Can(w, e) && |w.reqs| <= r < |Do(w, e).reqs|
    ensures !Positive(Do(w, e).reqs[r])
  {
    hide Can, Do, Moved;
    OneRequestMoves(w, e);
  }

  lemma BecomesPositive(w: World, e: Event, r: nat)
    requires Fine(w) && Can(w, e) && r < |Do(w, e).reqs| && Positive(Do(w, e).reqs[r])
    ensures r < |w.reqs|
    ensures Positive(w.reqs[r]) || (e == FinalCheck(r) && w.reqs[r].proc.Woken? && w.reqs[r].proc.ok
              && w.reqs[r].proc.inst < |w.instances| && !Dead(w, w.reqs[r], w.reqs[r].proc.inst))
  {
    if |w.reqs| <= r {
      NewIsNotPositive(w, e, r);
    } else if IsRequestEvent(e) && e.r == r {
      MovedToPositive(w, e);
    } else {
      OthersKeepStill(w, e, r);
    }
  }

  lemma CheckWasPositive(start: World, es: seq<Event>, r: nat)
    requires Initial(start) && Possible(start, es) && es != [] && es[|es| - 1] == FinalCheck(r)
    requires var w := After(start, es[..|es| - 1]);
      w.reqs[r].proc.ok && !Dead(w, w.reqs[r], w.reqs[r].proc.inst)
    ensures PositiveCheck(start, es, |es| - 1, r)
  {
    ReachableIsFine(start, es[..|es| - 1]);
    var w := After(start, es[..|es| - 1]);
    assert RequestFine(w, w.reqs[r]);
  }

  lemma EarlierCheckCounts(start: World, es: seq<Event>, k: nat, r: nat)
    requires Possible(start, es) && es != [] && PositiveCheck(start, es[..|es| - 1], k, r)
    ensures PositiveCheck(start, es, k, r)
  {
    hide Do, Can;
    assert es[..|es| - 1][..k] == es[..k];
  }

  /** Behind every true reply there is such a check, made after the handler had completed. */
  lemma {:induction false} TrueReplyHadPositiveCheck(start: World, es: seq<Event>, r: nat) returns (k: nat)
    requires Initial(start) && Possible(start, es)
    requires r < |After(start, es).reqs| && Positive(After(start, es).reqs[r])
    ensures PositiveCheck(start, es, k, r)
    decreases |es|
  {
    hide Do, Can;
    assert es != [];
    var init := es[..|es| - 1];
    ReachableIsFine(start, init);
    BecomesPositive(After(start, init), es[|es| - 1], r);
    if Positive(After(start, init).reqs[r]) {
      k := TrueReplyHadPositiveCheck(start, init, r);
      EarlierCheckCounts(start, es, k, r);
    } else {
      k := |es| - 1;
      CheckWasPositive(start, es, r);
    }
  }

  // ---------- why a reply is false ----------

  /** The k-th event routed request r: its end led to inst, and these were the network's flags. */
  ghost predicate RoutedAt(start: World, es: seq<Event>, k: nat, r: nat, inst: nat, reliable: bool, reorder: bool)
    requires Possible(start, es)
  {
    && k < |es| && es[k] == ReadInfo(r) && Possible(start, es[..k])
    && var w := After(start, es[..k]);
       && r < |w.reqs| && w.net.reliable == reliable && w.net.longReordering == reorder
       && w.net.Target(w.reqs[r].end).Some? && w.net.Target(w.reqs[r].end).value.1 == inst
  }

  /** The k-th event settled that request r fails: there was nowhere to send it, the unreliable network dropped
      the request or the reply, or its server was found dead while the handler ran or after. */
  ghost predicate FailsAt(start: World, es: seq<Event>, k: nat, r: nat)
    requires Possible(start, es)
  {
    && k < |es| && Possible(start, es[..k])
    && var w := After(start, es[..k]);
       && r < |w.reqs| && Fails(w, es[k], r)
  }

  ghost predicate Fails(w: World, e: Event, r: nat)
    requires r < |w.reqs|
  {
    var q := w.reqs[r];
    || (e == ReadInfo(r) && w.net.Target(q.end).None?)
    || (e == DropRequest(r) && q.proc.Chosen? && !q.proc.reliable)
    || (e == DropReply(r) && q.proc.Decided? && !q.proc.reliable)
    || ((e == Poll(r) || e == FinalCheck(r)) && (q.proc.Waiting? || q.proc.Woken?)
        && q.proc.inst < |w.instances| && Dead(w, q, q.proc.inst))
  }

  /** The request is bound to fail, or has failed. */
  ghost predicate Failing(q: Request) {
    || q.proc.Refused? || (q.proc.Woken? && !q.proc.ok) || (q.proc.Decided? && !q.proc.alive)
    || false in q.replies
  }

  lemma MovedToFailing(w: World, e: Event)
    requires Fine(w) && Can(w, e) && IsRequestEvent(e) && Failing(Moved(w, e))
    ensures Failing(w.reqs[e.r]) || Fails(w, e, e.r)
  {
    assert RequestFine(w, w.reqs[e.r]);
  }

  lemma BecomesFailing(w: World, e: Event, r: nat)
    requires Fine(w) && Can(w, e) && r < |Do(w, e).reqs| && Failing(Do(w, e).reqs[r])
    ensures r < |w.reqs| && (Failing(w.reqs[r]) || Fails(w, e, r))
  {
    hide Can, Do, Moved, Fine;
    OneRequestMoves(w, e);
    if IsRequestEvent(e) && e.r == r {
      MovedToFailing(w, e);
    }
  }

  lemma EarlierFailureCounts(start: World, es: seq<Event>, k: nat, r: nat)
    requires Possible(start, es) && es != [] && FailsAt(start, es[..|es| - 1], k, r)
    ensures FailsAt(start, es, k, r)
  {
    hide Do, Can, Fails;
    assert es[..|es| - 1][..k] == es[..k];
  }

  /** Behind every false reply is such a failure: a request that is routed, not dropped, and served by a server
      that stays alive is never answered false. */
  lemma {:induction false} FalseReplyHadFailure(start: World, es: seq<Event>, r: nat) returns (k: nat)
    requires Initial(start) && Possible(start, es)
    requires r < |After(start, es).reqs| && Failing(After(start, es).reqs[r])
    ensures FailsAt(start, es, k, r)
    decreases |es|
  {
    hide Do, Can, Failing, Fails;
    assert es != [];
    var init := es[..|es| - 1];
    ReachableIsFine(start, init);
    BecomesFailing(After(start, init), es[|es| - 1], r);
    if Failing(After(start, init).reqs[r]) {
      k := FalseReplyHadFailure(start, init, r);
      EarlierFailureCounts(start, es, k, r);
    } else {
      k := |es| - 1;
    }
  }

  /** The request has been routed to inst under these flags. */
  ghost predicate Routed(q: Request, inst: nat, reliable: bool, reorder: bool) {
    match q.proc
    case Chosen(i, rel, reo) => i == inst && rel == reliable && reo == reorder
    case Waiting(i, rel, reo) => i == inst && rel == reliable && reo == reorder
    case Woken(i, _, rel, reo) => i == inst && rel == reliable && reo == reorder
    case Decided(_, rel, reo) => !q.handler.Idle? && q.handler.inst == inst && rel == reliable && reo == reorder
    case _ => false
  }

  lemma MovedToRouted(w: World, e: Event, inst: nat, reliable: bool, reorder: bool)
    requires Fine(w) && Can(w, e) && IsRequestEvent(e) && Routed(Moved(w, e), inst, reliable, reorder)
    ensures Routed(w.reqs[e.r], inst, reliable, reorder) ||
            (e.ReadInfo? && w.net.reliable == reliable && w.net.longReordering == reorder
             && w.net.Target(w.reqs[e.r].end).Some? && w.net.Target(w.reqs[e.r].end).value.1 == inst)
  {
    assert RequestFine(w, w.reqs[e.r]);
  }

  lemma BecomesRouted(w: World, e: Event, r: nat, inst: nat, reliable: bool, reorder: bool)
    requires Fine(w) && Can(w, e) && r < |Do(w, e).reqs| && Routed(Do(w, e).reqs[r], inst, reliable, reorder)
    ensures r < |w.reqs|
    ensures Routed(w.reqs[r], inst, reliable, reorder) ||
            (e == ReadInfo(r) && w.net.reliable == reliable && w.net.longReordering == reorder
             && w.net.Target(w.reqs[r].end).Some? && w.net.Target(w.reqs[r].end).value.1 == inst)
  {
    hide Can, Do, Moved, Fine;
    OneRequestMoves(w, e);
    if IsRequestEvent(e) && e.r == r {
      MovedToRouted(w, e, inst, reliable, reorder);
    }
  }

  lemma EarlierRoutingCounts(start: World, es: seq<Event>, k: nat, r: nat, inst: nat, reliable: bool, reorder: bool)
    requires Possible(start, es) && es != [] && RoutedAt(start, es[..|es| - 1], k, r, inst, reliable, reorder)
    ensures RoutedAt(start, es, k, r, inst, reliable, reorder)
  {
    hide Do, Can;
    assert es[..|es| - 1][..k] == es[..k];
  }

  /** processReq works with what it read at the start: the server its end led to then, and the flags of then. So
      a request or reply is dropped only if the network was unreliable when the request was routed, and a reply
      is delayed only if it was reordering then. */
  lemma {:induction false} RoutedOnce(start: World, es: seq<Event>, r: nat, inst: nat, reliable: bool, reorder: bool)
    returns (k: nat)
    requires Initial(start) && Possible(start, es)
    requires r < |After(start, es).reqs| && Routed(After(start, es).reqs[r], inst, reliable, reorder)
    ensures RoutedAt(start, es, k, r, inst, reliable, reorder)
    decreases |es|
  {
    hide Do, Can, Routed;
    assert es != [];
    var init := es[..|es| - 1];
    ReachableIsFine(start, init);
    BecomesRouted(After(start, init), es[|es| - 1], r, inst, reliable, reorder);
    if Routed(After(start, init).reqs[r], inst, reliable, reorder) {
      k := RoutedOnce(start, init, r, inst, reliable, reorder);
      EarlierRoutingCounts(start, es, k, r, inst, reliable, reorder);
    } else {
      k := |es| - 1;
    }
  }

  lemma SpawnsWhereRouted(w: World, e: Event, r: nat)
    requires Fine(w) && Can(w, e) && r < |Do(w, e).reqs| && !Do(w, e).reqs[r].handler.Idle?
    ensures r < |w.reqs|
    ensures !w.reqs[r].handler.Idle? ==> w.reqs[r].handler.inst == Do(w, e).reqs[r].handler.inst
    ensures w.reqs[r].handler.Idle? ==>
              w.reqs[r].proc.Chosen? && w.reqs[r].proc.inst == Do(w, e).reqs[r].handler.inst
  {
    hide Can, Do, Moved, SystemFine, RequestFine;
    OneRequestMoves(w, e);
    if IsRequestEvent(e) && e.r == r {
      SpawnIsRouted(w, e);
    }
  }

  lemma SpawnIsRouted(w: World, e: Event)
    requires Can(w, e) && IsRequestEvent(e) && RequestFine(w, w.reqs[e.r])
    ensures !Moved(w, e).handler.Idle? ==>
              if w.reqs[e.r].handler.Idle?
              then w.reqs[e.r].proc.Chosen? && w.reqs[e.r].proc.inst == Moved(w, e).handler.inst
              else w.reqs[e.r].handler.inst == Moved(w, e).handler.inst
  {
  }

  /** A handler runs on the server the client's end led to when the request was routed. */
  lemma {:induction false} HandlerRunsWhereRouted(start: World, es: seq<Event>, r: nat)
    returns (k: nat, reliable: bool, reorder: bool)
    requires Initial(start) && Possible(start, es)
    requires r < |After(start, es).reqs| && !After(start, es).reqs[r].handler.Idle?
    ensures RoutedAt(start, es, k, r, After(start, es).reqs[r].handler.inst, reliable, reorder)
    decreases |es|
  {
    hide Do, Can;
    assert es != [];
    var init := es[..|es| - 1];
    ReachableIsFine(start, init);
    SpawnsWhereRouted(After(start, init), es[|es| - 1], r);
    var q := After(start, init).reqs[r];
    if !q.handler.Idle? {
      k, reliable, reorder := HandlerRunsWhereRouted(start, init, r);
    } else {
      reliable, reorder := q.proc.reliable, q.proc.reorder;
      k := RoutedOnce(start, init, r, q.proc.inst, reliable, reorder);
    }
    EarlierRoutingCounts(start, es, k, r, After(start, es).reqs[r].handler.inst, reliable, reorder);
  }

  lemma FlagsWhenRouted(w: World, e: Event)
    requires Fine(w) && Can(w, e) && (e.DropRequest? || e.DropReply? || e.Delay?)
    ensures var q := w.reqs[e.r];
      && (q.proc.Chosen? || q.proc.Decided?)
      && Routed(q, if q.proc.Chosen? then q.proc.inst else q.handler.inst, q.proc.reliable, q.proc.reorder)
      && (if e.Delay? then q.proc.reorder else !q.proc.reliable)
  {
    assert RequestFine(w, w.reqs[e.r]);
  }

  /** A request or a reply is dropped only if the network was unreliable when the request was routed, and a reply is
      delayed only if the network was reordering then. */
  lemma FaultsFollowFlags(start: World, es: seq<Event>, e: Event) returns (k: nat, inst: nat, rel: bool, reo: bool)
    requires Initial(start) && Possible(start, es) && Can(After(start, es), e)
    requires e.DropRequest? || e.DropReply? || e.Delay?
    ensures RoutedAt(start, es, k, e.r, inst, rel, reo)
    ensures if e.Delay? then reo else !rel
  {
    ReachableIsFine(start, es);
    var w := After(start, es);
    FlagsWhenRouted(w, e);
    var q := w.reqs[e.r];
    assert e.r < |w.reqs|;
    inst, rel, reo := if q.proc.Chosen? then q.proc.inst else q.handler.inst, q.proc.reliable, q.proc.reorder;
    k := RoutedOnce(start, es, e.r, inst, rel, reo);
  }

  /** If every save keeps what the one before it held, the kept state holds everything acknowledged. */
  lemma {:induction false} CumulativeSaves(p: Stored, i: nat, holds: (Data, Data) -> bool)
    requires PersisterFine(p) && i < |p.saves|
    requires forall d :: holds(d, d)
    requires forall c, d, e :: holds(c, d) && holds(d, e) ==> holds(c, e)
    requires forall j | 0 < j < |p.saves| :: holds(p.saves[j], p.saves[j - 1])
    ensures holds(p.data, p.saves[i])
    decreases |p.saves| - i
  {
    if i + 1 < |p.saves| {
      CumulativeSaves(p, i + 1, holds);
      assert holds(p.saves[i + 1], p.saves[i]);
    }
  }

  // ---------- the dispatch count ----------

  ghost predicate DispatchedTo(q: Request, inst: nat) {
    (q.handler.Running? || q.handler.Ready? || q.handler.Collected?) && q.handler.inst == inst
  }

  function CountDispatched(reqs: seq<Request>, inst: nat): nat {
    if reqs == [] then 0 else
      var h := reqs[|reqs| - 1].handler;
      CountDispatched(reqs[..|reqs| - 1], inst)
      + if (h.Running? || h.Ready? || h.Collected?) && h.inst == inst then 1 else 0
  }

  lemma {:induction false} CountAfterUpdate(reqs: seq<Request>, r: nat, q: Request, inst: nat)
    requires r < |reqs|
    ensures CountDispatched(reqs[r := q], inst)
         == CountDispatched(reqs, inst) - (if DispatchedTo(reqs[r], inst) then 1 else 0)
          + (if DispatchedTo(q, inst) then 1 else 0)
    decreases |reqs|
  {
    var n := |reqs| - 1;
    if r < n {
      CountAfterUpdate(reqs[..n], r, q, inst);
      assert reqs[r := q][..n] == reqs[..n][r := q];
    } else {
      assert reqs[r := q][..n] == reqs[..n];
    }
  }

  ghost predicate Counted(w: World) {
    && (forall i: nat | i < |w.instances| :: w.instances[i].count == CountDispatched(w.reqs, i))
    && (forall i: nat | i >= |w.instances| :: CountDispatched(w.reqs, i) == 0)
  }

  /** The instance a step dispatches to, if any. */
  ghost predicate Dispatches(w: World, e: Event, inst: nat)
    requires Can(w, e)
  {
    e.Dispatch? && w.reqs[e.r].handler.inst == inst
  }

  lemma ProcDispatchesNothing(w: World, e: Event, inst: nat)
    requires Can(w, e) && IsProcEvent(e) && ProcFine(w, w.reqs[e.r])
    ensures DispatchedTo(Moved(w, e), inst) <==> DispatchedTo(w.reqs[e.r], inst)
  {
  }

  lemma OnlyDispatchCounts(w: World, e: Event, inst: nat)
    requires Fine(w) && Can(w, e) && IsRequestEvent(e)
    ensures DispatchedTo(Moved(w, e), inst) <==> DispatchedTo(w.reqs[e.r], inst) || Dispatches(w, e, inst)
    ensures Dispatches(w, e, inst) ==> !DispatchedTo(w.reqs[e.r], inst)
  {
    hide SystemFine, HandlerFine, ProcFine;
    assert RequestFine(w, w.reqs[e.r]);
    if IsProcEvent(e) {
      ProcDispatchesNothing(w, e, inst);
    }
  }

  lemma CountMoves(w: World, e: Event, inst: nat)
    requires Fine(w) && Can(w, e)
    ensures CountDispatched(Do(w, e).reqs, inst)
         == CountDispatched(w.reqs, inst) + if Dispatches(w, e, inst) then 1 else 0
  {
    hide Can, Do, Moved, Fine;
    OneRequestMoves(w, e);
    if IsRequestEvent(e) {
      OnlyDispatchCounts(w, e, inst);
      CountAfterUpdate(w.reqs, e.r, Moved(w, e), inst);
    } else if e.Issue? {
      assert Do(w, e).reqs[..|w.reqs|] == w.reqs;
    }
  }

  /** Only a dispatch changes a count, and new instances start at 0. */
  lemma InstanceCounts(w: World, e: Event)
    requires Can(w, e)
    ensures |w.instances| <= |Do(w, e).instances|
    ensures forall i: nat | i < |w.instances| ::
              Do(w, e).instances[i].count == w.instances[i].count + if Dispatches(w, e, i) then 1 else 0
    ensures forall i: nat | |w.instances| <= i < |Do(w, e).instances| :: Do(w, e).instances[i].count == 0
    ensures forall i: nat | |w.instances| <= i :: !Dispatches(w, e, i)
  {
  }

  lemma StepKeepsCount(w: World, e: Event)
    requires Fine(w) && Can(w, e) && Counted(w)
    ensures Counted(Do(w, e))
  {
    hide Do, Can, Fine, Dispatches;
    var v := Do(w, e);
    InstanceCounts(w, e);
    forall i: nat
      ensures i < |v.instances| ==> v.instances[i].count == CountDispatched(v.reqs, i)
      ensures i >= |v.instances| ==> CountDispatched(v.reqs, i) == 0
    {
      CountMoves(w, e, i);
    }
  }

  /** GetCount: the count of a server is the number of requests dispatched to it. */
  lemma {:induction false} CountsAreExact(start: World, es: seq<Event>)
    requires Initial(start) && Possible(start, es)
    ensures Counted(After(start, es))
    decreases |es|
  {
    hide Do, Can;
    if es != [] {
      CountsAreExact(start, es[..|es| - 1]);
      ReachableIsFine(start, es[..|es| - 1]);
      StepKeepsCount(After(start, es[..|es| - 1]), es[|es| - 1]);
    }
  }

  // ---------- why DeleteServer comes before the copy ----------

  // single steps, spelled out

  lemma StartCopyStep(w: World, n: Name)
    requires n in w.slots && w.slots[n] == Slot(None, Down)
    ensures Can(w, StartCopy(n)) && Do(w, StartCopy(n)) == CopySaved(w, n, Prepared)
  {
  }

  lemma BuildStep(w: World, n: Name)
    requires SlotOk(w, n) && w.slots[n].phase.Prepared? && w.slots[n].saved.Some?
    ensures Can(w, Build(n)) && Do(w, Build(n)) == BuildInstance(w, n)
  {
  }

  lemma AddServerStep(w: World, n: Name)
    requires SlotOk(w, n) && w.slots[n].phase.Built?
    ensures Can(w, AddServer(n)) && Do(w, AddServer(n)) == Register(w, n, w.slots[n].phase.inst)
  {
  }

  lemma NetSteps(w: World, end: End, n: Name)
    ensures Can(w, SetFlags(true, false))
    ensures Do(w, SetFlags(true, false)) == w.(net := w.net.(reliable := true, longReordering := false))
    ensures Can(w, Connect(end, n))
    ensures Do(w, Connect(end, n)) == w.(net := w.net.(connections := w.net.connections[end := n]))
    ensures Can(w, Enable(end, true))
    ensures Do(w, Enable(end, true)) == w.(net := w.net.(enabled := w.net.enabled[end := true]))
  {
  }

  lemma IssueStep(w: World, end: End)
    ensures Can(w, Issue(end)) && Do(w, Issue(end)) == w.(reqs := w.reqs + [Request(end, Sent, Idle, 0, [])])
  {
  }

  lemma ReadInfoStep(w: World, r: nat)
    requires r < |w.reqs| && w.reqs[r].proc.Sent? && w.net.Target(w.reqs[r].end).Some?
    ensures Can(w, ReadInfo(r))
    ensures Do(w, ReadInfo(r)) == SetReq(w, r, w.reqs[r].(
              proc := Chosen(w.net.Target(w.reqs[r].end).value.1, w.net.reliable, w.net.longReordering)))
  {
  }

  lemma SpawnStep(w: World, r: nat)
    requires r < |w.reqs| && w.reqs[r].proc.Chosen?
    ensures Can(w, Spawn(r))
    ensures var p := w.reqs[r].proc;
      Do(w, Spawn(r)) == SetReq(w, r, w.reqs[r].(
        proc := Waiting(p.inst, p.reliable, p.reorder), handler := Spawned(p.inst)))
  {
  }

  lemma DispatchStep(w: World, r: nat)
    requires r < |w.reqs| && w.reqs[r].handler.Spawned? && w.reqs[r].handler.inst < |w.instances|
    ensures Can(w, Dispatch(r))
    ensures var q := w.reqs[r];
      Do(w, Dispatch(r)) == SetReq(CountOne(w, q.handler.inst), r, q.(
        handler := Running(q.handler.inst, []), dispatches := q.dispatches + 1))
  {
  }

  lemma SaveReturnCollectSteps(w: World, r: nat, data: Data)
    requires r < |w.reqs|
    ensures var q := w.reqs[r];
      q.handler.Running? && HasInstance(w, q.handler.inst) ==>
        && Can(w, HandlerSave(r, data))
        && var mark := Mark(|w.persisters[w.instances[q.handler.inst].pers].saves|, data);
           Do(w, HandlerSave(r, data)) == SetReq(SaveAt(w, q.handler.inst, data), r, q.(
             handler := Running(q.handler.inst, q.handler.marks + [mark])))
    ensures var q := w.reqs[r];
      q.handler.Running? ==>
        && Can(w, Return(r))
        && Do(w, Return(r)) == SetReq(w, r, q.(handler := Ready(q.handler.inst, q.handler.marks)))
    ensures var q := w.reqs[r];
      q.handler.Ready? && q.proc.Waiting? ==>
        && Can(w, Collect(r))
        && Do(w, Collect(r)) == SetReq(w, r, q.(
             proc := Woken(q.proc.inst, true, q.proc.reliable, q.proc.reorder),
             handler := Collected(q.handler.inst, q.handler.marks)))
  {
  }

  lemma CheckReplySteps(w: World, r: nat)
    requires r < |w.reqs|
    ensures var q := w.reqs[r];
      q.proc.Woken? && q.proc.inst < |w.instances| ==>
        && Can(w, FinalCheck(r))
        && Do(w, FinalCheck(r)) == SetReq(w, r, q.(
             proc := Decided(q.proc.ok && !Dead(w, q, q.proc.inst), q.proc.reliable, q.proc.reorder)))
    ensures var q := w.reqs[r];
      q.proc.Decided? ==> Can(w, Reply(r)) && Do(w, Reply(r)) == SetReq(w, r, Answer(q, q.proc.alive))
  {
  }

  /** The handler saves and returns, and the request is answered. */
  function Finishing(r: nat, data: Data): seq<Event> {
    [HandlerSave(r, data), Return(r), Collect(r), FinalCheck(r), Reply(r)]
  }

  /** A request whose handler has just begun, on the reliable network. */
  ghost predicate JustBegun(w: World, r: nat, inst: nat) {
    && HasInstance(w, inst) && r < |w.reqs|
    && w.reqs[r].handler == Running(inst, []) && w.reqs[r].proc == Waiting(inst, true, false)
    && !Dead(w, w.reqs[r], inst)
  }

  lemma HandlerCompletes(u: World, r: nat, inst: nat, data: Data) returns (v: World)
    requires JustBegun(u, r, inst)
    ensures Possible(u, Finishing(r, data)[..3]) && v == After(u, Finishing(r, data)[..3])
    ensures v.net == u.net && v.slots == u.slots && v.instances == u.instances
    ensures v.persisters == SaveAt(u, inst, data).persisters
    ensures r < |v.reqs| && v.reqs[r].end == u.reqs[r].end && v.reqs[r].replies == u.reqs[r].replies
    ensures v.reqs[r].proc == Woken(inst, true, true, false)
    ensures v.reqs[r].handler == Collected(inst, [Mark(|u.persisters[u.instances[inst].pers].saves|, data)])
  {
    hide Can, Do;
    var es := Finishing(r, data);
    SaveReturnCollectSteps(u, r, data);
    OneMore(u, [], es[0]);
    assert [] + [es[0]] == [es[0]];
    SaveReturnCollectSteps(After(u, [es[0]]), r, data);
    OneMore(u, [es[0]], es[1]);
    SaveReturnCollectSteps(After(u, [es[0]] + [es[1]]), r, data);
    OneMore(u, [es[0]] + [es[1]], es[2]);
    assert es[..3] == [es[0]] + [es[1]] + [es[2]];
    v := After(u, es[..3]);
  }

  lemma CheckedAndAnswered(u: World, es: seq<Event>, w: World, r: nat, inst: nat) returns (v: World)
    requires Possible(u, es) && w == After(u, es)
    requires r < |w.reqs| && HasInstance(w, inst)
    requires w.reqs[r].proc == Woken(inst, true, true, false) && !Dead(w, w.reqs[r], inst)
    ensures Possible(u, es + [FinalCheck(r)] + [Reply(r)]) && v == After(u, es + [FinalCheck(r)] + [Reply(r)])
    ensures v.slots == w.slots && v.persisters == w.persisters
    ensures r < |v.reqs| && v.reqs[r].handler == w.reqs[r].handler
    ensures v.reqs[r].replies == w.reqs[r].replies + [true]
  {
    hide Can, Do;
    CheckReplySteps(w, r);
    OneMore(u, es, FinalCheck(r));
    CheckReplySteps(After(u, es + [FinalCheck(r)]), r);
    OneMore(u, es + [FinalCheck(r)], Reply(r));
    v := After(u, es + [FinalCheck(r)] + [Reply(r)]);
  }

  /** Had the Persister been copied while the server was still registered, a handler could save, pass the last
      check and be answered true with its save missing from the copy. */
  lemma CopyBeforeDeleteLosesSaves(w: World, n: Name, r: nat, data: Data) returns (v: World)
    requires Fine(w) && n in w.slots && w.slots[n].phase.Up? && JustBegun(w, r, w.slots[n].phase.inst)
    ensures var copied := CopySaved(w, n, w.slots[n].phase);
      Possible(copied, Finishing(r, data)) && v == After(copied, Finishing(r, data))
    ensures r < |v.reqs| && true in v.reqs[r].replies
    ensures v.reqs[r].handler.Collected? && !Durable(v, n, v.reqs[r].handler.marks)
  {
    hide Do, Can;
    assert SlotFine(w, n);
    var inst := w.slots[n].phase.inst;
    var copied := CopySaved(w, n, w.slots[n].phase);
    var es := Finishing(r, data);
    var collected := HandlerCompletes(copied, r, inst, data);
    v := CheckedAndAnswered(copied, es[..3], collected, r, inst);
    assert es == es[..3] + [es[3]] + [es[4]];
    var replies := v.reqs[r].replies;
    assert replies[|replies| - 1];
    NotInTheCopy(w, n, v, v.reqs[r].handler.marks);
  }

  /** A server is started and reachable. */
  ghost predicate Serving(w: World, n: Name, end: End) {
    && SlotOk(w, n) && w.slots[n].phase == Up(0) && HasInstance(w, 0) && w.instances[0].name == n && w.reqs == []
    && w.net.Target(end) == Some((n, 0)) && w.net.reliable && !w.net.longReordering
  }

  lemma StartsServing(start: World, n: Name, end: End) returns (es: seq<Event>)
    requires Initial(start) && n in start.slots
    ensures Possible(start, es) && Serving(After(start, es), n, end)
  {
    hide Do, Can;
    StartCopyStep(start, n);
    OneMore(start, [], StartCopy(n));
    es := [] + [StartCopy(n)];
    BuildStep(After(start, es), n);
    OneMore(start, es, Build(n));
    es := es + [Build(n)];
    AddServerStep(After(start, es), n);
    OneMore(start, es, AddServer(n));
    es := Plugged(start, es + [AddServer(n)], n, end);
  }

  lemma Plugged(start: World, s: seq<Event>, n: Name, end: End) returns (es: seq<Event>)
    requires Possible(start, s)
    requires var w := After(start, s);
      && SlotOk(w, n) && w.slots[n].phase == Up(0) && HasInstance(w, 0) && w.instances[0].name == n && w.reqs == []
      && n in w.net.servers && w.net.servers[n] == 0
    ensures Possible(start, es) && Serving(After(start, es), n, end)
  {
    hide Do, Can;
    NetSteps(After(start, s), end, n);
    OneMore(start, s, SetFlags(true, false));
    es := s + [SetFlags(true, false)];
    NetSteps(After(start, es), end, n);
    OneMore(start, es, Connect(end, n));
    es := es + [Connect(end, n)];
    NetSteps(After(start, es), end, n);
    OneMore(start, es, Enable(end, true));
    es := es + [Enable(end, true)];
  }

  lemma Begins(start: World, s: seq<Event>, n: Name, end: End) returns (es: seq<Event>)
    requires Possible(start, s) && Serving(After(start, s), n, end)
    ensures Possible(start, es) && JustBegun(After(start, es), 0, 0)
    ensures SlotOk(After(start, es), n) && After(start, es).slots[n].phase == Up(0)
  {
    hide Do, Can;
    IssueStep(After(start, s), end);
    OneMore(start, s, Issue(end));
    es := s + [Issue(end)];
    ReadInfoStep(After(start, es), 0);
    OneMore(start, es, ReadInfo(0));
    es := es + [ReadInfo(0)];
    SpawnStep(After(start, es), 0);
    OneMore(start, es, Spawn(0));
    es := es + [Spawn(0)];
    DispatchStep(After(start, es), 0);
    OneMore(start, es, Dispatch(0));
    es := es + [Dispatch(0)];
  }

  /** Such a run exists: from any initial state, with any server name, client end and data to save. */
  lemma LosingRun(start: World, n: Name, end: End, data: Data) returns (es: seq<Event>, v: World)
    requires Initial(start) && n in start.slots
    ensures Possible(start, es) && SlotOk(After(start, es), n) && After(start, es).slots[n].phase.Up?
    ensures var w := After(start, es);
      var copied := CopySaved(w, n, w.slots[n].phase);
      Possible(copied, Finishing(0, data)) && v == After(copied, Finishing(0, data))
    ensures |v.reqs| > 0 && true in v.reqs[0].replies
    ensures v.reqs[0].handler.Collected? && !Durable(v, n, v.reqs[0].handler.marks)
  {
    hide Do, Can, Fine;
    var s := StartsServing(start, n, end);
    es := Begins(start, s, n, end);
    ReachableIsFine(start, es);
    v := CopyBeforeDeleteLosesSaves(After(start, es), n, 0, data);
  }

  lemma NotInTheCopy(w: World, n: Name, v: World, marks: seq<Mark>)
    requires SlotOk(w, n) && w.slots[n].saved.Some?
    requires n in v.slots && v.slots[n].saved == Some(|w.persisters|) && |v.persisters| == |w.persisters| + 1
    requires v.persisters[|w.persisters|] == w.persisters[w.slots[n].saved.value]
    requires |marks| == 1 && marks[0].index == |w.persisters[w.slots[n].saved.value].saves|
    ensures !Durable(v, n, marks)
  {
  }

  // ---------- what can be done from every reachable state ----------

  /** Events of request r itself. */
  predicate Own(e: Event, r: nat) {
    IsRequestEvent(e) && e.r == r
  }

  lemma RefusedSteps(w: World, r: nat)
    requires r < |w.reqs|
    ensures var q := w.reqs[r];
      q.proc.Sent? && w.net.Target(q.end).None? ==>
        Can(w, ReadInfo(r)) && Do(w, ReadInfo(r)) == SetReq(w, r, q.(proc := Refused))
    ensures var q := w.reqs[r];
      q.proc.Refused? ==> Can(w, Reply(r)) && Do(w, Reply(r)) == SetReq(w, r, Answer(q, false))
  {
  }

  lemma PollStep(w: World, r: nat)
    requires r < |w.reqs| && w.reqs[r].proc.Waiting? && w.reqs[r].proc.inst < |w.instances|
    ensures Can(w, Poll(r))
    ensures var q := w.reqs[r];
      Do(w, Poll(r)) ==
        if Dead(w, q, q.proc.inst)
        then SetReq(w, r, q.(proc := Woken(q.proc.inst, false, q.proc.reliable, q.proc.reorder)))
        else SetReq(w, r, q)
  {
  }

  lemma TargetIsAlive(w: World, q: Request)
    requires SystemFine(w) && w.net.Target(q.end).Some?
    ensures HasInstance(w, w.net.Target(q.end).value.1) && !Dead(w, q, w.net.Target(q.end).value.1)
  {
    assert SlotFine(w, w.net.Target(q.end).value.0);
  }

  /** Left to itself a request is answered true exactly if its end leads to a server. */
  lemma ServesAlone(start: World, es: seq<Event>, r: nat) returns (more: seq<Event>)
    requires Initial(start) && Possible(start, es)
    requires r < |After(start, es).reqs| && After(start, es).reqs[r].proc.Sent?
    ensures Possible(start, es + more) && forall k | 0 <= k < |more| :: Own(more[k], r)
    ensures r < |After(start, es + more).reqs|
    ensures After(start, es + more).reqs[r].replies ==
            [After(start, es).net.Target(After(start, es).reqs[r].end).Some?]
  {
    hide Do, Can;
    ReachableIsFine(start, es);
    var w := After(start, es);
    var q := w.reqs[r];
    assert RequestFine(w, q);
    if w.net.Target(q.end).None? {
      RefusedSteps(w, r);
      OneMore(start, es, ReadInfo(r));
      RefusedSteps(After(start, es + [ReadInfo(r)]), r);
      OneMore(start, es + [ReadInfo(r)], Reply(r));
      more := [ReadInfo(r), Reply(r)];
      assert es + more == es + [ReadInfo(r)] + [Reply(r)];
    } else {
      more := Dispatched(start, es, r);
      var rest := Completes(start, es + more, r);
      assert es + (more + rest) == (es + more) + rest;
      more := more + rest;
    }
  }

  /** Routed, spawned and dispatched, to a server that is alive. */
  lemma Dispatched(start: World, es: seq<Event>, r: nat) returns (more: seq<Event>)
    requires Initial(start) && Possible(start, es)
    requires r < |After(start, es).reqs| && After(start, es).reqs[r].proc.Sent?
    requires After(start, es).net.Target(After(start, es).reqs[r].end).Some?
    ensures Possible(start, es + more) && forall k | 0 <= k < |more| :: Own(more[k], r)
    ensures var w := After(start, es + more);
      && r < |w.reqs| && w.reqs[r].proc.Waiting? && w.reqs[r].handler.Running? && w.reqs[r].replies == []
      && w.reqs[r].proc.inst < |w.instances| && !Dead(w, w.reqs[r], w.reqs[r].proc.inst)
  {
    hide Do, Can;
    ReachableIsFine(start, es);
    assert RequestFine(After(start, es), After(start, es).reqs[r]);
    TargetIsAlive(After(start, es), After(start, es).reqs[r]);
    hide Fine, RequestFine;
    ReadInfoStep(After(start, es), r);
    OneMore(start, es, ReadInfo(r));
    var s := es + [ReadInfo(r)];
    SpawnStep(After(start, s), r);
    OneMore(start, s, Spawn(r));
    s := s + [Spawn(r)];
    DispatchStep(After(start, s), r);
    OneMore(start, s, Dispatch(r));
    more := [ReadInfo(r), Spawn(r), Dispatch(r)];
    assert es + more == s + [Dispatch(r)];
  }

  /** A handler that returns while its server is alive gets its reply through. */
  lemma Completes(start: World, es: seq<Event>, r: nat) returns (more: seq<Event>)
    requires Possible(start, es) && r < |After(start, es).reqs|
    requires var w := After(start, es);
      && w.reqs[r].proc.Waiting? && w.reqs[r].handler.Running?
      && w.reqs[r].proc.inst < |w.instances| && !Dead(w, w.reqs[r], w.reqs[r].proc.inst)
    ensures Possible(start, es + more) && forall k | 0 <= k < |more| :: Own(more[k], r)
    ensures r < |After(start, es + more).reqs|
    ensures After(start, es + more).reqs[r].replies == After(start, es).reqs[r].replies + [true]
  {
    hide Do, Can;
    var nothing := Data([], []);
    SaveReturnCollectSteps(After(start, es), r, nothing);
    OneMore(start, es, Return(r));
    var s := es + [Return(r)];
    SaveReturnCollectSteps(After(start, s), r, nothing);
    OneMore(start, s, Collect(r));
    s := s + [Collect(r)];
    CheckReplySteps(After(start, s), r);
    OneMore(start, s, FinalCheck(r));
    s := s + [FinalCheck(r)];
    CheckReplySteps(After(start, s), r);
    OneMore(start, s, Reply(r));
    more := [Return(r), Collect(r), FinalCheck(r), Reply(r)];
    assert es + more == s + [Reply(r)];
  }

  /** A request whose server is dead is answered false without its handler having to return. */
  lemma GivesUp(start: World, es: seq<Event>, r: nat)
    requires Possible(start, es) && r < |After(start, es).reqs|
    requires var w := After(start, es);
      && w.reqs[r].proc.Waiting? && w.reqs[r].proc.inst < |w.instances| && Dead(w, w.reqs[r], w.reqs[r].proc.inst)
    ensures var more := es + [Poll(r)] + [FinalCheck(r)] + [Reply(r)];
      && Possible(start, more) && r < |After(start, more).reqs|
      && After(start, more).reqs[r].replies == After(start, es).reqs[r].replies + [false]
      && After(start, more).reqs[r].handler == After(start, es).reqs[r].handler
  {
    hide Do, Can;
    PollStep(After(start, es), r);
    OneMore(start, es, Poll(r));
    var s := es + [Poll(r)];
    CheckReplySteps(After(start, s), r);
    OneMore(start, s, FinalCheck(r));
    s := s + [FinalCheck(r)];
    CheckReplySteps(After(start, s), r);
    OneMore(start, s, Reply(r));
  }

  lemma ReturnDrainSteps(w: World, r: nat)
    requires r < |w.reqs|
    ensures var q := w.reqs[r];
      q.handler.Running? ==>
        Can(w, Return(r)) && Do(w, Return(r)) == SetReq(w, r, q.(handler := Ready(q.handler.inst, q.handler.marks)))
    ensures var q := w.reqs[r];
      q.handler.Ready? && !q.proc.Waiting? ==>
        Can(w, Drain(r)) && Do(w, Drain(r)) == SetReq(w, r, q.(handler := Collected(q.handler.inst, q.handler.marks)))
  {
  }

  /** A handler that returns after processReq has given up can still end, and its reply is thrown away. */
  lemma LateHandlerEnds(start: World, es: seq<Event>, r: nat)
    requires Possible(start, es) && r < |After(start, es).reqs|
    requires After(start, es).reqs[r].handler.Running? && !After(start, es).reqs[r].proc.Waiting?
    ensures var more := es + [Return(r)] + [Drain(r)];
      && Possible(start, more) && r < |After(start, more).reqs|
      && After(start, more).reqs[r].handler.Collected?
      && After(start, more).reqs[r].replies == After(start, es).reqs[r].replies
  {
    hide Do, Can;
    ReturnDrainSteps(After(start, es), r);
    OneMore(start, es, Return(r));
    ReturnDrainSteps(After(start, es + [Return(r)]), r);
    OneMore(start, es + [Return(r)], Drain(r));
  }

  lemma ShutdownSteps(w: World, n: Name)
    requires SlotOk(w, n)
    ensures w.slots[n].phase.Up? ==> Can(w, DeleteServer(n)) && Do(w, DeleteServer(n)) == Unregister(w, n)
    ensures w.slots[n].phase.Deleted? && w.slots[n].saved.Some? ==>
              Can(w, ShutCopy(n)) && Do(w, ShutCopy(n)) == CopySaved(w, n, Down)
    ensures w.slots[n].phase.Down? ==> Can(w, StartCopy(n)) && Do(w, StartCopy(n)) == CopySaved(w, n, Prepared)
  {
  }

  lemma ShutsDown(start: World, es: seq<Event>, n: Name) returns (s: seq<Event>)
    requires Possible(start, es) && SlotOk(After(start, es), n)
    requires After(start, es).slots[n].phase.Up? && After(start, es).slots[n].saved.Some?
    ensures s == es + [DeleteServer(n)] + [ShutCopy(n)] && Possible(start, s)
    ensures var w, v := After(start, es), After(start, s);
      && n in v.slots && v.slots[n] == Slot(Some(|w.persisters|), Down) && v.instances == w.instances
      && v.persisters == w.persisters + [w.persisters[w.slots[n].saved.value]]
  {
    hide Do, Can;
    ShutdownSteps(After(start, es), n);
    OneMore(start, es, DeleteServer(n));
    s := es + [DeleteServer(n)];
    ShutdownSteps(After(start, s), n);
    OneMore(start, s, ShutCopy(n));
    s := s + [ShutCopy(n)];
  }

  lemma StartsAgain(start: World, es: seq<Event>, n: Name) returns (s: seq<Event>)
    requires Possible(start, es) && SlotOk(After(start, es), n)
    requires After(start, es).slots[n].phase.Down? && After(start, es).slots[n].saved.Some?
    ensures s == es + [StartCopy(n)] + [Build(n)] + [AddServer(n)] && Possible(start, s)
    ensures var w, v := After(start, es), After(start, s);
      && n in v.slots && v.slots[n] == Slot(Some(|w.persisters|), Up(|w.instances|))
      && v.instances == w.instances + [Instance(n, |w.persisters|, 0)]
      && v.persisters == w.persisters + [w.persisters[w.slots[n].saved.value]]
      && n in v.net.servers && v.net.servers[n] == |w.instances|
  {
    hide Do, Can;
    ShutdownSteps(After(start, es), n);
    OneMore(start, es, StartCopy(n));
    s := es + [StartCopy(n)];
    BuildStep(After(start, s), n);
    OneMore(start, s, Build(n));
    s := s + [Build(n)];
    AddServerStep(After(start, s), n);
    OneMore(start, s, AddServer(n));
    s := s + [AddServer(n)];
  }

  /** ShutdownServer and then StartServer, with nothing in between: a new instance is in charge, and it is given
      a Persister of its own with exactly what the old one had persisted. */
  lemma RestartsWithSavedState(start: World, es: seq<Event>, n: Name) returns (more: seq<Event>)
    requires Initial(start) && Possible(start, es)
    requires n in After(start, es).slots && After(start, es).slots[n].phase.Up?
    ensures more == es + [DeleteServer(n)] + [ShutCopy(n)] + [StartCopy(n)] + [Build(n)] + [AddServer(n)]
    ensures Possible(start, more)
    ensures var w, v := After(start, es), After(start, more);
      && HasInstance(w, w.slots[n].phase.inst) && HasInstance(v, |w.instances|)
      && n in v.slots && v.slots[n].phase == Up(|w.instances|) && v.instances[|w.instances|].pers >= |w.persisters|
      && v.persisters[v.instances[|w.instances|].pers] == w.persisters[w.instances[w.slots[n].phase.inst].pers]
      && n in v.net.servers && v.net.servers[n] == |w.instances|
  {
    hide Do, Can;
    ReachableIsFine(start, es);
    assert SlotFine(After(start, es), n);
    hide Fine, SlotFine, Possible, After;
    var s := ShutsDown(start, es, n);
    more := StartsAgain(start, s, n);
  }
}
