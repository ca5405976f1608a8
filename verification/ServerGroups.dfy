/** A group of servers and the links between them: connecting, disconnecting, partitioning, and the objects
    a shutdown and a restart replace. */
module ServerGroups {
  import opened GoStrings
  import opened Labrpc

  /** n by n names, none of them twice. */
  ghost predicate Matrix(names: seq<seq<End>>, n: nat) {
    && |names| == n
    && (forall a | 0 <= a < n :: |names[a]| == n)
    && forall a, b, c, d | 0 <= a < n && 0 <= b < n && 0 <= c < n && 0 <= d < n && names[a][b] == names[c][d] ::
         a == c && b == d
  }

  /** The value of a group's connectivity: ends[a][b] names the client end through which a calls b. */
  datatype Group = Group(connected: seq<bool>, ends: seq<seq<End>>, enabled: map<End, bool>)
  {
    function N(): nat {
      |connected|
    }

    predicate InRange(a: int) {
      0 <= a < N()
    }

    ghost predicate WellFormed() {
      Matrix(ends, N())
    }

    /** The end through which a calls b is enabled. */
    predicate Link(a: int, b: int)
      requires InRange(a) && InRange(b) && |ends| == N() && |ends[a]| == N()
    {
      ends[a][b] in enabled && enabled[ends[a][b]]
    }
  }

  ghost predicate AllInRange(g: Group, l: seq<int>) {
    forall x | x in l :: g.InRange(x)
  }

  // ---------- what connect and disconnect do ----------

  /** connect(i, to): i is on the net, and linked both ways with those of to that are. */
  ghost predicate Connects(g: Group, i: int, to: seq<int>, h: Group)
    requires g.WellFormed() && g.InRange(i)
  {
    && h.WellFormed() && h.ends == g.ends && h.connected == g.connected[i := true]
    && forall a, b | g.InRange(a) && g.InRange(b) ::
         h.Link(a, b) <==>
           g.Link(a, b) || (a == i && b in to && h.connected[b]) || (b == i && a in to && h.connected[a])
  }

  /** disconnect(i, from): i is off the net, and no longer linked with those of from. */
  ghost predicate Disconnects(g: Group, i: int, from: seq<int>, h: Group)
    requires g.WellFormed() && g.InRange(i)
  {
    && h.WellFormed() && h.ends == g.ends && h.connected == g.connected[i := false]
    && forall a, b | g.InRange(a) && g.InRange(b) ::
         h.Link(a, b) <==> g.Link(a, b) && !(a == i && b in from) && !(b == i && a in from)
  }

  /** Server i has a new set of ends, none of them enabled. */
  ghost predicate Restarts(g: Group, i: int, h: Group)
    requires g.WellFormed() && g.InRange(i)
  {
    && h.WellFormed() && h.connected == g.connected
    && (forall a | g.InRange(a) && a != i :: h.ends[a] == g.ends[a])
    && forall a, b | g.InRange(a) && g.InRange(b) :: h.Link(a, b) <==> a != i && g.Link(a, b)
  }

  // ---------- the objects ----------

  class Persister {
    var raftstate: GoString
    var snapshot: GoString

    constructor ()
      ensures raftstate == [] && snapshot == []
    {
      raftstate, snapshot := [], [];
    }

    method Save(raftstate: GoString, snapshot: GoString)
      modifies this
      ensures this.raftstate == raftstate && this.snapshot == snapshot
    {
      this.raftstate, this.snapshot := raftstate, snapshot;
    }

    method Copy() returns (np: Persister)
      ensures fresh(np) && np.raftstate == raftstate && np.snapshot == snapshot
    {
      np := new Persister();
      np.raftstate, np.snapshot := raftstate, snapshot;
    }
  }

  class Server {
    const endNames: seq<End>
    var saved: Persister?
    var running: bool  // svcs is not nil

    constructor (endNames: seq<End>)
      ensures this.endNames == endNames && saved == null && !running
    {
      this.endNames := endNames;
      saved, running := null, false;
    }

    /** The instance that runs on keeps its Persister; the server keeps a copy. */
    method ShutdownServer()
      modifies this
      ensures !running
      ensures old(saved) == null ==> saved == null
      ensures old(saved) != null ==>
                saved != null && fresh(saved)
                && saved.raftstate == old(saved.raftstate) && saved.snapshot == old(saved.snapshot)
    {
      if saved != null {
        saved := saved.Copy();
      }
      running := false;
    }
  }

  ghost function EndsOf(srvs: seq<Server>): seq<seq<End>> {
    seq(|srvs|, i requires 0 <= i < |srvs| => srvs[i].endNames)
  }

  class ServerGrp {
    const net: Network
    const gid: int
    var srvs: seq<Server>
    var connected: seq<bool>

    ghost function View(): Group
      reads this, net
    {
      Group(connected, EndsOf(srvs), net.enabled)
    }

    /** The end leads to server b of the group. */
    ghost predicate Routed(net: Network, end: End, b: int)
      reads net
    {
      end in net.connections && net.connections[end] == ServerName(gid, b)
    }

    /** Every end is known to the network and leads where it should. */
    ghost predicate Valid()
      reads this, net
    {
      && View().WellFormed()
      && |srvs| == |connected|
      && (forall a, b | 0 <= a < |srvs| && 0 <= b < |srvs[a].endNames| :: srvs[a].endNames[b] in net.ends)
      && (forall a, b | 0 <= a < |srvs| && 0 <= b < |srvs[a].endNames| :: Routed(net, srvs[a].endNames[b], b))
      && forall a, b | 0 <= a < b < |srvs| :: srvs[a] != srvs[b]
    }

    /** Fresh end names are drawn at random; here they are a parameter. */
    constructor (net: Network, gid: int, n: nat, names: seq<seq<End>>)
      requires Matrix(names, n)
      requires forall a, b | 0 <= a < n && 0 <= b < n :: names[a][b] !in net.ends
      modifies net
      ensures net.servers == old(net.servers)
      ensures Valid() && this.net == net && this.gid == gid
      ensures View().connected == seq(n, _ => false) && View().ends == names
      ensures forall a, b | 0 <= a < n && 0 <= b < n :: !View().Link(a, b)
    {
      this.net, this.gid := net, gid;
      connected := seq(n, _ => false);
      srvs := [];
      new;
      for i := 0 to n
        invariant |srvs| == i && connected == seq(n, _ => false) && net.servers == old(net.servers)
        invariant forall a | 0 <= a < i :: srvs[a].endNames == names[a] && fresh(srvs[a])
        invariant forall a, b | 0 <= a < b < i :: srvs[a] != srvs[b]
        invariant forall a, b | 0 <= a < i && 0 <= b < n ::
                    names[a][b] in net.ends && names[a][b] in net.enabled && !net.enabled[names[a][b]]
        invariant forall a, b | 0 <= a < i && 0 <= b < n :: Routed(net, names[a][b], b)
        invariant forall a, b | i <= a < n && 0 <= b < n :: names[a][b] !in net.ends
      {
        forall b, d | 0 <= b < d < |names[i]|
          ensures names[i][b] != names[i][d]
        {
          assert Matrix(names, n);
        }
        forall a, b | 0 <= a < n && a != i && 0 <= b < n
          ensures names[a][b] !in names[i]
        {
        }
        var srv := MakeServer(names[i]);
        srvs := srvs + [srv];
      }
      assert EndsOf(srvs) == names;
    }

    /** A new end that leads to server b. */
    method FreshEnd(name: End, b: int)
      requires name !in net.ends
      modifies net
      ensures net.ends == old(net.ends) + {name} && net.servers == old(net.servers)
      ensures net.enabled == old(net.enabled)[name := false]
      ensures net.connections == old(net.connections)[name := ServerName(gid, b)]
    {
      net.MakeEnd(name);
      assert net.View().connections == net.connections && net.View().servers == net.servers;
      assert net.View().enabled == net.enabled;
      net.Connect(name, ServerName(gid, b));
      assert net.View().connections == net.connections && net.View().servers == net.servers;
      assert net.View().enabled == net.enabled;
    }

    /** makeServer: a set of disabled ends, connected by name. */
    method MakeServer(names: seq<End>) returns (srv: Server)
      requires forall b | 0 <= b < |names| :: names[b] !in net.ends
      requires forall b, d | 0 <= b < d < |names| :: names[b] != names[d]
      modifies net
      ensures fresh(srv) && srv.endNames == names && srv.saved == null
      ensures net.servers == old(net.servers)
      ensures forall b | 0 <= b < |names| :: Routed(net, names[b], b)
      ensures forall e | e !in names :: e in net.connections <==> e in old(net.connections)
      ensures forall e | e !in names && e in net.connections :: net.connections[e] == old(net.connections)[e]
      ensures net.ends == old(net.ends) + set b | 0 <= b < |names| :: names[b]
      ensures forall e | e !in names :: e in net.enabled <==> e in old(net.enabled)
      ensures forall e | e !in names && e in net.enabled :: net.enabled[e] == old(net.enabled)[e]
      ensures forall b | 0 <= b < |names| :: names[b] in net.enabled && !net.enabled[names[b]]
    {
      srv := new Server(names);
      for j := 0 to |names|
        invariant net.servers == old(net.servers)
        invariant forall b | 0 <= b < j :: Routed(net, names[b], b)
        invariant forall e | e !in names :: e in net.connections <==> e in old(net.connections)
        invariant forall e | e !in names && e in net.connections :: net.connections[e] == old(net.connections)[e]
        invariant net.ends == old(net.ends) + set b | 0 <= b < j :: names[b]
        invariant forall e | e !in names :: e in net.enabled <==> e in old(net.enabled)
        invariant forall e | e !in names && e in net.enabled :: net.enabled[e] == old(net.enabled)[e]
        invariant forall b | 0 <= b < j :: names[b] in net.enabled && !net.enabled[names[b]]
        invariant fresh(srv) && srv.saved == null
      {
        FreshEnd(names[j], j);
      }
    }

    /** So while b's name is registered, requests of a are delivered to b exactly if the link is enabled. */
    lemma LinkDelivers(a: int, b: int)
      requires Valid() && View().InRange(a) && View().InRange(b) && ServerName(gid, b) in net.servers
      ensures b < |srvs[a].endNames|
      ensures net.View().Target(srvs[a].endNames[b]) ==
              if View().Link(a, b) then Some((ServerName(gid, b), net.servers[ServerName(gid, b)])) else None
    {
      assert View().ends[a] == srvs[a].endNames;
      assert Routed(net, srvs[a].endNames[b], b);
    }

    method IsConnected(i: int) returns (on: bool)
      requires 0 <= i < |connected|
      ensures on == connected[i]
    {
      on := connected[i];
    }

    /** net.Enable on the end through which a calls b; no other link changes. */
    method SetLink(a: int, b: int, on: bool)
      requires Valid() && View().InRange(a) && View().InRange(b)
      modifies net
      ensures net.ends == old(net.ends) && net.servers == old(net.servers) && Valid()
      ensures net.connections == old(net.connections)
      ensures View().ends == old(View()).ends
      ensures forall c, d | View().InRange(c) && View().InRange(d) ::
                View().Link(c, d) == if c == a && d == b then on else old(View()).Link(c, d)
    {
      assert View().ends[a] == srvs[a].endNames && |View().ends[a]| == View().N();
      net.Enable(srvs[a].endNames[b], on);
      assert net.enabled == net.View().enabled && net.servers == net.View().servers;
      assert net.connections == net.View().connections;
    }

    /** Server.connect: the outgoing ends of i. */
    method ConnectOutgoing(i: int, to: seq<int>)
      requires Valid() && View().InRange(i) && AllInRange(View(), to)
      modifies net
      ensures net.servers == old(net.servers) && net.connections == old(net.connections)
      ensures Valid() && View().ends == old(View()).ends
      ensures forall a, b | View().InRange(a) && View().InRange(b) ::
                View().Link(a, b) <==> old(View()).Link(a, b) || (a == i && b in to && connected[b])
    {
      ghost var g, all := View(), net.ends;
      for j := 0 to |to|
        invariant net.ends == all && net.servers == old(net.servers) && Valid()
        invariant net.connections == old(net.connections)
        invariant forall a, b | g.InRange(a) && g.InRange(b) ::
                    View().Link(a, b) <==> g.Link(a, b) || (a == i && b in to[..j] && connected[b])
      {
        assert to[..j + 1] == to[..j] + [to[j]];
        assert to[j] in to;
        var on := IsConnected(to[j]);
        if on {
          SetLink(i, to[j], true);
        }
      }
      assert to[..|to|] == to;
    }

    /** Server.disconnect: the outgoing ends of i. */
    method DisconnectOutgoing(i: int, from: seq<int>)
      requires Valid() && View().InRange(i) && AllInRange(View(), from)
      modifies net
      ensures net.servers == old(net.servers) && net.connections == old(net.connections)
      ensures Valid() && View().ends == old(View()).ends
      ensures forall a, b | View().InRange(a) && View().InRange(b) ::
                View().Link(a, b) <==> old(View()).Link(a, b) && !(a == i && b in from)
    {
      ghost var g, all := View(), net.ends;
      for j := 0 to |from|
        invariant net.ends == all && net.servers == old(net.servers) && Valid()
        invariant net.connections == old(net.connections)
        invariant forall a, b | g.InRange(a) && g.InRange(b) ::
                    View().Link(a, b) <==> g.Link(a, b) && !(a == i && b in from[..j])
      {
        assert from[..j + 1] == from[..j] + [from[j]];
        assert from[j] in from;
        SetLink(i, from[j], false);
      }
      assert from[..|from|] == from;
    }

    /** The ends that lead to i. */
    method ConnectIncoming(i: int, to: seq<int>)
      requires Valid() && View().InRange(i) && AllInRange(View(), to)
      modifies net
      ensures net.servers == old(net.servers) && net.connections == old(net.connections)
      ensures Valid() && View().ends == old(View()).ends
      ensures forall a, b | View().InRange(a) && View().InRange(b) ::
                View().Link(a, b) <==> old(View()).Link(a, b) || (b == i && a in to && connected[a])
    {
      ghost var g, all := View(), net.ends;
      for j := 0 to |to|
        invariant net.ends == all && net.servers == old(net.servers) && Valid()
        invariant net.connections == old(net.connections)
        invariant forall a, b | g.InRange(a) && g.InRange(b) ::
                    View().Link(a, b) <==> g.Link(a, b) || (b == i && a in to[..j] && connected[a])
      {
        assert to[..j + 1] == to[..j] + [to[j]];
        assert to[j] in to;
        var on := IsConnected(to[j]);
        if on {
          SetLink(to[j], i, true);
        }
      }
      assert to[..|to|] == to;
    }

    method DisconnectIncoming(i: int, from: seq<int>)
      requires Valid() && View().InRange(i) && AllInRange(View(), from)
      modifies net
      ensures net.servers == old(net.servers) && net.connections == old(net.connections)
      ensures Valid() && View().ends == old(View()).ends
      ensures forall a, b | View().InRange(a) && View().InRange(b) ::
                View().Link(a, b) <==> old(View()).Link(a, b) && !(b == i && a in from)
    {
      ghost var g, all := View(), net.ends;
      for j := 0 to |from|
        invariant net.ends == all && net.servers == old(net.servers) && Valid()
        invariant net.connections == old(net.connections)
        invariant forall a, b | g.InRange(a) && g.InRange(b) ::
                    View().Link(a, b) <==> g.Link(a, b) && !(b == i && a in from[..j])
      {
        assert from[..j + 1] == from[..j] + [from[j]];
        assert from[j] in from;
        SetLink(from[j], i, false);
      }
      assert from[..|from|] == from;
    }

    method ConnectTo(i: int, to: seq<int>)
      requires Valid() && View().InRange(i) && AllInRange(View(), to)
      modifies this`connected, net
      ensures net.servers == old(net.servers) && net.connections == old(net.connections)
      ensures Valid() && Connects(old(View()), i, to, View())
    {
      connected := connected[i := true];
      ConnectOutgoing(i, to);
      ConnectIncoming(i, to);
    }

    method DisconnectFrom(i: int, from: seq<int>)
      requires Valid() && View().InRange(i) && AllInRange(View(), from)
      modifies this`connected, net
      ensures net.servers == old(net.servers) && net.connections == old(net.connections)
      ensures Valid() && Disconnects(old(View()), i, from, View())
    {
      connected := connected[i := false];
      DisconnectOutgoing(i, from);
      DisconnectIncoming(i, from);
    }

    method ConnectOne(i: int)
      requires Valid() && View().InRange(i)
      modifies this`connected, net
      ensures net.servers == old(net.servers) && net.connections == old(net.connections)
      ensures Valid() && Connects(old(View()), i, All(|connected|), View())
    {
      ConnectTo(i, All(|connected|));
    }

    method DisconnectAll(i: int)
      requires Valid() && View().InRange(i)
      modifies this`connected, net
      ensures net.servers == old(net.servers) && net.connections == old(net.connections)
      ensures Valid() && Disconnects(old(View()), i, All(|connected|), View())
    {
      DisconnectFrom(i, All(|connected|));
    }

    /** From any state all servers end up linked. */
    method ConnectAll()
      requires Valid()
      modifies this`connected, net
      ensures Valid() && View().ends == old(View()).ends && View().N() == old(View()).N()
      ensures ConnectsFirst(old(View()), |connected|, View())
      ensures forall a | View().InRange(a) :: connected[a]
      ensures forall a, b | View().InRange(a) && View().InRange(b) :: View().Link(a, b)
      ensures net.servers == old(net.servers) && net.connections == old(net.connections)
    {
      ghost var g := View();
      for i := 0 to |srvs|
        invariant ConnectsFirst(g, i, View())
        invariant net.servers == old(net.servers) && net.connections == old(net.connections)
        invariant Valid() && View().ends == g.ends && View().N() == g.N()
        invariant forall a | 0 <= a < i :: connected[a]
        invariant forall a, b | 0 <= a < i && 0 <= b < i :: View().Link(a, b)
      {
        ghost var before := View();
        ConnectOne(i);
        assert Connects(before, i, All(g.N()), View());
      }
    }

    /** Isolate the server, take it off the network, then put a copy of its Persister aside. */
    method ShutdownServer(i: int)
      requires Valid() && View().InRange(i)
      modifies this`connected, net, srvs[i]
      ensures Valid() && Disconnects(old(View()), i, All(|connected|), View())
      ensures net.servers == old(net.servers) - {ServerName(gid, i)} && srvs == old(srvs) && !srvs[i].running
      ensures net.connections == old(net.connections)
      ensures old(srvs[i].saved) == null ==> srvs[i].saved == null
      ensures old(srvs[i].saved) != null ==>
                srvs[i].saved != null && fresh(srvs[i].saved)
                && srvs[i].saved.raftstate == old(srvs[i].saved.raftstate)
                && srvs[i].saved.snapshot == old(srvs[i].saved.snapshot)
    {
      DisconnectFrom(i, All(|connected|));
      ghost var v := net.View();
      net.DeleteServer(ServerName(gid, i));
      assert net.enabled == net.View().enabled && net.servers == net.View().servers;
      assert net.connections == net.View().connections;
      assert View() == Group(connected, EndsOf(srvs), v.enabled);
      srvs[i].ShutdownServer();
    }

    /** A new Server object with new ends and a copy of the Persister put aside; server is its network id. */
    method StartServer(i: int, names: seq<End>, server: ServerId)
      requires Valid() && View().InRange(i) && |names| == |connected|
      requires forall b | 0 <= b < |names| :: names[b] !in net.ends
      requires forall b, d | 0 <= b < d < |names| :: names[b] != names[d]
      modifies this`srvs, net
      ensures Valid() && Restarts(old(View()), i, View())
      ensures net.servers == old(net.servers)[ServerName(gid, i) := server]
      ensures fresh(srvs[i]) && srvs == old(srvs)[i := srvs[i]] && srvs[i].endNames == names
      ensures srvs[i].running && srvs[i].saved != null && fresh(srvs[i].saved)
      ensures old(srvs[i].saved) != null ==>
                && srvs[i].saved.raftstate == old(srvs[i].saved.raftstate)
                && srvs[i].saved.snapshot == old(srvs[i].saved.snapshot)
      ensures old(srvs[i].saved) == null ==> srvs[i].saved.raftstate == [] && srvs[i].saved.snapshot == []
    {
      ghost var g := View();
      var saved := RestartState(srvs[i]);
      var srv := MakeServer(names);
      srv.saved, srv.running := saved, true;
      srvs := srvs[i := srv];
      ghost var en := net.enabled;
      net.AddServer(ServerName(gid, i), server);
      assert net.View().enabled == en && net.View().servers == net.servers;
      assert net.connections == net.View().connections;
      FreshRow(g.ends, g.N(), i, names);
      assert EndsOf(srvs) == g.ends[i := names];
      RestartedLinks(g, View(), i, names);
    }

    /** The Persister a new instance is given. */
    method RestartState(before: Server) returns (saved: Persister)
      ensures fresh(saved)
      ensures before.saved != null ==>
                saved.raftstate == before.saved.raftstate && saved.snapshot == before.saved.snapshot
      ensures before.saved == null ==> saved.raftstate == [] && saved.snapshot == []
    {
      if before.saved != null {
        saved := before.saved.Copy();
      } else {
        saved := new Persister();
      }
    }

    /** Partition, on any two lists: who is on both ends up on the side of the second. */
    method Partition(p1: seq<int>, p2: seq<int>)
      requires Valid() && AllInRange(View(), p1) && AllInRange(View(), p2)
      modifies this`connected, net
      ensures Valid() && View().ends == old(View()).ends && View().N() == old(View()).N()
      ensures net.servers == old(net.servers) && net.connections == old(net.connections)
      ensures Split(View(), p1, p2)
      ensures AllListed(p1, p2, View().N()) ==> forall a, b | View().InRange(a) && View().InRange(b) ::
                View().Link(a, b) <==> (a in p2 <==> b in p2)
    {
      ghost var g := View();
      for k := 0 to |p1|
        invariant Valid() && View().ends == g.ends && View().N() == g.N()
        invariant net.servers == old(net.servers) && net.connections == old(net.connections)
        invariant Joined(View(), p1[..k], p2)
      {
        ghost var before := View();
        assert p1[..k + 1] == p1[..k] + [p1[k]] && p1[k] in p1;
        DisconnectFrom(p1[k], p2);
        ghost var between := View();
        ConnectTo(p1[k], p1);
        FirstSideGrows(before, between, View(), p1[k], p1, p1[..k], p2);
      }
      assert p1[..|p1|] == p1;
      for k := 0 to |p2|
        invariant Valid() && View().ends == g.ends && View().N() == g.N()
        invariant net.servers == old(net.servers) && net.connections == old(net.connections)
        invariant Joined(View(), p1, p2) && Joined(View(), p2[..k], []) && Apart(View(), p1, p2, p2[..k])
      {
        ghost var before := View();
        assert p2[..k + 1] == p2[..k] + [p2[k]] && p2[k] in p2;
        DisconnectFrom(p2[k], p1);
        ghost var between := View();
        ConnectTo(p2[k], p2);
        FirstSideStays(before, between, View(), p2[k], p1, p2);
        SecondSideGrows(before, between, View(), p2[k], p1, p2, p2[..k]);
      }
      assert p2[..|p2|] == p2;
    }

    /** MakePartition(l): arrays of n/2+1 and n/2, l last in the second. */
    method MakePartition(l: int) returns (p1: array<int>, p2: array<int>)
      requires Valid() && View().InRange(l) && |srvs| >= 2
      ensures fresh(p1) && fresh(p2)
      ensures p1[..] == Side1(|srvs|, l) && p2[..] == Side2(|srvs|, l)
    {
      var n := |srvs|;
      p1 := new int[n / 2 + 1](_ => 0);
      p2 := new int[n / 2](_ => 0);
      var j := 0;
      for i := 0 to n
        invariant j == if i <= l then i else i - 1
        invariant forall k | 0 <= k < p1.Length :: p1[k] == if k < j then Other(k, l) else 0
        invariant forall k | 0 <= k < p2.Length :: p2[k] == if p1.Length + k < j then Other(p1.Length + k, l) else 0
      {
        if i != l {
          if j < p1.Length {
            p1[j] := i;
          } else {
            p2[j - p1.Length] := i;
          }
          j := j + 1;
        }
      }
      p2[p2.Length - 1] := l;
    }
  }

  function All(n: nat): (s: seq<int>)
    ensures forall x :: x in s <==> 0 <= x < n
  {
    if n == 0 then [] else All(n - 1) + [n - 1]
  }

  lemma FreshRow(ends: seq<seq<End>>, n: nat, i: int, names: seq<End>)
    requires Matrix(ends, n) && 0 <= i < n && |names| == n
    requires forall a, b | 0 <= a < n && 0 <= b < n :: ends[a][b] !in names
    requires forall b, d | 0 <= b < d < n :: names[b] != names[d]
    ensures Matrix(ends[i := names], n)
  {
  }

  lemma RestartedLinks(g: Group, h: Group, i: int, names: seq<End>)
    requires g.WellFormed() && g.InRange(i) && h.WellFormed() && h.connected == g.connected
    requires h.ends == g.ends[i := names]
    requires forall a, b | g.InRange(a) && g.InRange(b) :: g.ends[a][b] !in names
    requires forall e | e !in names :: e in h.enabled <==> e in g.enabled
    requires forall e | e !in names && e in h.enabled :: h.enabled[e] == g.enabled[e]
    requires forall b | 0 <= b < |names| :: names[b] in h.enabled && !h.enabled[names[b]]
    ensures Restarts(g, i, h)
  {
  }

  // ---------- partitions ----------

  /** Those listed are on the net, and those of them not on the other list are linked with each other. */
  ghost predicate Joined(g: Group, side: seq<int>, other: seq<int>)
    requires g.WellFormed()
  {
    && AllInRange(g, side)
    && (forall x | x in side :: g.connected[x])
    && (forall x, y | x in side && y in side && x !in other && y !in other :: g.Link(x, y))
  }

  /** Nothing goes between those only on the first list and those seen of the second. */
  ghost predicate Apart(g: Group, p1: seq<int>, p2: seq<int>, seen: seq<int>)
    requires g.WellFormed() && AllInRange(g, p1) && AllInRange(g, seen)
  {
    forall x, y | x in p1 && x !in p2 && y in seen :: !g.Link(x, y) && !g.Link(y, x)
  }

  /** Two sides: those only on the first list, and those on the second. */
  ghost predicate Split(g: Group, p1: seq<int>, p2: seq<int>)
    requires g.WellFormed()
  {
    Joined(g, p1, p2) && Joined(g, p2, []) && Apart(g, p1, p2, p2)
  }

  lemma FirstSideGrows(g: Group, h: Group, k: Group, x: int, p1: seq<int>, seen: seq<int>, p2: seq<int>)
    requires g.WellFormed() && x in p1 && AllInRange(g, p1) && forall y | y in seen :: y in p1
    requires Joined(g, seen, p2)
    requires Disconnects(g, x, p2, h) && Connects(h, x, p1, k)
    ensures Joined(k, seen + [x], p2)
  {
  }

  lemma FirstSideStays(g: Group, h: Group, k: Group, x: int, p1: seq<int>, p2: seq<int>)
    requires g.WellFormed() && x in p2 && AllInRange(g, p2) && Joined(g, p1, p2)
    requires Disconnects(g, x, p1, h) && Connects(h, x, p2, k)
    ensures Joined(k, p1, p2)
  {
  }

  lemma SecondSideGrows(g: Group, h: Group, k: Group, x: int, p1: seq<int>, p2: seq<int>, seen: seq<int>)
    requires g.WellFormed() && x in p2 && AllInRange(g, p1) && AllInRange(g, p2) && forall y | y in seen :: y in p2
    requires Joined(g, seen, []) && Apart(g, p1, p2, seen)
    requires Disconnects(g, x, p1, h) && Connects(h, x, p2, k)
    ensures Joined(k, seen + [x], []) && Apart(k, p1, p2, seen + [x])
  {
  }

  /** The j-th server that is not l. */
  function Other(j: int, l: int): int {
    if j < l then j else j + 1
  }

  function Side1(n: nat, l: int): seq<int> {
    seq(n / 2 + 1, k => if k < n - 1 then Other(k, l) else 0)
  }

  function Side2(n: nat, l: int): seq<int>
    requires n >= 2
  {
    seq(n / 2, k => if k == n / 2 - 1 then l else if n / 2 + 1 + k < n - 1 then Other(n / 2 + 1 + k, l) else 0)
  }

  /** Reachable servers, itself included. */
  ghost function Reach(g: Group, l: int): set<int>
    requires g.WellFormed() && g.InRange(l)
  {
    set b | 0 <= b < g.N() && g.Link(l, b)
  }

  ghost predicate AllListed(p1: seq<int>, p2: seq<int>, n: nat) {
    && (forall x | x in p1 || x in p2 :: 0 <= x < n)
    && forall x | 0 <= x < n :: x in p1 || x in p2
  }

  /** Every server on exactly one list. */
  ghost predicate Covers(p1: seq<int>, p2: seq<int>, n: nat) {
    AllListed(p1, p2, n) && forall x | x in p1 :: x !in p2
  }

  /** If everyone is on a list, a link is up exactly when both servers are on the second or neither is. */
  lemma SplitIsExact(g: Group, p1: seq<int>, p2: seq<int>, a: int, b: int)
    requires g.WellFormed() && Split(g, p1, p2) && AllListed(p1, p2, g.N())
    requires g.InRange(a) && g.InRange(b)
    ensures g.Link(a, b) <==> (a in p2 <==> b in p2)
  {
  }

  // ---------- MakePartition ----------

  /** The last of the servers that go to the first side. */
  function Top(n: nat, l: int): int {
    if l <= n / 2 then n / 2 + 1 else n / 2
  }

  predicate OnSide1(n: nat, l: int, x: int) {
    (0 <= x < n && x != l && x <= Top(n, l)) || (n == 2 && x == 0)
  }

  predicate OnSide2(n: nat, l: int, x: int) {
    x == l || (0 <= x < n && x > Top(n, l)) || (n >= 4 && n % 2 == 0 && x == 0)
  }

  lemma Side1Members(n: nat, l: int, x: int)
    requires n >= 2 && 0 <= l < n
    ensures x in Side1(n, l) <==> OnSide1(n, l, x)
  {
    var s := Side1(n, l);
    if 0 <= x < n && x != l {
      var k := if x < l then x else x - 1;
      assert Other(k, l) == x;
      assert k < |s| ==> s[k] in s;
    }
    assert n == 2 ==> s[1] == 0 && s[1] in s;
    if x in s {
      var k :| 0 <= k < |s| && s[k] == x;
    }
  }

  lemma Side2Members(n: nat, l: int, x: int)
    requires n >= 2 && 0 <= l < n
    ensures x in Side2(n, l) <==> OnSide2(n, l, x)
  {
    var s := Side2(n, l);
    var m := n / 2;
    assert s[m - 1] == l && s[m - 1] in s;
    if 0 <= x < n && x != l && x > Top(n, l) {
      var k := (if x < l then x else x - 1) - (m + 1);
      assert Other(m + 1 + k, l) == x;
      assert 0 <= k < m - 1;
      assert s[k] == x && s[k] in s;
    }
    if n >= 4 && n % 2 == 0 {
      assert s[m - 2] == 0 && s[m - 2] in s;
    }
    if x in s {
      var k :| 0 <= k < |s| && s[k] == x;
      if k != m - 1 && m + 1 + k < n - 1 {
        assert x == Other(m + 1 + k, l);
        assert x > Top(n, l);
      } else if k != m - 1 {
        assert x == 0 && m + 1 + k >= n - 1 && k <= m - 2;
        assert n == 2 * m;
      }
    }
  }

  /** MakePartition puts every server on exactly one side just when the group is odd, save for two accidents
      of the zeros its arrays start with: l is 1 of 2, or l is 0. */
  lemma MakePartitionCovers(n: nat, l: int)
    requires n >= 2 && 0 <= l < n
    ensures Covers(Side1(n, l), Side2(n, l), n) <==> n % 2 == 1 || (n == 2 && l == 1) || (n >= 4 && l == 0)
  {
    forall x
      ensures x in Side1(n, l) <==> OnSide1(n, l, x)
      ensures x in Side2(n, l) <==> OnSide2(n, l, x)
    {
      Side1Members(n, l, x);
      Side2Members(n, l, x);
    }
    assert n % 2 == 0 && n >= 4 && l != 0 ==> 0 in Side1(n, l) && 0 in Side2(n, l);
    assert n == 2 && l == 0 ==> 0 in Side1(n, l) && 0 in Side2(n, l);
  }

  function Range(lo: int, hi: int): (s: set<int>)
    requires lo <= hi
    ensures forall x :: x in s <==> lo <= x < hi
    ensures |s| == hi - lo
    decreases hi - lo
  {
    if lo == hi then {} else Range(lo, hi - 1) + {hi - 1}
  }

  lemma MakePartitionLists(n: nat, l: int)
    requires n >= 2 && 0 <= l < n
    ensures AllListed(Side1(n, l), Side2(n, l), n)
  {
    forall x
      ensures x in Side1(n, l) <==> OnSide1(n, l, x)
      ensures x in Side2(n, l) <==> OnSide2(n, l, x)
    {
      Side1Members(n, l, x);
      Side2Members(n, l, x);
    }
  }

  /** Server 0 is on the second list by accident. */
  function Stray(n: nat): set<int> {
    if n >= 4 && n % 2 == 0 then {0} else {}
  }

  lemma ReachOfLeader(g: Group, l: int)
    requires g.WellFormed() && g.InRange(l) && g.N() >= 2
    requires Split(g, Side1(g.N(), l), Side2(g.N(), l))
    ensures Reach(g, l) == UpFrom(g.N(), l) + {l} + Stray(g.N())
  {
    var n := g.N();
    MakePartitionLists(n, l);
    Side2Members(n, l, l);
    forall b | g.InRange(b)
      ensures b in Reach(g, l) <==> OnSide2(n, l, b)
    {
      Side2Members(n, l, b);
      SplitIsExact(g, Side1(n, l), Side2(n, l), l, b);
    }
  }

  /** The servers after those that go to the first side. */
  function UpFrom(n: nat, l: int): set<int>
    requires n >= 2
  {
    if Top(n, l) + 1 <= n then Range(Top(n, l) + 1, n) else {}
  }

  lemma RestSize(all: set<int>, part: set<int>)
    requires part <= all
    ensures |all - part| == |all| - |part|
  {
    assert all == part + (all - part);
  }

  /** How many servers MakePartition leaves on the leader's side, itself included. */
  lemma LeaderSideSize(n: nat, l: int)
    requires n >= 2 && 0 <= l < n
    ensures |UpFrom(n, l) + {l} + Stray(n)| == if n >= 4 && n % 2 == 0 && l == 0 then n / 2 - 1 else n / 2
    ensures UpFrom(n, l) + {l} + Stray(n) <= Range(0, n)
  {
    var above := UpFrom(n, l);
    assert l > n / 2 ==> above + {l} == above;
    assert l <= n / 2 ==> l !in above;
    assert n >= 4 ==> 0 !in above;
    assert l == 0 ==> above + {l} + {0} == above + {l};
  }

  /** Where MakePartition and Partition leave the leader l, for every size the code accepts. The others are a
      majority, and the leader's side a minority, just when the group is odd or it is even, l is 0 and n >= 4. */
  lemma LeaderReaches(g: Group, l: int)
    requires g.WellFormed() && g.InRange(l) && g.N() >= 2
    requires Split(g, Side1(g.N(), l), Side2(g.N(), l))
    ensures var n := g.N();
      |Reach(g, l)| == if n >= 4 && n % 2 == 0 && l == 0 then n / 2 - 1 else n / 2
    ensures |Range(0, g.N()) - Reach(g, l)| == g.N() - |Reach(g, l)|
    ensures 2 * |Range(0, g.N()) - Reach(g, l)| > g.N() <==> g.N() % 2 == 1 || (g.N() >= 4 && l == 0)
    ensures 2 * |Reach(g, l)| < g.N() <==> g.N() % 2 == 1 || (g.N() >= 4 && l == 0)
  {
    ReachOfLeader(g, l);
    LeaderSideSize(g.N(), l);
    RestSize(Range(0, g.N()), Reach(g, l));
  }

  /** The others are linked as one. */
  lemma OthersAreLinked(g: Group, l: int, a: int, b: int)
    requires g.WellFormed() && g.InRange(l) && g.N() >= 2
    requires Split(g, Side1(g.N(), l), Side2(g.N(), l))
    requires g.InRange(a) && a !in Reach(g, l) && g.InRange(b)
    ensures g.Link(a, b) <==> b !in Reach(g, l)
  {
    var p1, p2 := Side1(g.N(), l), Side2(g.N(), l);
    MakePartitionLists(g.N(), l);
    Side2Members(g.N(), l, l);
    SplitIsExact(g, p1, p2, l, a);
    SplitIsExact(g, p1, p2, l, b);
    SplitIsExact(g, p1, p2, a, b);
  }

  // ---------- without partitions ----------

  /** What the annotations rely on: a link is up exactly when both ends are marked as connected. */
  ghost predicate Precise(g: Group)
    requires g.WellFormed()
  {
    forall a, b | g.InRange(a) && g.InRange(b) :: g.Link(a, b) <==> g.connected[a] && g.connected[b]
  }

  datatype Op = ConnectOne(i: int) | ConnectAll | DisconnectAll(i: int) | Shutdown(i: int) | Start(i: int)

  /** One call from g to h; ConnectAll is a ConnectOne for each server in turn. */
  ghost predicate Performs(g: Group, op: Op, h: Group) {
    && g.WellFormed()
    && match op
       case ConnectOne(i) => g.InRange(i) && Connects(g, i, All(g.N()), h)
       case ConnectAll => ConnectsFirst(g, g.N(), h)
       case DisconnectAll(i) => g.InRange(i) && Disconnects(g, i, All(g.N()), h)
       case Shutdown(i) => g.InRange(i) && Disconnects(g, i, All(g.N()), h)
       case Start(i) => g.InRange(i) && Restarts(g, i, h)
  }

  ghost predicate ConnectsFirst(g: Group, n: nat, h: Group)
    requires g.WellFormed()
  {
    if n == 0 then h == g
    else n <= g.N() && exists mid ::
      ConnectsFirst(g, n - 1, mid) && mid.WellFormed() && mid.N() == g.N() && Connects(mid, n - 1, All(g.N()), h)
  }

  lemma ConnectKeepsPrecise(g: Group, i: int, h: Group)
    requires g.WellFormed() && g.InRange(i) && Precise(g) && Connects(g, i, All(g.N()), h)
    ensures h.WellFormed() && Precise(h)
  {
  }

  lemma {:induction false} ConnectsFirstPrecise(g: Group, n: nat, h: Group)
    requires g.WellFormed() && Precise(g) && ConnectsFirst(g, n, h)
    ensures h.WellFormed() && Precise(h)
    decreases n
  {
    hide Connects, Precise;
    if n > 0 {
      var mid :| ConnectsFirst(g, n - 1, mid) && mid.WellFormed() && mid.N() == g.N()
                 && Connects(mid, n - 1, All(g.N()), h);
      ConnectsFirstPrecise(g, n - 1, mid);
      ConnectKeepsPrecise(mid, n - 1, h);
    }
  }

  lemma PerformsKeepsShape(g: Group, op: Op, h: Group)
    requires Performs(g, op, h)
    ensures h.WellFormed() && h.N() == g.N()
  {
    if op.ConnectAll? {
      ConnectsFirstLinks(g, g.N(), h);
    }
  }

  /** What ConnectAll has done after its first n servers. */
  lemma {:induction false} ConnectsFirstLinks(g: Group, n: nat, h: Group)
    requires g.WellFormed() && n <= g.N() && ConnectsFirst(g, n, h)
    ensures h.WellFormed() && h.N() == g.N()
    ensures forall a | 0 <= a < n :: h.connected[a]
    ensures forall a, b | 0 <= a < n && 0 <= b < n :: h.Link(a, b)
    decreases n
  {
    if n > 0 {
      var mid :| ConnectsFirst(g, n - 1, mid) && mid.WellFormed() && mid.N() == g.N()
                 && Connects(mid, n - 1, All(g.N()), h);
      ConnectsFirstLinks(g, n - 1, mid);
    }
  }

  /** A start brings ends that are all disabled, and leaves the flag as it is. */
  lemma StartKeepsPreciseIfDown(g: Group, i: int, h: Group)
    requires g.WellFormed() && g.InRange(i) && Restarts(g, i, h) && Precise(g)
    ensures h.WellFormed()
    ensures Precise(h) <==> !g.connected[i]
  {
    if g.connected[i] {
      assert h.connected[i] && !h.Link(i, i);
    }
  }

  lemma DisconnectKeepsPrecise(g: Group, i: int, h: Group)
    requires g.WellFormed() && g.InRange(i) && Precise(g) && Disconnects(g, i, All(g.N()), h)
    ensures h.WellFormed() && Precise(h)
  {
  }

  /** The calls keep the flags precise, except a start of a server that is marked connected, which never does. */
  lemma OpKeepsPrecise(g: Group, op: Op, h: Group)
    requires Performs(g, op, h) && Precise(g)
    ensures h.WellFormed()
    ensures Precise(h) <==> !(op.Start? && g.connected[op.i])
  {
    hide Precise, Connects, Disconnects, Restarts;
    match op
    case ConnectOne(i) => ConnectKeepsPrecise(g, i, h);
    case ConnectAll => ConnectsFirstPrecise(g, g.N(), h);
    case DisconnectAll(i) => DisconnectKeepsPrecise(g, i, h);
    case Shutdown(i) => DisconnectKeepsPrecise(g, i, h);
    case Start(i) => StartKeepsPreciseIfDown(g, i, h);
  }

  /** Whatever came before, ConnectAll makes the flags precise again. */
  lemma ConnectAllRestoresPrecise(g: Group, h: Group)
    requires Performs(g, ConnectAll, h)
    ensures h.WellFormed() && Precise(h)
  {
    ConnectsFirstLinks(g, g.N(), h);
  }

  /** Such a start needs no Partition: shut a server down, connect it or everyone, start it. */
  lemma StartAfterConnectIsNotPrecise(g: Group, i: int, down: Group, op: Op, up: Group, h: Group)
    requires PreciseIn(g) && Performs(g, Shutdown(i), down)
    requires (op == ConnectOne(i) || op == ConnectAll) && Performs(down, op, up)
    requires Performs(up, Start(i), h)
    ensures h.WellFormed() && !Precise(h)
  {
    OpKeepsPrecise(g, Shutdown(i), down);
    OpKeepsPrecise(down, op, up);
    if op.ConnectAll? {
      ConnectsFirstLinks(down, down.N(), up);
    }
    OpKeepsPrecise(up, Start(i), h);
  }

  ghost predicate PreciseIn(g: Group) {
    g.WellFormed() && Precise(g)
  }

  ghost predicate IsRun(gs: seq<Group>, ops: seq<Op>) {
    && |gs| == |ops| + 1 && gs[0].WellFormed()
    && (forall a | gs[0].InRange(a) :: !gs[0].connected[a])
    && (forall a, b | gs[0].InRange(a) && gs[0].InRange(b) :: !gs[0].Link(a, b))
    && forall k | 0 <= k < |ops| :: Performs(gs[k], ops[k], gs[k + 1])
  }

  /** No server is started while it is marked connected. */
  ghost predicate StartsFindDown(gs: seq<Group>, ops: seq<Op>)
    requires |gs| == |ops| + 1
  {
    forall k | 0 <= k < |ops| && ops[k].Start? && gs[k].InRange(ops[k].i) :: !gs[k].connected[ops[k].i]
  }

  lemma {:induction false} PreciseSoFar(gs: seq<Group>, ops: seq<Op>, k: nat)
    requires IsRun(gs, ops) && StartsFindDown(gs, ops) && k <= |ops|
    ensures PreciseIn(gs[k])
  {
    hide Performs;
    if k > 0 {
      PreciseSoFar(gs, ops, k - 1);
      assert Performs(gs[k - 1], ops[k - 1], gs[k]);
      NextIsPrecise(gs[k - 1], ops[k - 1], gs[k]);
    }
  }

  lemma NextIsPrecise(g: Group, op: Op, h: Group)
    requires PreciseIn(g) && Performs(g, op, h)
    requires op.Start? && g.InRange(op.i) ==> !g.connected[op.i]
    ensures PreciseIn(h)
  {
    OpKeepsPrecise(g, op, h);
  }

  lemma StartFoundDown(g: Group, op: Op, h: Group)
    requires PreciseIn(g) && Performs(g, op, h) && PreciseIn(h) && op.Start?
    ensures g.InRange(op.i) && !g.connected[op.i]
  {
    OpKeepsPrecise(g, op, h);
  }

  /** From a new group, where nothing is connected, through any sequence of these calls: the connected flags
      tell at every moment exactly which links are up if and only if no start finds its server marked. */
  lemma FlagsArePrecise(gs: seq<Group>, ops: seq<Op>)
    requires IsRun(gs, ops)
    ensures (forall k | 0 <= k <= |ops| :: PreciseIn(gs[k])) <==> StartsFindDown(gs, ops)
  {
    hide Performs, PreciseIn;
    if StartsFindDown(gs, ops) {
      forall k: nat | k <= |ops|
        ensures PreciseIn(gs[k])
      {
        PreciseSoFar(gs, ops, k);
      }
    } else if forall k | 0 <= k <= |ops| :: PreciseIn(gs[k]) {
      forall k | 0 <= k < |ops| && ops[k].Start?
        ensures gs[k].InRange(ops[k].i) && !gs[k].connected[ops[k].i]
      {
        StartFoundDown(gs[k], ops[k], gs[k + 1]);
      }
    }
  }

  /** Once Partition has set two sides apart the flags are wrong: everyone on a list is marked connected. If all
      servers are, they stay right only if one side is empty. */
  lemma PartitionIsNotPrecise(g: Group, p1: seq<int>, p2: seq<int>)
    requires g.WellFormed() && Split(g, p1, p2)
    ensures (exists x | x in p1 :: x !in p2) && p2 != [] ==> !Precise(g)
    ensures AllListed(p1, p2, g.N()) ==> (Precise(g) <==> p2 == [] || forall x | x in p1 :: x in p2)
  {
    if p2 != [] && exists x | x in p1 :: x !in p2 {
      var x :| x in p1 && x !in p2;
      var y := p2[0];
      assert y in p2;
      assert g.connected[x] && g.connected[y] && !g.Link(x, y);
    } else if AllListed(p1, p2, g.N()) {
      forall a, b | g.InRange(a) && g.InRange(b)
        ensures g.Link(a, b) && g.connected[a] && g.connected[b]
      {
        SplitIsExact(g, p1, p2, a, b);
      }
    }
  }
}
