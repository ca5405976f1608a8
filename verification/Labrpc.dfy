/** The simulated network of labrpc: the fields its lock guards and the methods that touch them. */
module Labrpc {

  type End = string

  /** "server-" + gid + "-" + i */
  datatype Name = ServerName(gid: int, i: int)

  /** A registered server object; equal ids are equal pointers. */
  type ServerId = nat

  datatype Option<T> = None | Some(value: T)

  /** The guarded fields. A nil entry of connections or servers is an absent key. */
  datatype Net = Net(reliable: bool, longReordering: bool, enabled: map<End, bool>,
                     connections: map<End, Name>, servers: map<Name, ServerId>)
  {
    predicate IsEnabled(end: End) {
      end in enabled && enabled[end]
    }

    /** Where a request from end is delivered, if anywhere. */
    function Target(end: End): Option<(Name, ServerId)> {
      if IsEnabled(end) && end in connections && connections[end] in servers
      then Some((connections[end], servers[connections[end]]))
      else None
    }

    // what the calls that change the network leave behind

    function Enable(end: End, on: bool): Net {
      this.(enabled := enabled[end := on])
    }

    function Connect(end: End, name: Name): Net {
      this.(connections := connections[end := name])
    }

    function DeleteEnd(end: End): Net {
      this.(enabled := enabled - {end}, connections := connections - {end})
    }

    function AddServer(name: Name, server: ServerId): Net {
      this.(servers := servers[name := server])
    }

    function DeleteServer(name: Name): Net {
      this.(servers := servers - {name})
    }

    predicate IsServerDead(end: End, name: Name, server: ServerId) {
      !IsEnabled(end) || !(name in servers && servers[name] == server)
    }
  }

  class Network {
    var reliable: bool
    var longReordering: bool
    var enabled: map<End, bool>
    var connections: map<End, Name>
    var servers: map<Name, ServerId>
    var ends: set<End>

    function View(): Net
      reads this
    {
      Net(reliable, longReordering, enabled, connections, servers)
    }

    constructor ()
      ensures View() == Net(true, false, map[], map[], map[]) && ends == {}
    {
      reliable, longReordering := true, false;
      enabled, connections, servers, ends := map[], map[], map[], {};
    }

    method ReadEndnameInfo(end: End)
      returns (isEnabled: bool, name: Option<Name>, server: Option<ServerId>, isReliable: bool, reorder: bool)
      ensures isEnabled == View().IsEnabled(end) && isReliable == reliable && reorder == longReordering
      ensures name == if end in connections then Some(connections[end]) else None
      ensures server == if name.Some? && name.value in servers then Some(servers[name.value]) else None
      ensures View().Target(end) ==
              if isEnabled && name.Some? && server.Some? then Some((name.value, server.value)) else None
    {
      isEnabled := end in enabled && enabled[end];
      name := if end in connections then Some(connections[end]) else None;
      server := None;
      if name.Some? && name.value in servers {
        server := Some(servers[name.value]);
      }
      isReliable, reorder := reliable, longReordering;
    }

    method IsServerDead(end: End, name: Name, server: ServerId) returns (dead: bool)
      ensures dead == View().IsServerDead(end, name, server)
    {
      if !(end in enabled && enabled[end]) || !(name in servers && servers[name] == server) {
        return true;
      }
      return false;
    }

    /** MakeEnd calls log.Fatalf on a name that exists. */
    method MakeEnd(end: End)
      requires end !in ends
      modifies this
      ensures ends == old(ends) + {end}
      ensures View() == old(View()).(enabled := old(enabled)[end := false], connections := old(connections) - {end})
    {
      ends := ends + {end};
      enabled := enabled[end := false];
      connections := connections - {end};
    }

    method DeleteEnd(end: End)
      requires end in ends
      modifies this
      ensures ends == old(ends) - {end}
      ensures View() == old(View()).DeleteEnd(end)
    {
      ends, enabled, connections := ends - {end}, enabled - {end}, connections - {end};
    }

    method Connect(end: End, name: Name)
      modifies this
      ensures ends == old(ends) && View() == old(View()).Connect(end, name)
    {
      connections := connections[end := name];
    }

    method Enable(end: End, on: bool)
      modifies this
      ensures ends == old(ends) && View() == old(View()).Enable(end, on)
    {
      enabled := enabled[end := on];
    }

    method AddServer(name: Name, server: ServerId)
      modifies this
      ensures ends == old(ends) && View() == old(View()).AddServer(name, server)
    {
      servers := servers[name := server];
    }

    method DeleteServer(name: Name)
      modifies this
      ensures ends == old(ends) && View() == old(View()).DeleteServer(name)
    {
      servers := servers - {name};
    }
  }
}
