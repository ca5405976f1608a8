# Models and proofs for the 6.5840 lab code

Most of the lab repository is a skeleton for students; what is modelled here is the code that is implemented: the shard
allocator, the linearizability model, the simulated network with the tester's server groups, the client loops and
checkers of the key/value tests, the log checker of the Raft tests, and the sequential MapReduce program. Each part is
modelled on its own terms and the properties its comments, tests or later code rely on are proved for all inputs, all
interleavings and all runs. `dafny verify dfyconfig.toml` checks everything.

- `ShardRebalance`, `ShardConfig` (with `SetSums`): `Rebalance` as a function of the shard array and the set of groups.
  The methods of `ShardConfig` update the configuration in place, read the group map in an arbitrary order, and are
  proved to compute that function. It balances, it terminates, it writes no shard twice, and no balanced assignment to
  the same groups moves fewer shards; groups give their lowest shards, and ties go to the smaller gid. On top of it, every run of successful `JoinBalance` and `LeaveBalance` calls.
- `KvModel`, `Locality` (with `GoStrings`): `Partition`, `Init` and `Step`, and the locality theorem behind the comment
  "we're partitioning by key, so this is okay", in both directions and with real-time order.
- `Labrpc`, `CrashProtocol`: the network's tables as an object, and a step system in which requests in all phases race
  with handlers that save, with `ShutdownServer` and `StartServer`, and with every change of the network. Acknowledged
  saves survive; requests are dispatched and answered at most once; dispatch counts are exact. From every initial
  state there is a run that loses an acknowledged save if the Persister is copied before the server is deleted.
- `ServerGroups`: the link matrix under `connect`, `disconnect`, shutdown, restart and `Partition`, over real objects
  (network, servers, Persisters).
- `AppendClients`, `PutClients` (with `KvTest`): any number of client loops over one atomic versioned register that
  obeys `KvModel.Step`, and the checkers of what they leave behind.
- `RaftHarness`: `checkLogs`, the two appliers, `ingestSnap` and `nCommitted`, and error-free runs of both appliers;
  if Raft keeps its snapshots, logs agree through snapshots and restarts.
- `MapReduce`: the in-place sort and the grouping loop of the sequential program, and why one run per bucket of `ihash`
  gives the same lines.

Where a model is a state machine, an event is one atomic action of the source: a critical section, a channel operation,
a handler's `Save`, one call of a clerk. What the source leaves to chance (message loss, delays, the order of map keys,
the outcome of an unstable sort, scheduling) is left open.

Where the code and its documentation part:

- The comment on `MakePartition` says that the current leader ends up in a minority. `ServerGroups.LeaderReaches` says
  where it does end up: after `Partition` with these lists, for any group of at least two, the others are a majority if
  and only if the group is odd, or has at least four servers and the leader is server 0. In every other even group the
  leader keeps exactly half. The lists themselves split the group under a slightly different condition, because of the
  zeros the arrays start with (`ServerGroups.MakePartitionCovers`).
- `OnePut` reports "Wrong value" only if both fields differ (`&&`). The model keeps that, and
  `PutClients.OnePutNeverFails` shows that the stricter check would never fire either.
- The comment on the connected flags says that they are precise if and only if `Partition` is not used. Neither half
  holds as it stands. A start leaves the flag alone but brings disabled ends, so starting a server that is marked
  connected makes the flags wrong without any `Partition` (`ServerGroups.StartAfterConnectIsNotPrecise`); `restart` in
  `src/raft1/test.go:59-62` starts a server and then connects everyone, so restarting several stopped servers in turn
  does that. Through any run without `Partition` the flags are precise at every moment if and only if no start finds its
  server marked (`ServerGroups.FlagsArePrecise`), and `ConnectAll` makes them precise from any state
  (`ServerGroups.ConnectAllRestoresPrecise`). After a `Partition` whose lists name every server they are precise exactly
  when one side is empty (`ServerGroups.PartitionIsNotPrecise`).

`KvModel.Step` compares neither version nor error on a get, as in the code.

The locality theorem assumes that no operation returns before it is called; `Locality.LocalityNeedsIntervals` shows
that the premise is needed. The comment in the recorder promises a monotonic clock for it
(`src/kvtest1/porcupine.go:44-48`). The times are taken relative to `time.Unix(0, 0)`, which according to the
documentation of Go's package `time` carries no monotonic reading, so the premise rests on the wall clock not being set
back during an operation.

## Model

| member | source | states |
|---|---|---|
| `ShardConfigs.ShardConfig.constructor` | `src/shardkv1/shardcfg/shardcfg.go:44-49` | a new configuration is the initial one: number 0, no groups, all shards unassigned |
| `ShardConfigs.ShardConfig.Analyze` | `src/shardkv1/shardcfg/shardcfg.go:80-111` | for every order in which the map yields its keys: the most and least loaded groups, ties to the smallest gid, with their loads; the sentinels exactly when there are no groups |
| `ShardConfigs.ShardConfig.LeastGroup` | `src/shardkv1/shardcfg/shardcfg.go:115-118` | the least loaded group, smallest gid first |
| `ShardConfigs.ShardConfig.Rebalance` | `src/shardkv1/shardcfg/shardcfg.go:122-154` | terminates and leaves exactly `Rebalanced(shards, groups)`, whatever the order of the map keys |
| `ShardRebalance.MoveOneLowersImbalance` | `src/shardkv1/shardcfg/shardcfg.go:141-153` | each move lowers the sum of squared loads by at least 2 |
| `ShardRebalance.GrantKeeps` | `src/shardkv1/shardcfg/shardcfg.go:131-138` | assigning an orphan to the least loaded group: nobody gives, and no receiver is more than 1 above any group |
| `ShardRebalance.MoveKeeps` | `src/shardkv1/shardcfg/shardcfg.go:141-153` | a move keeps that no group both gives and receives, that givers stay within 1 of the maximum and receivers within 1 of the minimum, and changes a shard that was not changed before |
| `ShardRebalance.RebalancedIsBalanced` | `src/shardkv1/shardcfg/shardcfg.go:122-154` | with groups present every shard ends in a member group, loads differ by at most 1 and sum to the number of shards |
| `ShardRebalance.NoShardWrittenTwice` | `src/shardkv1/shardcfg/shardcfg.go:131-153` | the number of writes of both loops is the number of shards that changed hands |
| `ShardRebalance.NoNeedlessMove` | `src/shardkv1/shardcfg/shardcfg.go:131-153` | a shard of a member group that moves came from a group with at least two more shards than its new one |
| `ShardRebalance.BalancedIsFixed` | `src/shardkv1/shardcfg/shardcfg.go:122-154` | a balanced configuration is left alone |
| `ShardRebalance.MinimalMovement` | `src/shardkv1/shardcfg/shardcfg.go:131-153` | any balanced assignment to the same groups differs from the start in at least as many shards |
| `ShardRebalance.LowestShardsMove` | `src/shardkv1/shardcfg/shardcfg.go:141-153` | a group that gives shards away gives its lowest ones |
| `ShardRebalance.TiesGoToSmallerGid` | `src/shardkv1/shardcfg/shardcfg.go:99-110` | of two groups with equal loads, if the larger gid loses shards the smaller ends with no more than it, and if the larger gains some the smaller ends with no fewer |
| `ShardRebalance.OrphansAreDealt` | `src/shardkv1/shardcfg/shardcfg.go:131-138` | if no shard belongs to a group, shard s goes to the (s modulo k)-th smallest of the k gids |
| `ShardConfigs.ShardConfig.Join` | `src/shardkv1/shardcfg/shardcfg.go:156-183` | succeeds exactly when there is something to join, all gids are new and no server would be in two groups, and then adds exactly those groups and one to Num; refused only for a gid that exists, fatal only for an empty map or a shared server; the partial edit a failure leaves |
| `ShardConfigs.ShardConfig.Leave` | `src/shardkv1/shardcfg/shardcfg.go:185-205` | succeeds exactly on a non-empty list of different existing gids, and then removes exactly those and adds one to Num; fatal exactly on the empty list; the partial edit a failure leaves |
| `ShardConfigs.ShardConfig.JoinBalance` | `src/shardkv1/shardcfg/shardcfg.go:207-213` | join and rebalance; shards and number untouched on failure |
| `ShardConfigs.ShardConfig.LeaveBalance` | `src/shardkv1/shardcfg/shardcfg.go:215-221` | leave and rebalance; shards and number untouched on failure |
| `ShardConfigs.ShardConfig.IsMember` | `src/shardkv1/shardcfg/shardcfg.go:229-236` | true exactly when some shard is assigned to the gid |
| `ShardConfigs.ShardConfig.CheckConfig` | `src/shardkv1/shardcfg/shardcfg.go:238-279` | passes exactly when as many groups as expected exist, the expected ones do, shards are in groups if any are expected, and loads differ by at most 1 |
| `ShardConfigs.ApplySettles` | `src/shardkv1/shardcfg/shardcfg.go:207-221` | one successful call keeps the configuration balanced with no server in two groups |
| `ShardConfigs.RunInvariant` | `src/shardkv1/shardcfg/shardcfg.go:156-221` | along every run of successful calls Num counts the calls, the groups are the joined-and-not-left ones, servers are in one group each, shards are balanced (or all 0) |
| `ShardConfigs.CheckPassesExactly` | `src/shardkv1/shardcfg/shardcfg.go:238-279` | after any such run `CheckConfig` passes on a list without repetitions if and only if it lists the joined-and-not-left groups |
| `ShardConfigs.IsMemberExact` | `src/shardkv1/shardcfg/shardcfg.go:229-236` | after any such run `IsMember` decides membership if and only if there is a group and no more groups than shards |
| `ShardConfigs.JoinMovesOnlyToJoiners` | `src/shardkv1/shardcfg/shardcfg.go:122-213` | a successful join moves shards only onto joining groups |
| `ShardConfigs.LeaveMovesOnlyTheirShards` | `src/shardkv1/shardcfg/shardcfg.go:122-221` | a successful leave that leaves some group moves exactly the shards of the departed groups |
| `GoStrings.LessExactly` | `src/main/mrsequential.go:23` | the order of strings is lexicographic by bytes: the smaller byte at the first difference, or the end of the first string |
| `KvModel.Partition` | `src/models1/kv.go:27-43` | one part for each key that occurs, in ascending order of keys, each the operations on its key in history order |
| `KvModel.PartitionUnique` | `src/models1/kv.go:27-43` | the result does not depend on the order of the map's keys |
| `Locality.AcceptsExactly` | `src/models1/kv.go:49-67` | `Step` accepts an order if and only if every get returns the value of the last put that took effect, and every put is answered OK or ErrVersion according to whether it carries the version reached so far, or ErrMaybe |
| `Locality.GetReturnsLastPut` | `src/models1/kv.go:49-67` | in an accepted order a get returns what the last put before it wrote, if that was answered OK |
| `Locality.GetReturnsSomePut` | `src/models1/kv.go:49-67` | in an accepted order a get returns the initial value or that of an earlier put not answered ErrVersion |
| `Locality.FreshRegister` | `src/models1/kv.go:44-67` | from `Init`: gets before any put return the empty string, and a put is answered OK only with version 0, ErrVersion only with another |
| `Locality.OkPutsRise` | `src/models1/kv.go:49-67` | in any order `Step` accepts, the puts answered OK carry strictly rising versions |
| `Locality.StoreAcceptsByKey` | `src/models1/kv.go:44-67` | a map of registers accepts an order exactly when each register accepts its part |
| `Locality.StoreToKey` | `src/models1/kv.go:27-67` | a history linearizable against the store is so key by key, real time included |
| `Locality.StampTimed` | `src/models1/kv.go:27-67` | giving each operation the latest call so far puts a point between its call and its return, never going back |
| `Locality.KeysToStore` | `src/models1/kv.go:27-67` | linearizations of the single keys merge, by those points, into one of the store that respects real time |
| `Locality.LocalityTheorem` | `src/models1/kv.go:27-63` | a history of operations with call <= return is linearizable against the store if and only if every part `Partition` returns is linearizable against the single-key model |
| `Locality.LocalityNeedsIntervals` | `src/models1/kv.go:27-63` | without call <= return it fails for any two operations on different keys, each possible alone, that each return before the other is called |
| `Labrpc.Network.ReadEndnameInfo` | `src/labrpc/labrpc.go:212-226` | the flags at that moment, the name the end is connected to and the server registered under it, and with them where the request is routed |
| `Labrpc.Network.IsServerDead` | `src/labrpc/labrpc.go:228-236` | dead if the end is disabled or the name is no longer registered to that server object |
| `Labrpc.Network.MakeEnd` | `src/labrpc/labrpc.go:333-350` | a new end, disabled and not connected; nothing else changes |
| `Labrpc.Network.DeleteEnd` | `src/labrpc/labrpc.go:352-362` | forgets the end; nothing else changes |
| `Labrpc.Network.AddServer` | `src/labrpc/labrpc.go:364-369` | registers the server; nothing else changes |
| `Labrpc.Network.DeleteServer` | `src/labrpc/labrpc.go:371-376` | unregisters the name; nothing else changes |
| `Labrpc.Network.Connect` | `src/labrpc/labrpc.go:380-385` | routes the end; nothing else changes |
| `Labrpc.Network.Enable` | `src/labrpc/labrpc.go:388-393` | sets the flag; nothing else changes |
| `CrashProtocol.EveryStepGrows` | `src/tester1/persister.go:30-58` | no step takes a save out of a Persister, or out of the state kept for a server name |
| `CrashProtocol.SystemStaysFine` | `src/tester1/group.go:235-268` | every step keeps: only the instance in charge of a name writes to the Persister kept for it, names do not share Persisters, a registered instance is the one in charge |
| `CrashProtocol.StepKeepsFine` | `src/labrpc/labrpc.go:238-329` | every step also keeps what each request knows: a positive last check means the handler has finished and its saves are in the state kept |
| `CrashProtocol.AcknowledgedSavesSurvive` | `src/labrpc/labrpc.go:284-310` | in every interleaving: once a request is answered true, every save of its handler is in the Persister kept for the server, through any number of shutdowns and restarts, and in the one of any instance now running under that name |
| `CrashProtocol.ReplacedInstanceWritesNowhere` | `src/tester1/srv.go:34-47` | a save by an instance that is not in charge does not reach the Persister kept |
| `CrashProtocol.CumulativeSaves` | `src/tester1/persister.go:53-58` | if every save subsumes the one before it, the contents of a Persister subsume all saves it ever took |
| `CrashProtocol.AtMostOnce` | `src/labrpc/labrpc.go:238-329` | each request is dispatched at most once and gets at most one reply |
| `CrashProtocol.TrueReplyHadPositiveCheck` | `src/labrpc/labrpc.go:284-311` | behind a true reply is a check, made after the handler was dispatched once and had completed, that found its server registered and the end enabled |
| `CrashProtocol.FalseReplyHadFailure` | `src/labrpc/labrpc.go:238-329` | behind a false reply is a request with nowhere to go, a drop on a network that was unreliable, or a check that found the server dead at that moment |
| `CrashProtocol.RoutedOnce` | `src/labrpc/labrpc.go:238-241` | the server, the reliability and the reordering a request works with are those read when it was routed |
| `CrashProtocol.HandlerRunsWhereRouted` | `src/labrpc/labrpc.go:259-263` | a handler runs on the server the end led to then |
| `CrashProtocol.FaultsFollowFlags` | `src/labrpc/labrpc.go:247-307` | a request or reply is dropped only if the network was unreliable then, a reply is delayed only if it was reordering then |
| `CrashProtocol.ServesAlone` | `src/labrpc/labrpc.go:238-329` | in every reachable state a request left to itself is answered, true exactly if its end leads to a server |
| `CrashProtocol.GivesUp` | `src/labrpc/labrpc.go:268-294` | a request whose server is dead can be answered false without its handler returning |
| `CrashProtocol.LateHandlerEnds` | `src/labrpc/labrpc.go:276-281` | a handler that returns later still ends, its reply thrown away |
| `CrashProtocol.CountsAreExact` | `src/labrpc/labrpc.go:435-466` | the count of a server is the number of requests dispatched to it |
| `CrashProtocol.CopyBeforeDeleteLosesSaves` | `src/tester1/group.go:255-268` | in any state the invariant allows, with a handler just begun: if the Persister is copied before DeleteServer, the handler can save and be answered true without its save being in the state kept |
| `CrashProtocol.LosingRun` | `src/tester1/group.go:255-268` | from every initial state, for any name, end and data, there is a run that reaches such a state, so the loss does happen in that order |
| `CrashProtocol.RestartsWithSavedState` | `src/tester1/srv.go:34-94` | in every reachable state a running server can be shut down and started; the new instance is in charge and has a Persister of its own with exactly what the old one had persisted |
| `ServerGroups.Persister.Copy` | `src/tester1/persister.go:30-37` | a new object with the same contents |
| `ServerGroups.Persister.Save` | `src/tester1/persister.go:53-58` | both contents replaced |
| `ServerGroups.Server.ShutdownServer` | `src/tester1/srv.go:75-94` | the server keeps a fresh copy of its Persister, the old object stays with the old instance |
| `ServerGroups.ServerGrp.constructor` | `src/tester1/group.go:80-96` | n servers with n ends each, the b-th of each routed to server b, no link enabled, nobody connected |
| `ServerGroups.ServerGrp.MakeServer` | `src/tester1/srv.go:19-31` | fresh disabled ends, the b-th routed to server b; no other end's flag or routing changes |
| `ServerGroups.ServerGrp.LinkDelivers` | `src/labrpc/labrpc.go:212-226` | while a server's name is registered, requests to it are delivered to it exactly if the link is enabled |
| `ServerGroups.ServerGrp.ConnectOutgoing` | `src/tester1/srv.go:50-60` | enables exactly the links from i to the connected servers of the list |
| `ServerGroups.ServerGrp.DisconnectOutgoing` | `src/tester1/srv.go:62-73` | disables exactly the links from i to the list |
| `ServerGroups.ServerGrp.ConnectTo` | `src/tester1/group.go:155-171` | i is marked connected and linked both ways with exactly the connected ones of the list; no other link changes |
| `ServerGroups.ServerGrp.DisconnectFrom` | `src/tester1/group.go:175-194` | i is marked disconnected and unlinked both ways from exactly the list; no other link changes |
| `ServerGroups.ServerGrp.ConnectOne` | `src/tester1/group.go:140-142` | connect to everyone |
| `ServerGroups.ServerGrp.DisconnectAll` | `src/tester1/group.go:196-198` | disconnect from everyone |
| `ServerGroups.ServerGrp.ConnectAll` | `src/tester1/group.go:134-138` | from any state every server is connected and every link enabled |
| `ServerGroups.ServerGrp.ShutdownServer` | `src/tester1/group.go:255-268` | the server is isolated, exactly its name is unregistered, and a fresh copy of its Persister is put aside |
| `ServerGroups.ServerGrp.StartServer` | `src/tester1/group.go:235-246` | a new server object with fresh disabled ends, routed by index, is registered, with a fresh copy of the Persister put aside or an empty one; all other links and routes stay |
| `ServerGroups.ServerGrp.RestartState` | `src/tester1/srv.go:34-47` | a fresh Persister: the last persisted state, or empty |
| `ServerGroups.ServerGrp.Partition` | `src/tester1/group.go:302-312` | from any link state, on any two lists: those only on the first are linked as one, those on the second are linked as one, nothing goes between; if everyone is on a list, a link is enabled exactly when both servers are on the second or neither is |
| `ServerGroups.ServerGrp.MakePartition` | `src/tester1/group.go:283-300` | the two arrays, unfilled zeros included |
| `ServerGroups.MakePartitionCovers` | `src/tester1/group.go:283-300` | the arrays split the group if and only if n is odd, or n is 2 and l is 1, or n >= 4 and l is 0 |
| `ServerGroups.LeaderReaches` | `src/tester1/group.go:282-312` | for n >= 2, after `Partition` with these arrays l reaches n/2 servers including itself (n/2 - 1 for l = 0 of an even n >= 4); the rest are a majority, and l's side a minority, if and only if n is odd or n >= 4 and l = 0 |
| `ServerGroups.OthersAreLinked` | `src/tester1/group.go:283-312` | any server l does not reach reaches exactly those l does not reach |
| `ServerGroups.StartKeepsPreciseIfDown` | `src/tester1/group.go:235-246` | a start keeps precise flags precise if and only if the server is not marked connected |
| `ServerGroups.OpKeepsPrecise` | `src/tester1/group.go:134-268` | ConnectOne, ConnectAll, DisconnectAll, ShutdownServer and StartServer keep "a link is enabled exactly when both ends are marked connected", except a start of a server marked connected, which always breaks it |
| `ServerGroups.ConnectAllRestoresPrecise` | `src/tester1/group.go:134-142` | ConnectAll makes the flags precise from any state |
| `ServerGroups.StartAfterConnectIsNotPrecise` | `src/tester1/annotation.go:221-224` | from precise flags, ShutdownServer(i), then ConnectOne(i) or ConnectAll, then StartServer(i) makes them wrong |
| `ServerGroups.FlagsArePrecise` | `src/tester1/annotation.go:221-224` | through any sequence of these calls on a new group the flags are precise at every moment if and only if no start finds its server marked connected |
| `ServerGroups.PartitionIsNotPrecise` | `src/tester1/annotation.go:221-224` | once two non-empty sides are set apart the connected flags are not precise; if everyone is on a list they are precise if and only if one side is empty |
| `AppendClients.CheckAppends` | `src/kvtest1/kvtest.go:361-390` | passes exactly when each client's numbers rise, the value has one entry per version after the first, and gaps and totals stay within what the clients report |
| `AppendClients.StepKeepsFine` | `src/kvtest1/kvtest.go:327-352` | every step of any client keeps the invariant between the register and all clients' loops |
| `AppendClients.AppendRunsPass` | `src/kvtest1/kvtest.go:327-390` | for any number of clients and any interleaving, what the run leaves passes every check of `CheckAppends` |
| `AppendClients.TalliesAreExact` | `src/kvtest1/kvtest.go:327-352` | in every run each client's nok and nmay are the numbers of its puts answered OK and ErrMaybe, i is their sum, and it goes on to the next entry or stops only after such an answer |
| `AppendClients.AppendsAlone` | `src/kvtest1/kvtest.go:327-352` | from any state a client left to itself appends its next entry in one try |
| `PutClients.CheckPutConcurrent` | `src/kvtest1/kvtest.go:126-140` | adds up the tallies and passes exactly when the version equals the successful puts (reliable), or is at most successful plus undecided ones |
| `PutClients.StepKeepsFine` | `src/kvtest1/kvtest.go:208-227` | every step keeps the version between successful and successful plus undecided puts, and what each client knows of the register |
| `PutClients.OnePutNeverFails` | `src/kvtest1/kvtest.go:208-227` | in no run does `OnePut` stop at a wrong error, an undecodable value or "Wrong value"; a successful put that is still the last left exactly its own value |
| `PutClients.PutRunsPass` | `src/kvtest1/kvtest.go:126-140` | the final version lies between Nok and Nok+Nmaybe, so the check passes, and in its reliable form too when nothing was undecided |
| `PutClients.TalliesAreExact` | `src/kvtest1/kvtest.go:208-284` | in every run each client's Nok and Nmaybe are the numbers of its puts answered OK and ErrMaybe, its version is the one its last get found, and it goes on or stops only after such an answer |
| `PutClients.ReliableRunsPass` | `src/kvtest1/kvtest.go:126-140` | the sum handed to the checker counts all answers; where no put was answered ErrMaybe the version is exactly the number of puts answered OK and the reliable check passes |
| `PutClients.PutsAlone` | `src/kvtest1/kvtest.go:208-227` | from any state a client left to itself puts in at most two tries |
| `RaftHarness.RaftTest.CheckLogs` | `src/raft1/test.go:125-146` | reports a mismatch exactly if some server has another value at the index, and whether the predecessor was there; records the entry |
| `RaftHarness.RaftTest.Apply` | `src/raft1/server.go:100-118` | a command passes exactly when it conflicts with no server and is not out of order |
| `RaftHarness.RaftTest.ApplySnap` | `src/raft1/server.go:121-172` | a command passes exactly when it is the next one and conflicts with no server; every tenth yields the snapshot of entries 0 to its index |
| `RaftHarness.RaftTest.IngestSnap` | `src/raft1/server.go:175-205` | the log and lastApplied become those of the snapshot, unless the index does not match |
| `RaftHarness.RaftTest.NCommitted` | `src/raft1/test.go:180-206` | the number of servers that have the index and their common value, or a report that there is none |
| `RaftHarness.ErrorFreeRunsAgree` | `src/raft1/server.go:100-118` | after any error-free run of `applier` deliveries every server's positive indices are 1..n, the shorter of two logs is a prefix of the longer, and `nCommitted` finds no two values |
| `RaftHarness.InOrderRunsPass` | `src/raft1/server.go:100-118` | every run that delivers one list of commands to all servers in order, each at its own pace, passes, and the logs are the prefixes delivered |
| `RaftHarness.SnapshotRestoresEntries` | `src/raft1/server.go:151-205` | a snapshot taken at i restores exactly the indices 0..i, entries 1..i as they were, entry 0 as nil if there was none |
| `RaftHarness.SnapRunsAreFine` | `src/raft1/server.go:121-205` | error-free runs of commands, snapshots and restarts keep every server's positive indices at exactly 1..lastApplied and every snapshot whole |
| `RaftHarness.PredecessorIsThere` | `src/raft1/server.go:121-172` | so the missing-predecessor error of `applierSnap` is unreachable for the next command |
| `RaftHarness.SnapshotsComeFromLogs` | `src/raft1/server.go:47-57` | every snapshot a restart or the apply channel can bring was taken from a log that ran 1..i, and ingesting it restores exactly those entries |
| `RaftHarness.SnapshotsAgree` | `src/raft1/server.go:121-205` | in every error-free run in which restarts find the last snapshot the server made or was sent, and no snapshot takes a server back: any two logs agree on all positive indices both have, and each with every snapshot ever made |
| `RaftHarness.NothingMismatches` | `src/raft1/test.go:180-206` | so in such a run `nCommitted` finds no two values at a positive index |
| `RaftHarness.CatchesUp` | `src/raft1/server.go:121-149` | in such a run a server that is behind another can always be delivered the other's next entry without an error |
| `RaftHarness.TenthIsKept` | `src/raft1/server.go:151-166` | every tenth command leaves a snapshot that restores the log as it is then |
| `MapReduce.SortByKey` | `src/main/mrsequential.go:18-59` | in place, a permutation in ascending key order |
| `MapReduce.ReduceRuns` | `src/main/mrsequential.go:68-84` | the nested loops terminate and write one line for each run of equal keys, reduced from the run's values |
| `MapReduce.SortAndReduce` | `src/main/mrsequential.go:59-84` | both together |
| `MapReduce.OneGroupPerKey` | `src/main/mrsequential.go:59-84` | for every outcome of the unstable sort: one group per distinct key, keys strictly ascending, each holding every value exactly as often as the pair occurs; group sizes sum to the number of pairs |
| `MapReduce.LinesAreForKeys` | `src/main/mrsequential.go:68-84` | the output is, key by key, reduce of all the key's values |
| `MapReduce.LineReads` | `src/main/mrsequential.go:80-81` | if the key has no space, the line up to its first space is the key and the rest up to the final newline is reduce's output |
| `MapReduce.LinesDiffer` | `src/main/mrsequential.go:80-81` | so different keys or outputs give different lines |
| `MapReduce.BucketsGiveTheSameLines` | `src/main/mrsequential.go:59-84` | for every hash, number of buckets, outcome of each sort and reduce function that ignores order: the lines of all buckets are the lines of the sequential run, as multisets |
| `MapReduce.IhashBucketsGiveTheSameLines` | `src/mr/worker.go:17-25` | in particular for buckets by `ihash(key) % nReduce` |
| `MapReduce.FnvTakesOneMore` | `src/mr/worker.go:21-25` | the hash takes the bytes in order, each on top of the hash of those before it |
| `MapReduce.FnvKnownValues` | `src/mr/worker.go:21-25` | the values published for 32-bit FNV-1a of the empty string, "a", "ab" and "abc" |
| `MapReduce.IhashKnownValues` | `src/mr/worker.go:21-25` | `ihash` clears the top bit and nothing else, on a hash with it and one without |

## Left out

- Everything whose body is left to the student: Raft, RSM, the key/value servers and clerks, the lock, the shard
  controller, the shard groups, the MapReduce coordinator and worker. The properties above do not depend on them.
- Encoding (gob, JSON) and method lookup by reflection: a value that is encoded and decoded is the value; `Service.dispatch` is one call.
- Time, sleeps and probabilities: a step that may happen, may happen at any time. Nothing is claimed about progress.
- The search of the linearizability checker and its visualisation: only the model given to it is here.
- Annotations, printing, files, sockets, plugins, signals.
- After a failed `Join` or `Leave` nothing is claimed about balance: the contracts say which partial edits of the group map may remain, and no rebalancing follows.
- `log.Fatalf` and `t.Fatalf` are results (Fatal, failed, passed, mismatch) of the methods that call them; what would run if they returned is not modelled.
- `ShardConfigs.ShardConfig.Join`: the three nested loops that look for a shared server are one condition, and the slices of server names are values, not shared with the caller.
- `slices.Sort`, `sort.Strings` and `sort.Sort` are replaced by insertion; `sort.Sort`'s contract is all that is used of it.
- `KvModel.Step` on the state "<invalid>" refuses; in Go the type assertion would panic. No accepted order gets there.
- `Locality.OkPutsRise`: for fewer than 2^64 operations; beyond that the version wraps around.
- `AppendClients.AppendRunsPass`: for runs of fewer than 2^63 steps, because `CheckAppends` converts the version to int.
- `PutClients.PutRunsPass`: for runs in which the version does not reach 2^64, and on one key; with random keys the tallies of all keys are mixed and the checker is not used.
- `AppendClients.CheckAppends`: ids in the value are those of clients, and there is a tally for each; otherwise the Go code panics or counts for a client that does not exist.
- A clerk's Get and Put are atomic and obey `Step`, and a get returns the register's contents; retries, `ErrNoKey` and the decoding of values are not modelled.
- `CrashProtocol`: starts and shutdowns of one name do not overlap, and a restart is preceded by a shutdown, as the comment on `StartServer` demands. That `ServerGroups.ServerGrp.ShutdownServer` and `StartServer` take the steps DeleteServer, ShutCopy and StartCopy, Build, AddServer in that order is read off their bodies; no member relates the objects to the step system.
- `Labrpc.Network.ReadEndnameInfo` and `IsServerDead` are used by the step system through the functions `Target` and `IsServerDead` that their contracts name; `processReq` has no method of its own, because other goroutines act between its phases.
- `CrashProtocol`: the values of calls and replies, the long delays of requests without a server, byte counts and statistics; `Kill` is any number of saves by the old instance.
- `ServerGroups`: end names are parameters (random strings in Go), services and the function that makes them are left out, `Server.connect` and `Server.disconnect` are methods of the group, and calls on one group do not overlap.
- `ServerGroups.ServerGrp.MakePartition`: for at least two servers; for one the Go code indexes an empty array.
- `RaftHarness`: a server's record is a value in a list; a restart is one step, whereas in Go the new record's applier may start before the list holds it; the old instance delivers nothing after a restart, whereas in Go a late delivery would be written to the new record (`src/raft1/test.go:131-141`); messages that are neither commands nor snapshots are ignored by the Go code and have no event here.
- `RaftHarness.RaftTest.ApplySnap`: the servers after a failure are not described, because the Go code ends the process there.
- `RaftHarness.SnapshotsAgree`: what it assumes of restarts and installs is up to Raft, which is left to the student; without it a server that restarts empty can be fed other commands than an old snapshot holds, and `SnapRunsAreFine` claims nothing about two servers agreeing.
- `MapReduce`: reading the inputs and calling map; the intermediate pairs are the input.
