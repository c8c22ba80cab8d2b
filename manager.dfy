/** The manager's registry of running clients, keyed by client id: get-or-create, removal
    when a client's run ends, stop requests, lookup and listing. */
module Managers {
  import opened Options
  import opened Paths
  import opened Targets
  import opened ClientIds
  import opened ManagedClients

  /** `NotFoundException("No LSP client found for path: ...")`. */
  datatype NotFound = NotFound(path: Path)

  /** How `client.run()` ended; `_run_client` removes the entry either way. */
  datatype RunOutcome = Returned | Raised(error: string)

  ghost predicate NoDuplicates<T>(s: seq<T>)
  {
    forall i, j | 0 <= i < j < |s| :: s[i] != s[j]
  }

  /** `s` with `x` dropped, the rest in their order: a dictionary's key order after `pop`. */
  function Without(s: seq<ClientId>, x: ClientId): (r: seq<ClientId>)
    ensures forall y :: y in r <==> y in s && y != x
    ensures NoDuplicates(s) ==> NoDuplicates(r)
  {
    if |s| == 0 then []
    else
      var rest := Without(s[1..], x);
      assert NoDuplicates(s) ==> s[0] !in s[1..];
      if s[0] == x then rest else [s[0]] + rest
  }

  /** Popping an absent key leaves the key order as it was. */
  lemma {:induction false} WithoutAbsent(s: seq<ClientId>, x: ClientId)
    requires x !in s
    ensures Without(s, x) == s
  {
    if |s| > 0 {
      WithoutAbsent(s[1..], x);
    }
  }

  /** Popping the key at position `k` of a duplicate-free key order removes that position
      and keeps the other keys in their order. */
  lemma {:induction false} WithoutKeepsOrder(s: seq<ClientId>, x: ClientId, k: nat)
    requires NoDuplicates(s) && k < |s| && s[k] == x
    ensures Without(s, x) == s[..k] + s[k + 1..]
  {
    if k == 0 {
      assert x !in s[1..];
      WithoutAbsent(s[1..], x);
    } else {
      WithoutKeepsOrder(s[1..], x, k - 1);
      assert s[..k] == [s[0]] + s[1..][..k - 1];
      assert s[k + 1..] == s[1..][k..];
    }
  }

  /** A sequence without duplicates has as many distinct elements as positions. */
  lemma {:induction false} DistinctCardinality<T>(s: seq<T>)
    requires NoDuplicates(s)
    ensures |set x | x in s| == |s|
  {
    if |s| > 0 {
      DistinctCardinality(s[1..]);
      assert (set x | x in s) == (set x | x in s[1..]) + {s[0]};
      assert s[0] !in s[1..];
    }
  }

  class Manager {
    const candidates: seq<ClientClass>
    const findRoot: RootFinder
    /** `xxh32` of a project path. */
    const pathHash: Path -> u32
    const settings: Settings

    /** `_clients`. */
    var clients: map<ClientId, ManagedClient>
    /** The keys of `_clients` in insertion order, as the dictionary iterates them. */
    var order: seq<ClientId>
    /** The client runs handed to the task group, in the order they were scheduled. */
    var tasks: seq<ManagedClient>

    /** Every client is stored under its own id (so there is at most one per id), was
        created with this manager's hash and settings, and has had one run scheduled. */
    ghost predicate Valid()
      reads this, clients.Values`serverCreated, clients.Values`serverShouldExit, clients.Values`slots
    {
      && (forall id | id in clients ::
            && clients[id].Id() == id
            && clients[id].pathDigest == pathHash(clients[id].target.projectPath)
            && clients[id].settings == settings
            && clients[id].Valid()
            && clients[id] in tasks)
      && NoDuplicates(order)
      && (forall id :: id in order <==> id in clients)
      && NoDuplicates(tasks)
    }

    constructor (candidates: seq<ClientClass>, findRoot: RootFinder, pathHash: Path -> u32, settings: Settings)
      ensures Valid()
      ensures this.candidates == candidates && this.settings == settings
      ensures clients == map[] && order == [] && tasks == []
    {
      this.candidates := candidates;
      this.findRoot := findRoot;
      this.pathHash := pathHash;
      this.settings := settings;
      clients := map[];
      order := [];
      tasks := [];
    }

    /** `get_client_id(target)` with this manager's hash. */
    function IdOf(t: Target): ClientId
    {
      ClientIdOf(t.clientCls.kind, pathHash(t.projectPath))
    }

    /** `inspect_client`: the info of the client registered for the path's target, if any.
        The client found agrees with the target on the language and on the path digest. */
    function InspectClient(path: Path, now: int): (r: Option<ClientInfo>)
      requires Valid()
      reads this, clients.Values
      ensures var t := FindClient(candidates, path, findRoot);
        r.Some? <==> t.Some? && IdOf(t.value) in clients
      ensures var t := FindClient(candidates, path, findRoot);
        r.Some? ==>
          && r.value.language == t.value.clientCls.kind
          && pathHash(r.value.projectPath) == pathHash(t.value.projectPath)
          && r.value.remainingTime >= 0
      ensures var t := FindClient(candidates, path, findRoot);
        r.Some? ==> r.value == clients[IdOf(t.value)].Info(now)
    {
      match FindClient(candidates, path, findRoot)
      case None => None
      case Some(t) =>
        var id := IdOf(t);
        if id in clients then
          var c := clients[id];
          ClientIdInjective(c.target.clientCls.kind, c.pathDigest, t.clientCls.kind, pathHash(t.projectPath));
          Some(c.Info(now))
        else None
    }

    /** The infos of the clients under `ids`, in that order. */
    function InfosOf(ids: seq<ClientId>, now: int): (r: seq<ClientInfo>)
      requires forall k | 0 <= k < |ids| :: ids[k] in clients
      reads this, clients.Values
      ensures |r| == |ids|
      ensures forall k | 0 <= k < |ids| :: r[k] == clients[ids[k]].Info(now)
    {
      if |ids| == 0 then [] else [clients[ids[0]].Info(now)] + InfosOf(ids[1..], now)
    }

    /** `list_clients`: one info per registered client, in registration order, no two
        alike. */
    function ListClients(now: int): (r: seq<ClientInfo>)
      requires Valid()
      reads this, clients.Values
      ensures |r| == |order| && |r| == |clients|
      ensures forall i | 0 <= i < |order| :: order[i] in clients && r[i] == clients[order[i]].Info(now)
      ensures forall i, j | 0 <= i < j < |r| :: r[i] != r[j]
    {
      RegistrySize();
      var r := InfosOf(order, now);
      assert forall i, j | 0 <= i < j < |r| :: r[i] != r[j] by {
        forall i, j | 0 <= i < j < |r| ensures r[i] != r[j] {
          assert order[i] != order[j];
          assert clients[order[i]].Id() == order[i] && clients[order[j]].Id() == order[j];
        }
      }
      r
    }

    /** The key order lists every registered id exactly once. */
    lemma RegistrySize()
      requires Valid()
      ensures |order| == |clients|
    {
      DistinctCardinality(order);
      assert (set x | x in order) == clients.Keys;
    }

    /** `create_client`: find the target, reuse the client registered under its id
        (refreshing its deadline) or register a new one and schedule its run, and return
        the socket path of the client under that id. */
    method CreateClient(path: Path, now: int) returns (r: Result<Path, NotFound>)
      requires Valid()
      modifies this`clients, this`order, this`tasks, clients.Values`deadline
      ensures Valid()
      ensures var t := FindClient(candidates, path, findRoot);
        t.None? ==>
          && r == Err(NotFound(path))
          && clients == old(clients) && order == old(order) && tasks == old(tasks)
          && forall k | k in clients :: clients[k].deadline == old(clients[k].deadline)
      ensures var t := FindClient(candidates, path, findRoot);
        t.Some? ==>
          var id := IdOf(t.value);
          && id in clients
          && r == Ok(clients[id].UdsPath()) && r == Ok(SocketPath(settings.runtimeDir, id))
          && clients[id].deadline == now + settings.idleTimeout
          && (forall k | k in old(clients) && k != id ::
                k in clients && clients[k] == old(clients[k]) && clients[k].deadline == old(clients[k].deadline))
          && (id in old(clients) ==>
                clients == old(clients) && order == old(order) && tasks == old(tasks))
          && (id !in old(clients) ==>
                && fresh(clients[id]) && clients[id].target == t.value
                && clients.Keys == old(clients.Keys) + {id}
                && order == old(order) + [id] && tasks == old(tasks) + [clients[id]])
      ensures r.Ok? ==> InspectClient(path, now).Some?
    {
      var target := FindClient(candidates, path, findRoot);
      if target.None? {
        return Err(NotFound(path));
      }
      var socket := GetOrCreate(target.value, now);
      r := Ok(socket);
    }

    /** `create_client` once the target is found. */
    method GetOrCreate(t: Target, now: int) returns (socket: Path)
      requires Valid()
      modifies this`clients, this`order, this`tasks, clients.Values`deadline
      ensures Valid()
      ensures var id := IdOf(t);
        && id in clients
        && socket == clients[id].UdsPath() && socket == SocketPath(settings.runtimeDir, id)
        && clients[id].deadline == now + settings.idleTimeout
        && (forall k | k in old(clients) && k != id ::
              k in clients && clients[k] == old(clients[k]) && clients[k].deadline == old(clients[k].deadline))
        && (id in old(clients) ==>
              clients == old(clients) && order == old(order) && tasks == old(tasks))
        && (id !in old(clients) ==>
              && fresh(clients[id]) && clients[id].target == t
              && clients.Keys == old(clients.Keys) + {id}
              && order == old(order) + [id] && tasks == old(tasks) + [clients[id]])
    {
      var id := IdOf(t);
      if id !in clients {
        var client := new ManagedClient(t, pathHash(t.projectPath), settings, now);
        Register(id, client);
      } else {
        Refresh(id, now);
      }
      socket := clients[id].UdsPath();
    }

    /** The reuse branch of `create_client`: only the deadline of the client under `id`
        moves. */
    method Refresh(id: ClientId, now: int)
      requires Valid() && id in clients
      modifies clients.Values`deadline
      ensures Valid()
      ensures clients[id].deadline == now + settings.idleTimeout
      ensures forall k | k in clients && k != id :: clients[k].deadline == old(clients[k].deadline)
    {
      var client := clients[id];
      assert forall k | k in clients && k != id :: clients[k] != client by {
        forall k | k in clients && k != id ensures clients[k] != client {
          assert clients[k].Id() == k;
        }
      }
      client.ResetTimeout(now);
    }

    /** The insertion branch of `create_client`: store the new client under its id and
        schedule its run (`self._tg.soonify(self._run_client)(m_client)`). */
    method Register(id: ClientId, client: ManagedClient)
      requires Valid() && id !in clients && client !in tasks
      requires client.Id() == id && client.Valid()
      requires client.pathDigest == pathHash(client.target.projectPath) && client.settings == settings
      modifies this`clients, this`order, this`tasks
      ensures Valid()
      ensures clients == old(clients)[id := client]
      ensures order == old(order) + [id] && tasks == old(tasks) + [client]
    {
      clients := clients[id := client];
      order := order + [id];
      tasks := tasks + [client];
    }

    /** `_run_client`'s `finally`: however the run ended, pop the entry under the client's
        id; popping an absent id changes nothing. */
    method FinishRun(client: ManagedClient, outcome: RunOutcome)
      requires Valid()
      modifies this`clients, this`order
      ensures Valid()
      ensures clients == old(clients) - {client.Id()}
      ensures order == Without(old(order), client.Id())
      ensures tasks == old(tasks)
      ensures old(client.Id() in clients && clients[client.Id()] == client) ==> client !in clients.Values
    {
      clients := clients - {client.Id()};
      order := Without(order, client.Id());
    }

    /** `delete_client`: stop the client registered for the path's target, if any; the
        entry stays until the client's run ends. */
    method DeleteClient(path: Path)
      requires Valid()
      modifies clients.Values`shouldExit, clients.Values`serverShouldExit
      ensures Valid()
      ensures clients == old(clients) && order == old(order) && tasks == old(tasks)
      ensures var t := FindClient(candidates, path, findRoot);
        forall k | k in clients ::
          if t.Some? && k == IdOf(t.value) then
            clients[k].shouldExit
            && clients[k].serverShouldExit == (old(clients[k].serverShouldExit) || clients[k].serverCreated)
          else
            clients[k].shouldExit == old(clients[k].shouldExit)
            && clients[k].serverShouldExit == old(clients[k].serverShouldExit)
    {
      var target := FindClient(candidates, path, findRoot);
      if target.Some? {
        var id := IdOf(target.value);
        if id in clients {
          clients[id].Stop();
        }
      }
    }
  }

  /** Distinct registered clients never share a socket path. */
  lemma DistinctSockets(m: Manager, a: ClientId, b: ClientId)
    requires m.Valid() && a in m.clients && b in m.clients && a != b
    ensures m.clients[a].UdsPath() != m.clients[b].UdsPath()
  {
    SocketPathInjective(m.settings.runtimeDir, a, b);
  }
}
