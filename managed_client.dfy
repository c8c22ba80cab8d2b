/** One managed language-server client: its identity, its idle deadline, its stop flags,
    the exit decision of its timeout loop and the lazily created capability objects its
    HTTP handlers use. */
module ManagedClients {
  import opened Options
  import opened Paths
  import opened Targets
  import opened ClientIds

  /** The settings the client reads: `RUNTIME_DIR` and `settings.idle_timeout` (in ticks). */
  datatype Settings = Settings(runtimeDir: Path, idleTimeout: nat)

  /** The capability routes of the client's HTTP app, one state slot each. */
  datatype Endpoint =
    | Locate | Definition | Hover | Reference | Outline | Symbol | Search
    | RenamePreview | RenameExecute

  /** The protocol a client must implement for a route; both rename routes share one. */
  function RequiredProtocol(e: Endpoint): (p: Protocol)
    ensures p == RenameClient <==> e == RenamePreview || e == RenameExecute
  {
    match e
    case Locate => LocateClient
    case Definition => DefinitionClient
    case Hover => HoverClient
    case Reference => ReferenceClient
    case Outline => OutlineClient
    case Symbol => SymbolClient
    case Search => SearchClient
    case RenamePreview => RenameClient
    case RenameExecute => RenameClient
  }

  function ProtocolName(p: Protocol): string
  {
    match p
    case LocateClient => "locate"
    case DefinitionClient => "definition"
    case HoverClient => "hover"
    case ReferenceClient => "reference"
    case OutlineClient => "outline"
    case SymbolClient => "symbol"
    case SearchClient => "search"
    case RenameClient => "rename"
  }

  /** The message of the `TypeError` a handler raises for a client lacking the protocol. */
  function UnsupportedMessage(p: Protocol): string
  {
    "Client does not support " + ProtocolName(p) + " capability"
  }

  /** `ManagedClientInfo`: project root, language kind and the seconds (ticks) left. */
  datatype ClientInfo = ClientInfo(projectPath: Path, language: string, remainingTime: int)

  /** Whether a call returned normally or raised (with the exception's message). */
  datatype Outcome = Completed | Raised(error: string)

  /** The message Python gives when a slotted attribute was never assigned. */
  function MissingAttribute(name: string): string
  {
    "'ManagedClient' object has no attribute '" + name + "'"
  }

  /** The first clock reading at or past the deadline, if any. */
  function FirstExpiry(clock: seq<int>, deadline: int): (r: Option<nat>)
    ensures r.Some? ==> r.value < |clock| && clock[r.value] >= deadline
    ensures r.Some? ==> forall j | 0 <= j < r.value :: clock[j] < deadline
    ensures r.None? ==> forall j | 0 <= j < |clock| :: clock[j] < deadline
  {
    if |clock| == 0 then None
    else if clock[0] >= deadline then Some(0)
    else match FirstExpiry(clock[1..], deadline)
      case None => None
      case Some(k) => Some(k + 1)
  }

  /** The first expiry is the reading that is past the deadline after all earlier ones
      were not. */
  lemma FirstExpiryAt(clock: seq<int>, deadline: int, i: nat)
    requires i < |clock| && clock[i] >= deadline
    requires forall j | 0 <= j < i :: clock[j] < deadline
    ensures FirstExpiry(clock, deadline) == Some(i)
  {
  }

  /** An lsap capability object (`LocateCapability`, ...), created for one route. */
  class Capability {
    const endpoint: Endpoint

    constructor (endpoint: Endpoint)
      ensures this.endpoint == endpoint
    {
      this.endpoint := endpoint;
    }
  }

  class ManagedClient {
    const target: Target
    /** xxh32 of the project path, computed when the client is created. */
    const pathDigest: u32
    const settings: Settings

    var deadline: int
    var shouldExit: bool
    /** `_server` has been assigned (by `_serve`). */
    var serverCreated: bool
    /** `_server.should_exit`. */
    var serverShouldExit: bool
    /** `_timeout_scope` has been assigned (by the first wait of `_timeout_loop`). */
    var timeoutScopeInstalled: bool
    /** The app state slots `state.locate`, `state.definition`, ...; absent means empty. */
    var slots: map<Endpoint, Capability>

    ghost predicate Valid()
      reads this`serverCreated, this`serverShouldExit, this`slots
    {
      && (serverShouldExit ==> serverCreated)
      && forall e | e in slots ::
           slots[e].endpoint == e && RequiredProtocol(e) in target.clientCls.protocols
    }

    /** `ManagedClient(target)`: the deadline starts one idle timeout from now. */
    constructor (target: Target, pathDigest: u32, settings: Settings, now: int)
      ensures Valid()
      ensures this.target == target && this.pathDigest == pathDigest && this.settings == settings
      ensures deadline == now + settings.idleTimeout
      ensures !shouldExit && !serverCreated && !serverShouldExit && !timeoutScopeInstalled
      ensures slots == map[]
    {
      this.target := target;
      this.pathDigest := pathDigest;
      this.settings := settings;
      deadline := now + settings.idleTimeout;
      shouldExit := false;
      serverCreated := false;
      serverShouldExit := false;
      timeoutScopeInstalled := false;
      slots := map[];
    }

    /** `id`: derived from the target alone; it reads back as the kind and the digest. */
    function Id(): (id: ClientId)
      ensures ParseClientId(id) == Some((target.clientCls.kind, pathDigest))
    {
      ClientIdRoundTrip(target.clientCls.kind, pathDigest);
      ClientIdOf(target.clientCls.kind, pathDigest)
    }

    /** `uds_path`: a file named after the id, directly inside the runtime directory. */
    function UdsPath(): (p: Path)
      ensures |p.parts| == |settings.runtimeDir.parts| + 1
      ensures p.parts[..|settings.runtimeDir.parts|] == settings.runtimeDir.parts
      ensures p.parts[|settings.runtimeDir.parts|] == Id() + ".sock"
    {
      SocketPath(settings.runtimeDir, Id())
    }

    /** `info`: the remaining time is the time left before the deadline, clamped at zero. */
    function Info(now: int): (r: ClientInfo)
      reads this
      ensures r.projectPath == target.projectPath && r.language == target.clientCls.kind
      ensures r.remainingTime >= 0 && r.remainingTime >= deadline - now
      ensures r.remainingTime == 0 || r.remainingTime == deadline - now
    {
      var left := deadline - now;
      ClientInfo(target.projectPath, target.clientCls.kind, if left > 0 then left else 0)
    }

    /** The test at the head of each `_timeout_loop` iteration: stop waiting when asked to
        exit or when no time is left, which is exactly when `info` reports zero. */
    predicate TimeoutLoopEnds(now: int)
      reads this
      ensures TimeoutLoopEnds(now) <==> shouldExit || serverShouldExit || Info(now).remainingTime == 0
    {
      shouldExit || serverShouldExit || deadline - now <= 0
    }

    /** `_timeout_loop` stops at the first clock reading at which its exit test holds:
        at once when an exit flag is set, otherwise at reading `i` exactly when the test
        holds there and at no earlier reading, and never when it holds at none. */
    lemma LoopStopsAtFirstEnd(clock: seq<int>)
      ensures shouldExit || serverShouldExit ==> WaitsBeforeExit(clock) == Some(0)
      ensures !shouldExit && !serverShouldExit ==>
        forall i | 0 <= i < |clock| ::
          WaitsBeforeExit(clock) == Some(i)
          <==> TimeoutLoopEnds(clock[i]) && forall j | 0 <= j < i :: !TimeoutLoopEnds(clock[j])
      ensures !shouldExit && !serverShouldExit ==>
        (WaitsBeforeExit(clock).None? <==> forall i | 0 <= i < |clock| :: !TimeoutLoopEnds(clock[i]))
    {
    }

    /** How many waits `_timeout_loop` completes before it ends, when the clock reads
        `clock[0]`, `clock[1]`, ... at successive iterations; `None` if it is still
        waiting after the last reading. */
    function WaitsBeforeExit(clock: seq<int>): Option<nat>
      reads this`shouldExit, this`serverShouldExit, this`deadline
    {
      if shouldExit || serverShouldExit then Some(0) else FirstExpiry(clock, deadline)
    }

    /** `stop` as written: it raises when `_serve` has not yet assigned `_server`, or when
        `_timeout_loop` has not yet assigned `_timeout_scope`. */
    method StopAsWritten() returns (o: Outcome)
      requires Valid()
      modifies this`shouldExit, this`serverShouldExit
      ensures Valid() && shouldExit
      ensures serverShouldExit == (old(serverShouldExit) || serverCreated)
      ensures o == if !serverCreated then Raised(MissingAttribute("_server"))
                   else if !timeoutScopeInstalled then Raised(MissingAttribute("_timeout_scope"))
                   else Completed
    {
      shouldExit := true;
      if !serverCreated {
        return Raised(MissingAttribute("_server"));
      }
      serverShouldExit := true;
      // `_server_scope` is assigned in `_serve` right after `_server`, with no await between.
      if !timeoutScopeInstalled {
        return Raised(MissingAttribute("_timeout_scope"));
      }
      o := Completed;
    }

    /** `stop`: marks the client and its server (when there is one) to exit; a second call
        changes nothing. */
    method Stop()
      requires Valid()
      modifies this`shouldExit, this`serverShouldExit
      ensures Valid() && shouldExit
      ensures serverShouldExit == (old(serverShouldExit) || serverCreated)
    {
      shouldExit := true;
      if serverCreated {
        serverShouldExit := true;
      }
    }

    /** `_reset_timeout` as written: the deadline moves, then the call raises if
        `_timeout_loop` has not yet assigned `_timeout_scope`. */
    method ResetTimeoutAsWritten(now: int) returns (o: Outcome)
      modifies this`deadline
      ensures deadline == now + settings.idleTimeout
      ensures o == if timeoutScopeInstalled then Completed else Raised(MissingAttribute("_timeout_scope"))
    {
      deadline := now + settings.idleTimeout;
      if !timeoutScopeInstalled {
        return Raised(MissingAttribute("_timeout_scope"));
      }
      o := Completed;
    }

    /** `_reset_timeout`: a full idle timeout remains from now on. */
    method ResetTimeout(now: int)
      requires Valid()
      modifies this`deadline
      ensures Valid()
      ensures deadline == now + settings.idleTimeout
      ensures Info(now).remainingTime == settings.idleTimeout
    {
      deadline := now + settings.idleTimeout;
    }

    /** The part of `_serve` that assigns a fresh uvicorn server, whose `should_exit`
        starts false. */
    method StartServing()
      requires Valid() && !serverCreated
      modifies this`serverCreated, this`serverShouldExit
      ensures Valid() && serverCreated && !serverShouldExit
    {
      serverCreated := true;
      serverShouldExit := false;
    }

    /** `_timeout_loop`, with `clock[i]` the time read at its i-th iteration and each
        wait ending at the next reading. */
    method TimeoutLoop(clock: seq<int>) returns (waits: Option<nat>)
      requires Valid() && serverCreated
      modifies this`serverShouldExit, this`timeoutScopeInstalled
      ensures Valid()
      ensures waits == old(WaitsBeforeExit(clock))
      ensures waits.Some? ==> serverShouldExit
      ensures waits.None? ==> serverShouldExit == old(serverShouldExit)
      ensures timeoutScopeInstalled
        == (old(timeoutScopeInstalled) || (if waits.Some? then waits.value else |clock|) > 0)
    {
      var i := 0;
      while !shouldExit
        invariant 0 <= i <= |clock|
        invariant serverShouldExit == old(serverShouldExit)
        invariant i > 0 ==> !shouldExit && !serverShouldExit
        invariant forall j | 0 <= j < i :: clock[j] < deadline
        invariant timeoutScopeInstalled == (old(timeoutScopeInstalled) || i > 0)
        decreases |clock| - i
      {
        if serverShouldExit {
          break;
        }
        if i == |clock| {
          assert FirstExpiry(clock, deadline) == None;
          return None;
        }
        var remaining := deadline - clock[i];
        if remaining <= 0 {
          break;
        }
        timeoutScopeInstalled := true;
        i := i + 1;
      }
      if !old(shouldExit) && !old(serverShouldExit) {
        FirstExpiryAt(clock, deadline, i);
      }
      serverShouldExit := true;
      waits := Some(i);
    }

    /** A capability route handler: reset the deadline with `_reset_timeout` as written
        (which raises while `_timeout_scope` is unassigned), reject a client lacking the
        protocol, create the route's capability object if its slot is empty, and serve
        the request with the object in the slot. */
    method Handle(e: Endpoint, now: int) returns (r: Result<Capability, string>)
      requires Valid()
      modifies this`deadline, this`slots
      ensures Valid()
      ensures deadline == now + settings.idleTimeout
      ensures !timeoutScopeInstalled ==>
        r == Err(MissingAttribute("_timeout_scope")) && slots == old(slots)
      ensures timeoutScopeInstalled && RequiredProtocol(e) !in target.clientCls.protocols ==>
        r == Err(UnsupportedMessage(RequiredProtocol(e))) && slots == old(slots)
      ensures timeoutScopeInstalled && RequiredProtocol(e) in target.clientCls.protocols ==>
        && r.Ok? && r.value.endpoint == e
        && slots == old(slots)[e := r.value]
        && (e in old(slots) ==> r.value == old(slots)[e])
        && (e !in old(slots) ==> fresh(r.value))
    {
      var reset := ResetTimeoutAsWritten(now);
      if reset.Raised? {
        return Err(reset.error);
      }
      var p := RequiredProtocol(e);
      if p !in target.clientCls.protocols {
        return Err(UnsupportedMessage(p));
      }
      if e !in slots {
        var capability := new Capability(e);
        slots := slots[e := capability];
      }
      assert slots[e].endpoint == e;
      r := Ok(slots[e]);
    }
  }

  /** A second `create_client` for a registered client whose timeout loop has not yet
      started (its language server is still initialising) makes `_reset_timeout` raise. */
  method ReuseWhileStarting(target: Target, digest: u32, settings: Settings, created: int, now: int)
    returns (o: Outcome)
    ensures o == Raised(MissingAttribute("_timeout_scope"))
  {
    var client := new ManagedClient(target, digest, settings, created);
    o := client.ResetTimeoutAsWritten(now);
  }

  /** `delete_client` right after `create_client`, before `_serve` ran, makes `stop` raise;
      the corrected `Stop` marks the client to exit instead. */
  method StopBeforeServing(target: Target, digest: u32, settings: Settings, created: int)
    returns (o: Outcome, stopped: bool)
    ensures o == Raised(MissingAttribute("_server"))
    ensures stopped
  {
    var client := new ManagedClient(target, digest, settings, created);
    o := client.StopAsWritten();
    var other := new ManagedClient(target, digest, settings, created);
    other.Stop();
    stopped := other.shouldExit;
  }
}
