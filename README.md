# lsp-cli session manager, modelled in Dafny

lsp-cli runs one manager process that keeps a registry of managed language-server
clients, one per client id. A client id is `<language kind>-<xxh32 of the project
root>-default`. Each managed client serves the capability routes (locate, definition,
hover, reference, outline, symbol, search, rename preview and rename execute) on its
own Unix socket, and shuts itself down after an idle timeout that every request
refreshes. The command-line front end asks the manager for the socket of the path it
works on. It reports failures through `get_msg`, which turns a tree of errors into text.

The model covers four pieces:

- `targets.dfy` (module `Targets`): the client record `TargetLspClient` and
  `find_client`, a first-match search over the registered language clients.
  Project-root detection is a parameter.
- `client_ids.dfy` (module `ClientIds`): the client id, the `xxh32_hexdigest`
  formatting and the socket path. The id can be parsed back, so it determines the
  kind and the digest.
- `managed_client.dfy` (module `ManagedClients`): the `ManagedClient` class. It
  holds the deadline, the stop flags, the exit decision of `_timeout_loop` (over
  integer clock readings) and the lazily filled capability slots of the route handlers.
- `manager.dfy` (module `Managers`): the `Manager` class with its `_clients`
  dictionary. The dictionary is a map plus its key order; the scheduled client runs
  are a sequence.
- `error_messages.dfy` (module `ErrorMessages`): `get_msg` over an error datatype
  with group, validation, HTTP-status and other errors.
- `options.dfy` and `paths.dfy` are small helpers: an option/result type, and paths
  as component sequences.

Time is an integer tick count passed in as `now`. The xxh32 hash and each language's
`find_project_root` are functions the manager is given. The registry invariant
(`Manager.Valid`) says that every client is stored under its own id and was built with
the manager's hash and settings. It also says that the key order lists each key once
and that every registered client has a scheduled run, with no client scheduled twice.

## Model

| member | source | states |
|---|---|---|
| `Targets.FindClient` | src/lsp_cli/client.py:13-19 | Returns nothing exactly when no candidate finds a root. Otherwise it returns the first candidate, in order, that finds a root, with that root as `project_path` and that candidate as `client_cls`. |
| `Targets.FindClientIsFirstMatch` | src/lsp_cli/client.py:16-19 | Whenever candidate `i` is the first to find a root, the result is that root paired with candidate `i`. |
| `Targets.FindClientStopsAtFirstMatch` | src/lsp_cli/client.py:18-19 | Candidates after the first match are never consulted: replacing them with anything leaves the result unchanged. |
| `Targets.FindClientDeterministic` | src/lsp_cli/client.py:13-19 | The result depends only on what root detection answers for the candidates. Two detectors that answer alike give the same target. |
| `ClientIds.HexDigest` | src/lsp_cli/manager/client.py:50 | The path hash is rendered as exactly eight lower-case hexadecimal digits. |
| `ClientIds.ParseHexOfHex` | src/lsp_cli/manager/client.py:50 | Reading the zero-padded hex digits back gives the number, for any number below 16^width. |
| `ClientIds.ClientIdOf` | src/lsp_cli/manager/client.py:48-51 | The id starts with the language kind, ends with `-default`, and is 17 characters longer than the kind. |
| `ClientIds.ClientIdRoundTrip` | src/lsp_cli/manager/client.py:48-51 | Parsing an id gives back the kind and the path digest it was built from. |
| `ClientIds.ClientIdInjective` | src/lsp_cli/manager/client.py:48-51 | Two targets get the same id if and only if their kinds and path digests are equal. |
| `ClientIds.SocketPath` | src/lsp_cli/manager/client.py:91-93 | The socket is the file `<id>.sock` directly inside the runtime directory. |
| `ClientIds.SocketPathInjective` | src/lsp_cli/manager/client.py:91-93 | The socket path depends only on the id, and two ids share a socket path only if they are equal. |
| `ManagedClients.RequiredProtocol` | src/lsp_cli/manager/client.py:236-251 | The two rename routes, and only they, need the rename protocol; each other route needs its own. |
| `ManagedClients.FirstExpiry` | src/lsp_cli/manager/client.py:118-119 | Gives the first clock reading at or past the deadline, with every earlier reading before it, or nothing if every reading is before the deadline. |
| `ManagedClients.ManagedClient.constructor` | src/lsp_cli/manager/client.py:68-69 | A new client's deadline is one idle timeout after creation. It is not asked to exit, has no server or timeout scope yet, and all capability slots are empty. |
| `ManagedClients.ManagedClient.Id` | src/lsp_cli/manager/client.py:87-89 | A client's id parses back to its target's kind and its path digest. |
| `ManagedClients.ManagedClient.UdsPath` | src/lsp_cli/manager/client.py:91-93 | A client's socket is `<id>.sock` inside the runtime directory. |
| `ManagedClients.ManagedClient.Info` | src/lsp_cli/manager/client.py:95-101 | Reports the target's root and language. The remaining time is never negative, is at least `deadline - now`, and is either 0 or exactly `deadline - now`. |
| `ManagedClients.ManagedClient.LoopStopsAtFirstEnd` | src/lsp_cli/manager/client.py:114-119 | The loop stops at once when an exit flag is set. Otherwise it stops at reading `i` exactly when its exit test holds at `i` and at no earlier reading, and it keeps waiting exactly when the test holds at no reading. |
| `ManagedClients.ManagedClient.TimeoutLoopEnds` | src/lsp_cli/manager/client.py:114-119 | The timeout loop stops waiting exactly when the client or its server is asked to exit, or when `info` reports no time left. |
| `ManagedClients.ManagedClient.StopAsWritten` | src/lsp_cli/manager/client.py:103-108 | `stop` as written sets `_should_exit`. It raises if `_server` or `_timeout_scope` has not been assigned yet, and otherwise also sets the server's `should_exit`. |
| `ManagedClients.ManagedClient.Stop` | src/lsp_cli/manager/client.py:103-108 | Afterwards the client is asked to exit, and so is its server if one exists. A second call changes nothing. The deadline and the slots are untouched. |
| `ManagedClients.ManagedClient.ResetTimeoutAsWritten` | src/lsp_cli/manager/client.py:110-112 | `_reset_timeout` as written moves the deadline to `now + idle_timeout`, then raises if `_timeout_scope` has not been assigned. |
| `ManagedClients.ManagedClient.ResetTimeout` | src/lsp_cli/manager/client.py:110-112 | The deadline becomes `now + idle_timeout`, so `info` reports the full idle timeout. Nothing else changes. |
| `ManagedClients.ManagedClient.StartServing` | src/lsp_cli/manager/client.py:283 | `_serve` creates a server whose `should_exit` starts false. |
| `ManagedClients.ManagedClient.TimeoutLoop` | src/lsp_cli/manager/client.py:114-126 | The loop ends with no wait when an exit flag is already set; otherwise it ends at the first clock reading at or past the deadline. Once it has ended, the server's `should_exit` is set. A cancel scope is installed only if the loop waited at least once. |
| `ManagedClients.ManagedClient.Handle` | src/lsp_cli/manager/client.py:138-256 | Every route first moves the deadline with the as-written `_reset_timeout`, so before the timeout loop's first wait it fails with the `AttributeError` message for `_timeout_scope` and fills no slot. After that, a client lacking the route's protocol gets the `TypeError` message and no slot changes. Otherwise the route's slot is filled with a new capability object only if it was empty, and the object in the slot (for that route) serves the request. |
| `ManagedClients.ReuseWhileStarting` | src/lsp_cli/manager/manager.py:55-57 | Reusing a registered client whose timeout loop has not started yet makes `_reset_timeout` raise `AttributeError` for `_timeout_scope`. |
| `ManagedClients.StopBeforeServing` | src/lsp_cli/manager/manager.py:76-78 | Stopping a client whose run has not reached `_serve` makes `stop` raise `AttributeError` for `_server`, while the corrected `Stop` marks the client to exit. |
| `Managers.Without` | src/lsp_cli/manager/manager.py:71 | After `pop`, the key order has exactly the old keys minus the popped one, still without duplicates. |
| `Managers.WithoutAbsent` | src/lsp_cli/manager/manager.py:71 | Popping an id that is not registered leaves the key order unchanged. |
| `Managers.WithoutKeepsOrder` | src/lsp_cli/manager/manager.py:71 | Popping a registered id removes exactly its position from the key order; the other keys keep their order. |
| `Managers.Manager.constructor` | src/lsp_cli/manager/manager.py:19-20 | A new manager has no clients and no scheduled runs. |
| `Managers.Manager.CreateClient` | src/lsp_cli/manager/manager.py:40-59 | When no target is found, the result is not-found and the registry and all deadlines are unchanged. For a new id, exactly one fresh client for the target is inserted under that id and one run of it is scheduled. For a registered id, the same client is kept and only its deadline is reset. Either way the result is the socket path of the client under the computed id, and `inspect_client` then finds it. |
| `Managers.Manager.GetOrCreate` | src/lsp_cli/manager/manager.py:49-59 | The registry holds a client under the target's id whose deadline is `now + idle_timeout`. Other clients are untouched. A new id adds one key at the end of the order and one scheduled run. |
| `Managers.Manager.Register` | src/lsp_cli/manager/manager.py:50-54 | Inserting a new client under its own id and scheduling its run keeps the registry invariant. |
| `Managers.Manager.Refresh` | src/lsp_cli/manager/manager.py:55-57 | Reusing a client resets its deadline and no other client's. |
| `Managers.Manager.FinishRun` | src/lsp_cli/manager/manager.py:62-71 | However the run ended, the entry under the client's id is removed from the registry and from the key order. Popping an absent id changes nothing. A registered client is no longer registered afterwards. |
| `Managers.Manager.DeleteClient` | src/lsp_cli/manager/manager.py:73-78 | Only the client registered for the path's target is stopped, and the registry itself is unchanged. With no target or no registered client nothing changes. |
| `Managers.Manager.InspectClient` | src/lsp_cli/manager/manager.py:80-85 | Returns an info exactly when a target is found and its id is registered. The info's language is the target's, its path has the target's path digest, and its remaining time is not negative. It is exactly the registered client's `info` at that time. |
| `Managers.Manager.InfosOf` | src/lsp_cli/manager/manager.py:88 | Gives the info of each listed client, in the listed order. |
| `Managers.Manager.ListClients` | src/lsp_cli/manager/manager.py:87-88 | One info per registered client, in insertion order, and no two infos alike. |
| `Managers.Manager.RegistrySize` | src/lsp_cli/manager/manager.py:20 | The key order has as many entries as the registry has clients. |
| `Managers.DistinctSockets` | src/lsp_cli/manager/manager.py:49-53 | Two registered clients under different ids never share a socket path. |
| `ErrorMessages.GetMsg` | src/lsp_cli/cli/shared.py:41-56 | An HTTP-status error whose body is a JSON object with `detail` gives `str(detail)`. If the body is not JSON, not an object, or lacks `detail`, it gives `str(err)` without raising. Any other error gives `str(err)`. |
| `ErrorMessages.GetMsgFlattensGroups` | src/lsp_cli/cli/shared.py:43-44 | A group's message is the newline-join of the messages of the non-group errors it holds, read left to right through any nesting. |
| `ErrorMessages.GroupOfOne` | src/lsp_cli/cli/shared.py:43-44 | A group holding one error gives that error's message. |
| `ErrorMessages.GroupAppend` | src/lsp_cli/cli/shared.py:43-44 | The message of a group made of two non-empty parts is the two parts' messages joined by a newline. |
| `ErrorMessages.ValidationLines` | src/lsp_cli/cli/shared.py:45-46 | A validation error's message splits back into its errors' `msg` lines, one per error and in order. |

## Findings

| source | as written | input that shows it | evidently intended | confidence | as-written member | corrected member |
|---|---|---|---|---|---|---|
| src/lsp_cli/manager/client.py:110-112 | `_reset_timeout` cancels `_timeout_scope`. That attrs field has `init=False` and no default, and is first assigned when `_timeout_loop` first waits. Before that the call raises `AttributeError`, after the deadline has already moved. | Call `create_client` twice for the same project, the second time while the first client's language server is still starting (`ReuseWhileStarting`). The second call fails instead of returning the socket path. | Refresh the deadline and return normally. | not executed; high | `ManagedClients.ManagedClient.ResetTimeoutAsWritten` | `ManagedClients.ManagedClient.ResetTimeout` |
| src/lsp_cli/manager/client.py:103-108 | `stop` sets `_server.should_exit` and cancels `_timeout_scope`. Neither field exists before `_serve` and `_timeout_loop` run, so `stop` raises `AttributeError` after setting `_should_exit`. | Call `delete_client` right after `create_client`, before the client's run has reached `_serve` (`StopBeforeServing`). | Mark the client, and its server if it has one, to exit, and return normally. | not executed; high | `ManagedClients.ManagedClient.StopAsWritten` | `ManagedClients.ManagedClient.Stop` |

`create_client` uses the corrected `ResetTimeout` and `delete_client` the corrected `Stop`. The route handlers (`Handle`) keep the as-written reset, and the `/shutdown` route is the as-written `StopAsWritten`.

## Left out

- `ManagedClient.run`, most of `_serve`, and the logging of `__attrs_post_init__` and `Manager.__attrs_post_init__`/`Manager.run`: these are uvicorn, loguru and filesystem I/O. Only `_serve`'s assignment of a fresh server is modelled, as `StartServing`.
- Concurrency is not modelled: the anyio cancel scopes, the asyncer task groups and the sleeping in `_timeout_loop`. A reset or stop cancelling the loop's sleep is not modelled either. The loop is a sequential method over successive clock readings, during which no other operation runs. A scheduled run is an entry in `tasks`, and its end is the separate `FinishRun` call.
- `ManagedClients.ManagedClient.TimeoutLoop`: when the clock readings run out before the loop ends, the model reports the loop as still waiting and does not follow it further.
- `Managers.Manager.FinishRun`: the model does not record that each scheduled run ends only once. `logger.catch` swallowing the re-raised exception has no effect on the registry.
- `Managers.Manager.InspectClient`: it states that the returned info has the target's path digest, not the target's path. Two project roots whose xxh32 digests collide share one id, so they share one client.
- The handlers' `await state.<capability>(data)`: the request is forwarded to a capability class of an external library, which is not part of this model. `Handle` returns the capability object that would serve the request.
- The `/health` route, which always answers `ok`. The `/shutdown` route only calls `stop` as written, which is `StopAsWritten`.
- `ManagedClients.ManagedClient.Handle`: a capability slot that was never assigned is treated as empty. This follows the evident intent of `if not state.<slot>`. Litestar's `State` lookup of an unset key is not part of this model, so whether it returns an empty value or raises `AttributeError` is not captured.
- xxh32 and each language configuration's `find_project_root` are functions the manager is given. `as_posix()` is folded into the hash. The language `kind.value` is a string field of the client class.
- Paths are sequences of components, and `/` appends one. Python's path normalisation is not modelled.
- `remaining_time` is a float in the source; here every time is an integer tick.
- `get_msg` keeps each JSON value and each validation `msg` as its `str()` rendering, so how Python renders non-string values is not modelled.
- The import in `src/lsp_cli/manager/client.py` names the record `TargetClient`, while `src/lsp_cli/client.py` defines `TargetLspClient`. Both are the one `Target` record here.
- Capability dispatch (`manager/capability.py`), the manager's HTTP handlers and process spawning (`manager/cli.py`, `manager/__init__.py`), the pydantic models with table rendering, the typer CLI, and the rest of `cli/shared.py` (`managed_client`, `create_locate`, `print_resp`) are not part of this model. They are HTTP, CLI and printing around the core.
