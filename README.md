# W.I.L.L session registry, modelled in Dafny

W.I.L.L is a command gateway: a user logs in and gets a session, submits commands
that an external processor answers, and subscribes to a stream of update events
for that session. The server (`will.py`) keeps every live session in one
process-wide dictionary, `core.sessions`, from session id to a record. Each record
holds the owner's username, the creation time, its own id, a FIFO queue of submitted
commands and a FIFO queue of pending updates. The HTTP and socket handlers read
and change this dictionary.

This project models that registry and its handlers.

- `sessions.dfy` (module `Sessions`) holds the values. These are the session
  record, the queued command, a socket event, and the `{"type", "data", "text"}`
  response every handler builds. The module also holds the reference definitions
  the handlers are specified against:
  - `KeyedById`: every record's `id` equals its key.
  - `OwnedBy`: the sessions of one user.
  - `UpdateEvents`: what draining a queue emits.
- `will.dfy` (module `Will`) holds the class `Core`. Its field `sessions` is
  `core.sessions`. Its field `emitted` logs every `socketio.emit` in order. There is
  one method per handler. Each method states the whole new state and the response,
  case by case, and keeps `Valid()` (that is, `KeyedById`). The module ends with
  client methods that run the handlers in sequence and prove what follows from
  the code for those sequences:
  - ending a session that was just started restores the registry;
  - N logins with distinct ids register N sessions;
  - an update queued before a subscription is delivered by the first dispatcher pass;
  - after a session ends, its dispatcher stops and its pending updates are dropped;
  - two dispatchers on one session never deliver an item twice.

External inputs are parameters:
- whether the user row exists, and whether `bcrypt.checkpw` accepted the password;
- the id from `tools.get_session_id` and the id from `tools.get_command_id`;
- the outcome of `core.sessions_monitor.command`, which is a reply, a `KeyError`
  or another exception;
- the time from `datetime.datetime.now()`.

A request form is a map from field to value. Reading a missing field is the
`KeyError` path. `Core.PushUpdate` stands for the producers outside `will.py`
that put items on a session's update queue. It exists only so that the client
methods can drive the dispatcher.

Some of what the code does is easy to misread. The model follows the code:
- A known user with a wrong password gets a response whose type and text are
  still `None`, because will.py:130 has no `else`. It is not an "invalid credentials" error.
- `get_sessions` with an unknown username raises an uncaught `TypeError`, because
  `find_one` returns `None` and the code then reads `None["password"]` (will.py:280).
  The model returns `Raised`. It is not an error response.
- `process_command` catches only `KeyError`. A `KeyError` from the processor is
  reported with the "missing data" text. Any other exception escapes (`Raised`).
  The command is queued only after the processor has returned a reply
  (will.py:255-259). The two effects are not independent.
- `get_updates` emits its two errors as `update` events through `socketio.emit`.
  They are not separate error events addressed to the requester. A message
  without a `session_id` field raises an uncaught `KeyError` (`Unhandled`).
- `end_session` on an unknown id answers with an error (will.py:176-178). It is not a silent no-op.
- `will.py` is Python 2, and the form fields and socket messages it reads are
  unicode. Formatting one into a byte string, with `"...{0}".format(x)` or
  `str(x)`, raises `UnicodeEncodeError` when it holds a non-ASCII character.
  Only `KeyError` is caught, so the error escapes. `Ascii` is the condition
  under which it does not happen. The calls at which it can happen are:
  - the username at will.py:122 and the password at will.py:129 in `start_session`;
  - the id at will.py:172 or will.py:178 in `end_session` (line 178 builds the
    response text);
  - the id at will.py:204 or will.py:213 in `get_updates`, before any emit;
  - the command and the id at will.py:245 in `process_command`, before the
    registry is consulted;
  - the password at will.py:281 in `get_sessions`.

## Model

| member | source | states |
|---|---|---|
| `Will.Core.StartSession` | will.py:117-154 | Missing username or password gives the missing-credentials error. A non-ASCII username raises. An unknown user gives "Couldn't find user with username …". For a known user, a non-ASCII password raises and a wrong password leaves the response blank. In all these cases the registry is unchanged. On success the registry gains the key `newId`, mapped to a record with the given username, `id == newId` and both queues empty. The other entries are unchanged. The registry grows by one when the id is fresh. The response carries `session_id`. The response is a success exactly when all these checks pass. |
| `Will.Core.EndSession` | will.py:167-181 | A missing field gives an error. A non-ASCII id raises and leaves the registry unchanged. An ASCII registered id is removed, exactly that key, with a success response. An unregistered id gives "Session id … wasn't found" and leaves the registry unchanged. |
| `Will.Core.UpdatePass` | will.py:185-194 | The pass runs exactly when the id is a key. If it is not, nothing changes and nothing is emitted. If it runs, the session's update queue ends empty, nothing else in the registry changes, and the emitted log grows by `UpdateEvents` of the old queue (one `update` event per item, in FIFO order). |
| `Will.Core.GetUpdates` | will.py:196-216 | The registry never changes. A missing field is an uncaught `KeyError`. A falsy id emits "couldn't find session id". A non-ASCII id raises and emits nothing. An unregistered id emits "Error, invalid session id". Otherwise it emits the debug acknowledgement and starts a dispatcher for a registered id. |
| `Will.Core.ProcessCommand` | will.py:238-270 | Missing `command` or `session_id` gives the missing-data error. A non-ASCII command or id raises. An unregistered id gives "Invalid session id". A processor `KeyError` gives the missing-data error, and any other processor exception escapes. In all these cases the registry is unchanged. On a reply, exactly `{id: commandId, command}` is appended to that session's command queue. Its update queue and all other sessions are unchanged. The response text is the reply and the data maps `commandId` to it. |
| `Will.Core.GetSessions` | will.py:273-295 | Missing credentials give an error. An unknown user raises, and so does a non-ASCII password. A wrong password gives "Invalid username/password combination". On success the `sessions` list holds each id owned by the user exactly once (the same set as `OwnedBy`, no repetitions, the same size), and the registry is unchanged. |
| `Will.Core.OwnedIds` | will.py:284-286 | The loop over the registry's keys collects exactly the ids whose record has the given username (the set `OwnedBy`), each once, so the list is as long as that set. |
| `Sessions.UpdateEvents` | will.py:190-194 | Draining a queue emits as many events as it has items, and the i-th event is an `update` event carrying the i-th item. |
| `Sessions.UpdateEventsAppend` | will.py:190-194 | A drain split into two parts emits the first part's events, then the second part's. |
| `Sessions.DistinctCount` | will.py:284-286 | A list without repetitions has as many elements as the set of its elements. This gives the size of the `get_sessions` list. |
| `Will.TwoPasses` | will.py:186-194 | Two dispatcher passes in a row emit each queued item once, in order. The second pass finds the queue empty. |
| `Will.SubscribeAndServe` | will.py:200-211 | An accepted subscription names a registered session. Its dispatcher's first pass runs and delivers every update queued before the subscription, after the acknowledgement. A refused subscription leaves the registry unchanged. |
| `Will.StartThenEnd` | will.py:130-175 | Starting a session under a fresh id and then ending it, with ASCII username, password and id, both succeed and leave the registry as it was. |
| `Will.StartMany` | will.py:133-144 | Logging in once for each of N distinct ids, with ASCII usernames, registers exactly those N ids, each under its own user. |
| `Will.SubmitAndSubscribe` | will.py:246-262 | For login, submit, queue an update, subscribe and one pass, with ASCII credentials and id: the command is answered and queued as `[{id, "ping"}]`, the subscription starts a dispatcher, and the update is delivered after the acknowledgement. |
| `Will.EndDiscardsPending` | will.py:169-194 | After a session with an ASCII id is ended with an update still queued, its dispatcher stops, nothing is emitted, and a later command on the id gets "Invalid session id". |
| `Will.TwoDispatchers` | will.py:185-194 | With two dispatchers on one session, two items queued one at a time, and both dispatchers running a pass after each, every item is emitted exactly once, in the order it was queued. |

## Left out

- Flask and SocketIO plumbing is not modelled: routing, `render_template`,
  the Flask `session` cookie, the redirect branch of `start_session`
  (will.py:156-161) and `tools.return_json`. This is web I/O.
- The user database (`dataset`) and password hashing (`bcrypt`) are foreign
  library calls. They become two booleans: the user row exists, and the
  password matches.
- `new_user` (will.py:56-110) is not modelled. It is a database insert inside a
  transaction, so its behaviour lives in the database library.
- The `/command` route (will.py:223-237) and the `/` route are not modelled.
  They only re-run `start_session` or render a template.
- `tools.get_session_id`, `tools.get_command_id` and
  `core.sessions_monitor.command` are not part of this model. Their results are
  parameters. The per-session monotonicity of command ids is not claimed,
  because it is not visible in `will.py`.
- The processor is assumed to leave the registry as it is. Its effects on the
  session it is handed are not captured.
- The queues are values inside the map, not shared `Queue` objects. Aliasing
  through other references to the same queue is not captured.
- Threads and timing are not modelled: `threading.Thread`, `time.sleep`, and
  the race between the membership test (will.py:186) and the lookup
  (will.py:188). A dispatcher is one sequential pass per call to
  `Core.UpdatePass`. Starting its thread is the `Dispatching(id)` result of
  `Core.GetUpdates`.
- Emits go to one ordered log. Who receives a broadcast is not modelled.
- The `session_id` of a `get_updates` message is modelled as a string or JSON
  `null`. Other JSON values Python treats as false (`0`, `false`, `[]`, `{}`)
  are not modelled.
- Only the exceptions named above are modelled. Others are not: a user row
  without a `password` column, a missing `REMOTE_ADDR`, errors inside `bcrypt`
  or `tools.get_command_id`, and errors inside the logging handlers themselves.
- Will.Core.ProcessCommand: the processor's reply is formatted into a log line
  at will.py:258. That raises when the reply is a non-ASCII unicode string, and
  not when it is a byte string. Which one the processor returns is not visible
  in `will.py`, so a reply is modelled as never raising there.
- Configuration loading, logging setup and `start()` (will.py:26-53, 297-311)
  are process initialisation. The initial empty `core.sessions` is the `Core`
  constructor.
- Will.Core.StartSession: does not require `newId` to be fresh. As
  `dict.update` would, a colliding id overwrites the old record. Retrying
  id generation on a collision is not done in `will.py`.
- Will.Core.GetSessions: says nothing about the order of the returned list,
  because it follows Python's dictionary iteration order. Only its set of
  elements, their uniqueness and its length are stated.
