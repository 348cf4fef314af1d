/** The values held in the session registry of the W.I.L.L server (`core.sessions`
    in will.py), the shape of the JSON responses its handlers return, and the
    reference definitions the handlers are specified against. */
module Sessions {

  datatype Option<+T> = None | Some(value: T)

  type SessionId = string
  type Username = string
  /** What `tools.get_command_id` hands out; its definition is not part of this model. */
  type CommandId = string
  /** What `datetime.datetime.now()` returns when a session is created. */
  type Timestamp = int

  /** A JSON object of string fields: the items of an update queue and the bodies of socket events. */
  type Payload = map<string, string>

  /** `{"id": command_id, "command": command}`, the item put on a session's command queue. */
  datatype Command = Command(id: CommandId, command: string)

  /** One record of the registry. The two `Queue.Queue` objects are FIFO sequences:
      `put` appends at the end, `get` takes the head. */
  datatype Session = Session(
    username: Username,
    commands: seq<Command>,
    created: Timestamp,
    updates: seq<Payload>,
    id: SessionId)

  /** One `socketio.emit(name, payload)`. */
  datatype Event = Event(name: string, payload: Payload)

  /** The `"type"` field of a response: `None`, `"success"` or `"error"`. */
  datatype Status = Unset | Success | Error

  /** A value under a key of a response's `"data"` object. */
  datatype Data = Text(text: string) | Ids(ids: seq<SessionId>)

  /** `{"type": ..., "data": {...}, "text": ...}` as the handlers build it. */
  datatype Response = Response(status: Status, data: map<string, Data>, text: Option<string>)

  /** What a request handler does: it returns a response, or an exception it does not
      catch escapes it (Flask then answers with a server error). */
  datatype Outcome = Returned(response: Response) | Raised

  /** The response every handler starts from. */
  function Blank(): Response {
    Response(Unset, map[], None)
  }

  /** An error response with the given text and empty data. */
  function Failed(text: string): Response {
    Response(Error, map[], Some(text))
  }

  /** The record `start_session` registers: the given owner, both queues empty, and an
      `id` field equal to the key it is stored under. */
  function NewSession(username: Username, id: SessionId, created: Timestamp): Session {
    Session(username, [], created, [], id)
  }

  /** The registry's invariant: every record's `id` field is the key it is stored under. */
  ghost predicate KeyedById(sessions: map<SessionId, Session>) {
    forall k :: k in sessions ==> sessions[k].id == k
  }

  /** The active sessions of one user: the keys whose record has that username. */
  ghost function OwnedBy(sessions: map<SessionId, Session>, username: Username): set<SessionId> {
    set k | k in sessions && sessions[k].username == username
  }

  /** No element of `ids` occurs twice. */
  ghost predicate Distinct(ids: seq<SessionId>) {
    forall i, j :: 0 <= i < j < |ids| ==> ids[i] != ids[j]
  }

  /** A list without repetitions has as many elements as the set of its elements. */
  lemma {:induction false} DistinctCount(ids: seq<SessionId>)
    requires Distinct(ids)
    ensures |set k | k in ids| == |ids|
  {
    if ids != [] {
      var rest := ids[1..];
      assert Distinct(rest) by {
        forall i, j | 0 <= i < j < |rest| ensures rest[i] != rest[j] {
          assert rest[i] == ids[i + 1] && rest[j] == ids[j + 1];
        }
      }
      DistinctCount(rest);
      assert ids[0] !in rest by {
        forall i | 0 <= i < |rest| ensures rest[i] != ids[0] {
          assert rest[i] == ids[i + 1];
        }
      }
      assert (set k | k in ids) == (set k | k in rest) + {ids[0]} by {
        assert ids == [ids[0]] + rest;
      }
    }
  }

  /** In a list without repetitions, no element occurs before its own position. */
  lemma DistinctAt(ids: seq<SessionId>, i: nat)
    requires Distinct(ids) && i < |ids|
    ensures ids[i] !in ids[..i]
  {
    forall j | 0 <= j < i
      ensures ids[..i][j] != ids[i]
    {
      assert ids[..i][j] == ids[j];
    }
  }

  /** The events one drain of an update queue emits: one `update` event per item, the
      head of the queue first. */
  function UpdateEvents(updates: seq<Payload>): (events: seq<Event>)
    ensures |events| == |updates|
    ensures forall i :: 0 <= i < |updates| ==> events[i] == Event("update", updates[i])
  {
    if updates == [] then [] else [Event("update", updates[0])] + UpdateEvents(updates[1..])
  }

  /** Draining a queue in two parts emits the events of the first part and then those of the
      second: delivery order does not depend on where a drain is split. */
  lemma UpdateEventsAppend(first: seq<Payload>, second: seq<Payload>)
    ensures UpdateEvents(first + second) == UpdateEvents(first) + UpdateEvents(second)
  {
  }
}
