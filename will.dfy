/** The request and socket handlers of will.py as operations on one object: the
    registry `core.sessions` and the log of everything `socketio.emit` has sent. */
module Will {
  import opened Sessions

  /** The names of the request fields the handlers read. */
  datatype Field = UsernameField | PasswordField | SessionIdField | CommandField

  /** The fields of a submitted form (`request.form`); reading a missing one raises `KeyError`. */
  type Form = map<Field, string>

  /** What `core.sessions_monitor.command` does with one command: it replies, or it raises a
      `KeyError` (which `process_command` catches), or it raises anything else (which escapes). */
  datatype ProcessorResult = Replied(reply: string) | RaisedKeyError | RaisedOther

  /** What one `get_updates` event leads to: an exception nobody catches (the `KeyError` of a
      message without a `session_id` field, or the `UnicodeEncodeError` of logging a non-ASCII
      id), a refusal, or a dispatcher started for the id. */
  datatype Subscription = Unhandled | Refused | Dispatching(id: SessionId)

  /** `username` and `password` both present in the form. */
  predicate HasCredentials(form: Form) {
    UsernameField in form && PasswordField in form
  }

  /** A `session_id` that Python treats as false: `None` or the empty string. */
  predicate Falsy(sessionId: Option<string>) {
    sessionId == None || sessionId == Some("")
  }

  /** A text that Python 2 can turn into a byte string, as `str(text)` and `"...{0}".format(text)`
      do, without raising `UnicodeEncodeError`: every character is ASCII. The form fields and
      socket messages the handlers receive are unicode, and no handler catches that error. */
  predicate Ascii(text: string) {
    forall i :: 0 <= i < |text| ==> text[i] as int < 128
  }

  const MissingCredentials := "Couldn't find username and password in request data"
  const MissingSessionId := "Couldn't find session id in request data"
  const MissingCommandData := "Couldn't find session id and command in request data"
  const InvalidSessionId := "Invalid session id"
  const MissingListCredentials := "Couldn't find username and password in request"
  const BadCombination := "Invalid username/password combination"

  /** The acknowledgement `get_updates` emits before it starts a dispatcher. */
  const StartingLoop := Event("debug", map["value" := "Starting update loop"])
  /** The error `get_updates` emits for a missing or empty id. */
  const NoSessionId := Event("update", map["value" := "Error, couldn't find session id in update request"])
  /** The error `get_updates` emits for an id that is not registered. */
  const UnknownSessionId := Event("update", map["value" := "Error, invalid session id"])

  class Core {
    /** `core.sessions`: session id to session record. */
    var sessions: map<SessionId, Session>
    /** Every `socketio.emit` so far, oldest first. */
    var emitted: seq<Event>

    ghost predicate Valid()
      reads this
    {
      KeyedById(sessions)
    }

    constructor ()
      ensures Valid()
      ensures sessions == map[] && emitted == []
    {
      sessions := map[];
      emitted := [];
    }

    /** `start_session`: on a known user with the right password, register a fresh record
        under `newId` (the value of `tools.get_session_id`) and return that id. */
    method StartSession(form: Form, userFound: bool, passwordOk: bool, newId: SessionId, now: Timestamp)
      returns (r: Outcome)
      requires Valid()
      modifies this`sessions
      ensures Valid()
      ensures !HasCredentials(form) ==>
        r == Returned(Failed(MissingCredentials)) && sessions == old(sessions)
      ensures HasCredentials(form) && !Ascii(form[UsernameField]) ==>
        r == Raised && sessions == old(sessions)
      ensures HasCredentials(form) && Ascii(form[UsernameField]) && !userFound ==>
        && r == Returned(Failed("Couldn't find user with username " + form[UsernameField]))
        && sessions == old(sessions)
      ensures HasCredentials(form) && Ascii(form[UsernameField]) && userFound && !Ascii(form[PasswordField]) ==>
        r == Raised && sessions == old(sessions)
      ensures HasCredentials(form) && Ascii(form[UsernameField]) && userFound && Ascii(form[PasswordField]) && !passwordOk ==>
        r == Returned(Blank()) && sessions == old(sessions)
      ensures HasCredentials(form) && Ascii(form[UsernameField]) && userFound && Ascii(form[PasswordField]) && passwordOk ==>
        && r == Returned(Response(Success, map["session_id" := Text(newId)], Some("Authentication successful")))
        && sessions == old(sessions)[newId := NewSession(form[UsernameField], newId, now)]
        && sessions.Keys == old(sessions).Keys + {newId}
        && (newId !in old(sessions) ==> |sessions| == |old(sessions)| + 1)
      ensures r.Returned? && r.response.status == Success <==>
        HasCredentials(form) && Ascii(form[UsernameField]) && userFound && Ascii(form[PasswordField]) && passwordOk
    {
      if !HasCredentials(form) {
        return Returned(Failed(MissingCredentials));
      }
      var username, password := form[UsernameField], form[PasswordField];
      // Logging the username formats it into a byte string.
      if !Ascii(username) {
        return Raised;
      }
      if !userFound {
        return Returned(Failed("Couldn't find user with username " + username));
      }
      // `str(password)` before `bcrypt.checkpw`.
      if !Ascii(password) {
        return Raised;
      }
      r := Returned(Blank());
      if passwordOk {
        sessions := sessions[newId := NewSession(username, newId, now)];
        r := Returned(Response(Success, map["session_id" := Text(newId)], Some("Authentication successful")));
      }
    }

    /** `end_session`: remove the record of the submitted id if there is one. */
    method EndSession(form: Form) returns (r: Outcome)
      requires Valid()
      modifies this`sessions
      ensures Valid()
      ensures SessionIdField !in form ==>
        r == Returned(Failed(MissingSessionId)) && sessions == old(sessions)
      ensures SessionIdField in form && !Ascii(form[SessionIdField]) ==>
        r == Raised && sessions == old(sessions)
      ensures SessionIdField in form && Ascii(form[SessionIdField]) && form[SessionIdField] in old(sessions) ==>
        && r == Returned(Response(Success, map[], Some("Ended session")))
        && sessions == old(sessions) - {form[SessionIdField]}
        && |sessions| == |old(sessions)| - 1
      ensures SessionIdField in form && Ascii(form[SessionIdField]) && form[SessionIdField] !in old(sessions) ==>
        && r == Returned(Failed("Session id " + form[SessionIdField] + " wasn't found in core.sessions"))
        && sessions == old(sessions)
    {
      if SessionIdField !in form {
        return Returned(Failed(MissingSessionId));
      }
      var sessionId := form[SessionIdField];
      // Both branches format the id (the log line, or the error text) before anything else.
      if !Ascii(sessionId) {
        return Raised;
      }
      if sessionId in sessions {
        sessions := sessions - {sessionId};
        r := Returned(Response(Success, map[], Some("Ended session")));
      } else {
        r := Returned(Failed("Session id " + sessionId + " wasn't found in core.sessions"));
      }
    }

    /** One pass of `update_loop`: if the id is still registered, pop its update queue until
        it is empty and emit every item as an `update` event; `running` tells whether the
        loop goes on. */
    method UpdatePass(sessionId: SessionId) returns (running: bool)
      requires Valid()
      modifies this
      ensures Valid()
      ensures running == (sessionId in old(sessions))
      ensures !running ==> sessions == old(sessions) && emitted == old(emitted)
      ensures running ==>
        && sessions == old(sessions)[sessionId := old(sessions)[sessionId].(updates := [])]
        && emitted == old(emitted) + UpdateEvents(old(sessions)[sessionId].updates)
    {
      running := sessionId in sessions;
      if !running {
        return;
      }
      ghost var queued := sessions[sessionId].updates;
      var popped := 0;
      while sessions[sessionId].updates != []
        invariant 0 <= popped <= |queued|
        invariant sessions == old(sessions)[sessionId := old(sessions)[sessionId].(updates := queued[popped..])]
        invariant emitted == old(emitted) + UpdateEvents(queued[..popped])
        decreases |sessions[sessionId].updates|
      {
        var record := sessions[sessionId];
        var update := record.updates[0];
        sessions := sessions[sessionId := record.(updates := record.updates[1..])];
        emitted := emitted + [Event("update", update)];
        UpdateEventsAppend(queued[..popped], [update]);
        assert queued[..popped + 1] == queued[..popped] + [update];
        popped := popped + 1;
      }
      assert queued[..popped] == queued;
    }

    /** `get_updates`: validate the id of a subscription message and start a dispatcher for
        it. The registry never changes. */
    method GetUpdates(message: map<Field, Option<string>>) returns (s: Subscription)
      requires Valid()
      modifies this`emitted
      ensures Valid()
      ensures SessionIdField !in message ==> s == Unhandled && emitted == old(emitted)
      ensures SessionIdField in message && Falsy(message[SessionIdField]) ==>
        && s == Refused
        && emitted == old(emitted) + [NoSessionId]
      ensures SessionIdField in message && !Falsy(message[SessionIdField]) && !Ascii(message[SessionIdField].value) ==>
        s == Unhandled && emitted == old(emitted)
      ensures SessionIdField in message && !Falsy(message[SessionIdField]) && Ascii(message[SessionIdField].value)
              && message[SessionIdField].value !in sessions ==>
        && s == Refused
        && emitted == old(emitted) + [UnknownSessionId]
      ensures SessionIdField in message && !Falsy(message[SessionIdField]) && Ascii(message[SessionIdField].value)
              && message[SessionIdField].value in sessions ==>
        && s == Dispatching(message[SessionIdField].value)
        && emitted == old(emitted) + [StartingLoop]
      ensures s.Dispatching? ==> s.id in sessions
    {
      if SessionIdField !in message {
        return Unhandled;
      }
      var sessionId := message[SessionIdField];
      if !Falsy(sessionId) {
        // Both branches log the id before they emit.
        if !Ascii(sessionId.value) {
          return Unhandled;
        }
        if sessionId.value in sessions {
          emitted := emitted + [StartingLoop];
          s := Dispatching(sessionId.value);
        } else {
          emitted := emitted + [UnknownSessionId];
          s := Refused;
        }
      } else {
        emitted := emitted + [NoSessionId];
        s := Refused;
      }
    }

    /** `process_command`: on a registered id, obtain the processor's reply for the command
        (numbered `commandId` by `tools.get_command_id`) and append the command to the
        session's command queue. */
    method ProcessCommand(form: Form, commandId: CommandId, processor: ProcessorResult) returns (r: Outcome)
      requires Valid()
      modifies this`sessions
      ensures Valid()
      ensures !(CommandField in form && SessionIdField in form) ==>
        r == Returned(Failed(MissingCommandData)) && sessions == old(sessions)
      ensures CommandField in form && SessionIdField in form && !(Ascii(form[CommandField]) && Ascii(form[SessionIdField])) ==>
        r == Raised && sessions == old(sessions)
      ensures CommandField in form && SessionIdField in form && Ascii(form[CommandField]) && Ascii(form[SessionIdField])
              && form[SessionIdField] !in old(sessions) ==>
        r == Returned(Failed(InvalidSessionId)) && sessions == old(sessions)
      ensures CommandField in form && SessionIdField in form && Ascii(form[CommandField]) && Ascii(form[SessionIdField])
              && form[SessionIdField] in old(sessions) ==>
        match processor
        case RaisedKeyError => r == Returned(Failed(MissingCommandData)) && sessions == old(sessions)
        case RaisedOther => r == Raised && sessions == old(sessions)
        case Replied(reply) =>
          var record := old(sessions)[form[SessionIdField]];
          && r == Returned(Response(Success, map[commandId := Text(reply)], Some(reply)))
          && sessions == old(sessions)[form[SessionIdField] := record.(commands := record.commands + [Command(commandId, form[CommandField])])]
    {
      if !(CommandField in form && SessionIdField in form) {
        return Returned(Failed(MissingCommandData));
      }
      var command, sessionId := form[CommandField], form[SessionIdField];
      // Logging the command and the id formats both before the registry is consulted.
      if !(Ascii(command) && Ascii(sessionId)) {
        return Raised;
      }
      if sessionId !in sessions {
        return Returned(Failed(InvalidSessionId));
      }
      var commandData := Command(commandId, command);
      match processor {
        case RaisedKeyError =>
          r := Returned(Failed(MissingCommandData));
        case RaisedOther =>
          r := Raised;
        case Replied(reply) =>
          var record := sessions[sessionId];
          sessions := sessions[sessionId := record.(commands := record.commands + [commandData])];
          r := Returned(Response(Success, map[commandId := Text(reply)], Some(reply)));
      }
    }

    /** `get_sessions`: after authentication, list the ids of the user's active sessions, each
        once. The registry never changes. */
    method GetSessions(form: Form, userFound: bool, passwordOk: bool) returns (r: Outcome)
      requires Valid()
      ensures !HasCredentials(form) ==> r == Returned(Failed(MissingListCredentials))
      ensures HasCredentials(form) && !userFound ==> r == Raised
      ensures HasCredentials(form) && userFound && !Ascii(form[PasswordField]) ==> r == Raised
      ensures HasCredentials(form) && userFound && Ascii(form[PasswordField]) && !passwordOk ==>
        r == Returned(Failed(BadCombination))
      ensures HasCredentials(form) && userFound && Ascii(form[PasswordField]) && passwordOk ==>
        && r.Returned?
        && r.response.status == Success
        && r.response.text == Some("Fetched active sessions")
        && r.response.data.Keys == {"sessions"}
        && r.response.data["sessions"].Ids?
        && var ids := r.response.data["sessions"].ids;
           && Distinct(ids)
           && (set k | k in ids) == OwnedBy(sessions, form[UsernameField])
           && |ids| == |OwnedBy(sessions, form[UsernameField])|
    {
      if !HasCredentials(form) {
        return Returned(Failed(MissingListCredentials));
      }
      var username := form[UsernameField];
      if !userFound {
        // `find_one` returns None, and `None["password"]` raises a TypeError nobody catches.
        return Raised;
      }
      // `str(password)` before `bcrypt.checkpw`.
      if !Ascii(form[PasswordField]) {
        return Raised;
      }
      if !passwordOk {
        return Returned(Failed(BadCombination));
      }
      var ids := OwnedIds(username);
      r := Returned(Response(Success, map["sessions" := Ids(ids)], Some("Fetched active sessions")));
    }

    /** The loop of `get_sessions`: walk the registry's keys and collect those whose record
        belongs to `username`. Each owned id is collected once. */
    method OwnedIds(username: Username) returns (ids: seq<SessionId>)
      ensures Distinct(ids)
      ensures (set k | k in ids) == OwnedBy(sessions, username)
      ensures |ids| == |OwnedBy(sessions, username)|
    {
      ids := [];
      var unvisited := sessions.Keys;
      while unvisited != {}
        invariant unvisited <= sessions.Keys
        invariant Distinct(ids)
        invariant forall k :: k in ids <==> k in sessions && sessions[k].username == username && k !in unvisited
        decreases unvisited
      {
        var k :| k in unvisited;
        if sessions[k].username == username {
          ids := ids + [k];
        }
        unvisited := unvisited - {k};
      }
      assert (set k | k in ids) == OwnedBy(sessions, username);
      DistinctCount(ids);
    }

    /** Stands for the producers outside will.py (the command processor and other
        subsystems) that put items on a session's update queue. */
    method PushUpdate(sessionId: SessionId, update: Payload)
      requires Valid() && sessionId in sessions
      modifies this`sessions
      ensures Valid()
      ensures sessions == old(sessions)[sessionId := old(sessions)[sessionId].(updates := old(sessions)[sessionId].updates + [update])]
    {
      var record := sessions[sessionId];
      sessions := sessions[sessionId := record.(updates := record.updates + [update])];
    }
  }

  /** Ending a session that was just started leaves the registry as it was before, when the
      new id was not in use. */
  method StartThenEnd(core: Core, username: Username, password: string, newId: SessionId, now: Timestamp)
    returns (started: Outcome, ended: Outcome)
    requires core.Valid() && newId !in core.sessions
    requires Ascii(username) && Ascii(password) && Ascii(newId)
    modifies core`sessions
    ensures core.Valid()
    ensures started == Returned(Response(Success, map["session_id" := Text(newId)], Some("Authentication successful")))
    ensures ended == Returned(Response(Success, map[], Some("Ended session")))
    ensures core.sessions == old(core.sessions)
  {
    var login := map[UsernameField := username, PasswordField := password];
    assert HasCredentials(login) && login[UsernameField] == username && login[PasswordField] == password;
    started := core.StartSession(login, true, true, newId, now);
    var logout := map[SessionIdField := newId];
    assert logout[SessionIdField] == newId;
    ended := core.EndSession(logout);
    assert core.sessions.Keys == old(core.sessions).Keys;
  }

  /** A subscription that `get_updates` accepts is served at once: the dispatcher it starts
      finds its session registered, and its first pass delivers, after the acknowledgement,
      every update queued before the subscription, in queue order. */
  method SubscribeAndServe(core: Core, message: map<Field, Option<string>>)
    returns (s: Subscription, running: bool)
    requires core.Valid()
    modifies core
    ensures core.Valid()
    ensures s.Dispatching? ==>
      && running
      && s.id in old(core.sessions)
      && core.emitted == old(core.emitted) + [StartingLoop] + UpdateEvents(old(core.sessions)[s.id].updates)
      && core.sessions == old(core.sessions)[s.id := old(core.sessions)[s.id].(updates := [])]
    ensures !s.Dispatching? ==> core.sessions == old(core.sessions)
  {
    s := core.GetUpdates(message);
    running := false;
    if s.Dispatching? {
      running := core.UpdatePass(s.id);
    }
  }

  /** Logging in once per entry of `ids`, each time with a correct password, registers every
      one of those ids, each under its own user. */
  method StartMany(users: seq<Username>, ids: seq<SessionId>, now: Timestamp) returns (core: Core)
    requires |users| == |ids| && Distinct(ids)
    requires forall i :: 0 <= i < |users| ==> Ascii(users[i])
    ensures core.Valid()
    ensures forall k :: k in core.sessions <==> k in ids
    ensures |core.sessions| == |ids|
    ensures forall i :: 0 <= i < |ids| ==> core.sessions[ids[i]].username == users[i]
  {
    core := new Core();
    var i := 0;
    while i < |ids|
      invariant 0 <= i <= |ids|
      invariant core.Valid()
      invariant forall k :: k in core.sessions <==> k in ids[..i]
      invariant forall j :: 0 <= j < i ==> core.sessions[ids[j]].username == users[j]
      invariant |core.sessions| == i
    {
      var login := map[UsernameField := users[i], PasswordField := ""];
      assert HasCredentials(login) && login[UsernameField] == users[i] && Ascii(login[PasswordField]);
      ghost var before := core.sessions;
      var r := core.StartSession(login, true, true, ids[i], now);
      RegisteredPrefixGrows(before, core.sessions, users, ids, i, now);
      i := i + 1;
    }
    assert ids[..i] == ids;
  }

  /** One more login in `StartMany`: a registry keyed by the first `i` ids of `ids`, each under
      its own user, is keyed by the first `i + 1` once the next id is registered. */
  lemma RegisteredPrefixGrows(before: map<SessionId, Session>, after: map<SessionId, Session>,
                              users: seq<Username>, ids: seq<SessionId>, i: nat, now: Timestamp)
    requires |users| == |ids| && Distinct(ids) && i < |ids|
    requires forall k :: k in before <==> k in ids[..i]
    requires forall j :: 0 <= j < i ==> before[ids[j]].username == users[j]
    requires |before| == i
    requires after == before[ids[i] := NewSession(users[i], ids[i], now)]
    ensures forall k :: k in after <==> k in ids[..i + 1]
    ensures forall j :: 0 <= j < i + 1 ==> after[ids[j]].username == users[j]
    ensures |after| == i + 1
  {
    DistinctAt(ids, i);
    assert ids[..i + 1] == ids[..i] + [ids[i]];
    forall j | 0 <= j < i + 1
      ensures ids[j] in after && after[ids[j]].username == users[j]
    {
      if j < i {
        assert ids[..i][j] == ids[j];
      }
    }
  }

  /** Log in, submit a command, queue an update, subscribe and let the dispatcher run once:
      the command is answered and queued, and the update queued before the subscription is
      delivered by the dispatcher's first pass. */
  method SubmitAndSubscribe(username: Username, password: string, sessionId: SessionId, now: Timestamp,
                            commandId: CommandId, reply: string, update: Payload)
    returns (started: Outcome, submitted: Outcome, subscribed: Subscription, delivered: seq<Event>,
             commands: seq<Command>)
    requires sessionId != ""
    requires Ascii(username) && Ascii(password) && Ascii(sessionId)
    ensures started == Returned(Response(Success, map["session_id" := Text(sessionId)], Some("Authentication successful")))
    ensures submitted == Returned(Response(Success, map[commandId := Text(reply)], Some(reply)))
    ensures commands == [Command(commandId, "ping")]
    ensures subscribed == Dispatching(sessionId)
    ensures delivered == [StartingLoop, Event("update", update)]
  {
    var core := new Core();
    var login := map[UsernameField := username, PasswordField := password];
    assert HasCredentials(login) && login[UsernameField] == username && login[PasswordField] == password;
    started := core.StartSession(login, true, true, sessionId, now);
    var submission := map[CommandField := "ping", SessionIdField := sessionId];
    assert CommandField in submission && submission[SessionIdField] == sessionId && Ascii(submission[CommandField]);
    submitted := core.ProcessCommand(submission, commandId, Replied(reply));
    core.PushUpdate(sessionId, update);
    var subscription := map[SessionIdField := Some(sessionId)];
    assert !Falsy(subscription[SessionIdField]);
    subscribed := core.GetUpdates(subscription);
    ghost var queued := core.sessions[sessionId].updates;
    assert queued == [update];
    var running := core.UpdatePass(sessionId);
    delivered := core.emitted;
    commands := core.sessions[sessionId].commands;
  }

  /** Ending a session with an update still queued: the update is discarded, the dispatcher's
      next pass stops without emitting anything, and a later command is refused. */
  method EndDiscardsPending(sessionId: SessionId, now: Timestamp, update: Payload, commandId: CommandId, reply: string)
    returns (ended: Outcome, running: bool, events: seq<Event>, again: Outcome)
    requires Ascii(sessionId)
    ensures ended == Returned(Response(Success, map[], Some("Ended session")))
    ensures !running && events == []
    ensures again == Returned(Failed(InvalidSessionId))
  {
    var core := new Core();
    var login := map[UsernameField := "alice", PasswordField := "secret"];
    assert HasCredentials(login) && Ascii(login[UsernameField]) && Ascii(login[PasswordField]);
    var started := core.StartSession(login, true, true, sessionId, now);
    core.PushUpdate(sessionId, update);
    var logout := map[SessionIdField := sessionId];
    assert logout[SessionIdField] == sessionId;
    ended := core.EndSession(logout);
    running := core.UpdatePass(sessionId);
    events := core.emitted;
    var submission := map[CommandField := "ping", SessionIdField := sessionId];
    assert CommandField in submission && submission[SessionIdField] !in core.sessions;
    assert Ascii(submission[CommandField]) && Ascii(submission[SessionIdField]);
    again := core.ProcessCommand(submission, commandId, Replied(reply));
  }

  /** Two dispatchers for one session, each running a pass one after the other: the first
      emits every queued item once, in queue order, and the second finds the queue empty, so
      nothing is emitted twice. */
  method TwoPasses(core: Core, sessionId: SessionId) returns (first: bool, second: bool)
    requires core.Valid() && sessionId in core.sessions
    modifies core
    ensures core.Valid()
    ensures first && second
    ensures core.sessions == old(core.sessions)[sessionId := old(core.sessions)[sessionId].(updates := [])]
    ensures core.emitted == old(core.emitted) + UpdateEvents(old(core.sessions)[sessionId].updates)
  {
    first := core.UpdatePass(sessionId);
    ghost var afterFirst := core.emitted;
    second := core.UpdatePass(sessionId);
    assert core.emitted == afterFirst + UpdateEvents([]);
  }

  /** Two dispatchers on one session, with two items queued one at a time and both
      dispatchers running a pass after each: every item is emitted once in all, in the order
      it was queued. */
  method TwoDispatchers(sessionId: SessionId, now: Timestamp, first: Payload, second: Payload)
    returns (events: seq<Event>)
    ensures events == [Event("update", first), Event("update", second)]
  {
    var core := new Core();
    var login := map[UsernameField := "alice", PasswordField := "secret"];
    assert HasCredentials(login) && Ascii(login[UsernameField]) && Ascii(login[PasswordField]);
    var started := core.StartSession(login, true, true, sessionId, now);
    core.PushUpdate(sessionId, first);
    var running, alsoRunning := TwoPasses(core, sessionId);
    assert core.emitted == [Event("update", first)];
    core.PushUpdate(sessionId, second);
    running, alsoRunning := TwoPasses(core, sessionId);
    events := core.emitted;
  }
}
