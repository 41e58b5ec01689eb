/**
 * The Stop hook: validate the session id, count the turn, decide whether a
 * topic is due, take the session lock, find context (the memory database
 * first, then the transcript), and hand the work to a detached background
 * worker. Everything the handler learns from the outside world (the clock,
 * the lock, the memory database, the file system, whether spawning throws)
 * is an input, gathered in `Environment`.
 */
module HookHandler {
  import opened Wrappers
  import opened Schedule
  import opened Validation
  import opened SessionStore
  import opened Transcript
  import opened TopicGenerator
  import opened Display

  /** The hook's JSON input; an absent `transcript_path` is the empty string. */
  datatype HookInput = HookInput(sessionId: string, cwd: string, transcriptPath: string)

  /** What a `throw` carries: an `Error` with its message, or any other value. */
  datatype Thrown = ErrorThrown(message: string) | ValueThrown

  /** The error text the handler stores for a caught exception. */
  function ThrownMessage(t: Thrown): (m: string)
    ensures t.ErrorThrown? ==> m == t.message
    ensures t.ValueThrown? ==> m == "unknown error"
  {
    match t
    case ErrorThrown(message) => message
    case ValueThrown => "unknown error"
  }

  /**
   * The value of the call `acquireLock(sessionId, tempDir)`: a promise that
   * resolves to a release function when the lock is granted, or to `null`.
   */
  datatype LockCall = PendingPromise(granted: bool)

  /** JavaScript truthiness of the value of the call itself: a Promise object is always truthy. */
  predicate PromiseTruthy(c: LockCall)
  {
    c.PendingPromise?
  }

  /** The busy test as written, `!acquireLock(...)` without `await`: it can never hold. */
  function BusyAsWritten(c: LockCall): (busy: bool)
    ensures !busy
  {
    !PromiseTruthy(c)
  }

  /** The busy test as intended, on the awaited value: busy exactly when the lock was refused. */
  function BusyAwaited(c: LockCall): (busy: bool)
    ensures busy <==> !c.granted
  {
    match c
    case PendingPromise(granted) => !granted
  }

  /**
   * What the handler observes. `memoryContext` is the memory database's
   * context (empty for none); `files` maps each existing file to its
   * content once it has stopped growing; `statFailure` is what the size
   * check on an existing transcript throws, if it throws; `spawnFailure` is
   * what launching the worker throws, if it throws; `parse` is `JSON.parse`
   * on one transcript line.
   */
  datatype Environment = Environment(
    now: int,
    lock: LockCall,
    memoryContext: string,
    home: string,
    files: map<string, string>,
    statFailure: Option<Thrown>,
    spawnFailure: Option<Thrown>,
    parse: string -> Option<Message>)

  /** `transcript_path || findTranscriptPath(session_id, cwd)`. */
  function TranscriptFilePath(input: HookInput, env: Environment): (p: Option<string>)
    ensures input.transcriptPath != "" ==> p == Some(input.transcriptPath)
    ensures input.transcriptPath == "" ==>
              (p.Some? <==> TranscriptPathFor(env.home, input.cwd, input.sessionId) in env.files)
    ensures input.transcriptPath == "" && p.Some? ==> p.value == TranscriptPathFor(env.home, input.cwd, input.sessionId)
  {
    if input.transcriptPath != "" then Some(input.transcriptPath)
    else FindTranscriptPath(env.home, input.cwd, input.sessionId, env.files.Keys)
  }

  /** Where the context comes from: found (non-empty, with its source), none, or an exception. */
  datatype Resolution = Resolved(context: string, source: string) | NoContext | ResolveThrew(thrown: Thrown)

  /**
   * The context lookup: the memory context when there is one; otherwise
   * the transcript's context, when a transcript path is known and the file
   * exists and has content.
   */
  function ResolveContext(input: HookInput, env: Environment): Resolution
  {
    if env.memoryContext != "" then Resolved(env.memoryContext, MemorySource)
    else match TranscriptFilePath(input, env)
      case None => NoContext
      case Some(path) =>
        if path !in env.files then NoContext
        else if env.statFailure.Some? then ResolveThrew(env.statFailure.value)
        else if env.files[path] == "" then NoContext
        else match TranscriptContext(env.files[path], DefaultContextLines, env.parse)
          case None => NoContext
          case Some(context) => Resolved(context, TranscriptSource)
  }

  /**
   * Where the context comes from: the memory context whenever it is
   * non-empty; otherwise the transcript's context, read from the file at
   * the transcript path; nothing when there is no path; an exception only
   * from the size check on the file.
   */
  lemma ResolveContextSources(input: HookInput, env: Environment)
    ensures var r := ResolveContext(input, env);
            (env.memoryContext != "" ==> r == Resolved(env.memoryContext, MemorySource))
            && (r.Resolved? ==> r.context != "")
            && (r.Resolved? && r.source != MemorySource ==>
                  r.source == TranscriptSource && env.memoryContext == ""
                  && TranscriptFilePath(input, env).Some? && TranscriptFilePath(input, env).value in env.files
                  && Some(r.context) == TranscriptContext(env.files[TranscriptFilePath(input, env).value], DefaultContextLines, env.parse))
            && (env.memoryContext == "" && TranscriptFilePath(input, env).None? ==> r == NoContext)
            && (r.ResolveThrew? ==> env.statFailure == Some(r.thrown))
  {
  }

  /** Which way the handler went. */
  datatype Path = NotDue | Busy | Waiting | Dispatched(args: seq<string>) | Failed(thrown: Thrown)

  /** Nothing done (invalid id), or the path taken and the one record written. */
  datatype Outcome = Rejected | Handled(path: Path, written: SessionState)

  /**
   * The handler's decisions, with the busy test given as `busy`; the
   * handler proper is `StopHook`, and `StopHookAsWritten` is the code with
   * its un-awaited busy test.
   */
  function StopHookWith(stored: Option<SessionState>, input: HookInput, tempDir: string, env: Environment, busy: bool): Outcome
  {
    if !ValidateSessionId(input.sessionId) then Rejected
    else AfterRead(stored.GetOr(SessionState(0, "", "", env.now)), input, tempDir, env, busy)
  }

  /** From the loaded record on: count the turn, test whether a topic is due, test the lock. */
  function AfterRead(loaded: SessionState, input: HookInput, tempDir: string, env: Environment, busy: bool): Outcome
  {
    var state := loaded.(count := loaded.count + 1);
    if !ShouldGenerate(state.count, state.topic, DefaultRegenInterval) then Handled(NotDue, state.(generatedAt := env.now))
    else if busy then Handled(Busy, state.(generatedAt := env.now))
    else UnderLock(state, input, tempDir, env)
  }

  /** The `try`/`catch` part, once the lock is held, for the counted record `state`. */
  function UnderLock(state: SessionState, input: HookInput, tempDir: string, env: Environment): Outcome
  {
    match ResolveContext(input, env)
    case NoContext => Handled(Waiting, state.(error := WaitingForConversation, generatedAt := env.now))
    case ResolveThrew(t) => Handled(Failed(t), state.(error := ThrownMessage(t), generatedAt := env.now))
    case Resolved(context, source) =>
      if env.spawnFailure.Some? then
        Handled(Failed(env.spawnFailure.value), state.(error := ThrownMessage(env.spawnFailure.value), generatedAt := env.now))
      else
        Handled(Dispatched([input.sessionId, context, source, tempDir]), state.(error := "", generatedAt := env.now))
  }

  /**
   * Validation and counting: only an invalid id is rejected; otherwise the
   * count is one more than the stored count (zero for a new record), the
   * topic is never changed, the time is `now`, the due test uses the
   * incremented count, the busy path is taken exactly when generation is
   * due and the lock is busy, and the not-due and busy paths keep the error.
   */
  lemma StopHookCounts(stored: Option<SessionState>, input: HookInput, tempDir: string, env: Environment, busy: bool)
    ensures var o := StopHookWith(stored, input, tempDir, env, busy);
            (o.Rejected? <==> !ValidateSessionId(input.sessionId))
            && (o.Handled? ==>
              var loaded := stored.GetOr(SessionState(0, "", "", env.now));
              o.written.count == loaded.count + 1 && o.written.topic == loaded.topic
              && o.written.generatedAt == env.now
              && (o.path.NotDue? <==> !ShouldGenerate(o.written.count, loaded.topic, DefaultRegenInterval))
              && (o.path.Busy? <==> ShouldGenerate(o.written.count, loaded.topic, DefaultRegenInterval) && busy)
              && (o.path.NotDue? || o.path.Busy? ==> o.written.error == loaded.error))
  {
    if ValidateSessionId(input.sessionId) {
      var loaded := stored.GetOr(SessionState(0, "", "", env.now));
      UnderLockKeepsRecord(loaded.(count := loaded.count + 1), input, tempDir, env);
    }
  }

  /** Every outcome under the lock is handled, generates, and keeps the count and topic. */
  lemma UnderLockKeepsRecord(state: SessionState, input: HookInput, tempDir: string, env: Environment)
    ensures var o := UnderLock(state, input, tempDir, env);
            o.Handled? && !o.path.NotDue? && !o.path.Busy?
            && o.written.count == state.count && o.written.topic == state.topic
            && o.written.generatedAt == env.now
  {
  }

  /**
   * The error each generating path stores: the waiting path stores the
   * sentinel, dispatch clears the error and passes the resolved context
   * and its source (the memory source exactly when memory had context),
   * and a failure stores the message of the exception the transcript
   * check or the spawn threw.
   */
  lemma StopHookErrors(stored: Option<SessionState>, input: HookInput, tempDir: string, env: Environment, busy: bool)
    ensures var o := StopHookWith(stored, input, tempDir, env, busy);
            (o.Handled? && o.path.Waiting? ==> o.written.error == WaitingForConversation)
            && (o.Handled? && o.path.Dispatched? ==>
              o.written.error == ""
              && var r := ResolveContext(input, env);
              r.Resolved? && env.spawnFailure.None?
              && o.path.args == [input.sessionId, r.context, r.source, tempDir]
              && (r.source == MemorySource <==> env.memoryContext != ""))
            && (o.Handled? && o.path.Failed? ==>
              o.written.error == ThrownMessage(o.path.thrown)
              && (env.statFailure == Some(o.path.thrown) || env.spawnFailure == Some(o.path.thrown)))
  {
    if ValidateSessionId(input.sessionId) {
      var loaded := stored.GetOr(SessionState(0, "", "", env.now));
      var state := loaded.(count := loaded.count + 1);
      if ShouldGenerate(state.count, state.topic, DefaultRegenInterval) && !busy {
        UnderLockErrors(state, input, tempDir, env);
      }
    }
  }

  /** `StopHookErrors` for the part under the lock. */
  lemma UnderLockErrors(state: SessionState, input: HookInput, tempDir: string, env: Environment)
    ensures var o := UnderLock(state, input, tempDir, env);
            (o.Handled? && o.path.Waiting? ==> o.written.error == WaitingForConversation)
            && (o.Handled? && o.path.Dispatched? ==>
              o.written.error == ""
              && var r := ResolveContext(input, env);
              r.Resolved? && env.spawnFailure.None?
              && o.path.args == [input.sessionId, r.context, r.source, tempDir]
              && (r.source == MemorySource <==> env.memoryContext != ""))
            && (o.Handled? && o.path.Failed? ==>
              o.written.error == ThrownMessage(o.path.thrown)
              && (env.statFailure == Some(o.path.thrown) || env.spawnFailure == Some(o.path.thrown)))
  {
    ResolveContextSources(input, env);
  }

  /** `handleStopHook` with the lock test on the awaited value. */
  function StopHook(stored: Option<SessionState>, input: HookInput, tempDir: string, env: Environment): Outcome
  {
    StopHookWith(stored, input, tempDir, env, BusyAwaited(env.lock))
  }

  /** `handleStopHook` as written: the lock test never finds the lock busy. */
  function StopHookAsWritten(stored: Option<SessionState>, input: HookInput, tempDir: string, env: Environment): Outcome
  {
    StopHookWith(stored, input, tempDir, env, BusyAsWritten(env.lock))
  }

  /** The side effects of each path, in order. */
  function Trace(sessionId: string, tempDir: string, o: Outcome): seq<Event>
  {
    match o
    case Rejected => []
    case Handled(path, w) => [StateRead(sessionId)] + PathTrace(sessionId, tempDir, path, w)
  }

  /** The side effects after the record is read, in order. */
  function PathTrace(sessionId: string, tempDir: string, path: Path, w: SessionState): seq<Event>
  {
    match path
    case NotDue => [StateWritten(sessionId, w)]
    case Busy => [LockRequested(sessionId, tempDir), StateWritten(sessionId, w)]
    case _ => [LockRequested(sessionId, tempDir)] + TryTrace(sessionId, tempDir, path, w)
  }

  /** The side effects of the `try`/`catch` part, in order. */
  function TryTrace(sessionId: string, tempDir: string, path: Path, w: SessionState): seq<Event>
  {
    match path
    case Waiting => [StateWritten(sessionId, w), LockReleased(sessionId, tempDir)]
    case Dispatched(args) => [WorkerSpawned(args), StateWritten(sessionId, w)]
    case Failed(_) => [LockReleased(sessionId, tempDir), StateWritten(sessionId, w)]
    case _ => []
  }

  /** The records a trace writes, in order. */
  function Writes(events: seq<Event>): (ws: seq<SessionState>)
    ensures |ws| <= |events|
  {
    if events == [] then []
    else (if events[0].StateWritten? then [events[0].state] else []) + Writes(events[1..])
  }

  /**
   * The handler's discipline: an invalid id touches nothing; otherwise the
   * record is read first and written exactly once; the lock is asked for
   * only when a topic is due; it is released by the handler exactly on the
   * waiting and failure paths, and a worker is launched only on the
   * dispatch path, where the worker releases it.
   */
  lemma {:induction false} LockDiscipline(stored: Option<SessionState>, input: HookInput, tempDir: string, env: Environment)
    ensures var o := StopHook(stored, input, tempDir, env);
            var t := Trace(input.sessionId, tempDir, o);
            (o.Rejected? <==> t == [])
            && (o.Handled? ==> t[0] == StateRead(input.sessionId) && Writes(t) == [o.written])
            && (LockRequested(input.sessionId, tempDir) in t <==> o.Handled? && !o.path.NotDue?)
            && (LockReleased(input.sessionId, tempDir) in t <==> o.Handled? && (o.path.Waiting? || o.path.Failed?))
            && (forall args :: WorkerSpawned(args) in t <==> o.Handled? && o.path == Dispatched(args))
  {
    var o := StopHook(stored, input, tempDir, env);
    if o.Handled? {
      var t := Trace(input.sessionId, tempDir, o);
      var rest := PathTrace(input.sessionId, tempDir, o.path, o.written);
      assert t == [StateRead(input.sessionId)] + rest;
      PathTraceWritesOnce(input.sessionId, tempDir, o.path, o.written);
      PathTraceLocks(input.sessionId, tempDir, o.path, o.written);
      assert Writes(t) == Writes(rest);
    }
  }

  /** Which lock and worker events each path produces after the read. */
  lemma PathTraceLocks(sessionId: string, tempDir: string, path: Path, w: SessionState)
    ensures var t := PathTrace(sessionId, tempDir, path, w);
            (LockRequested(sessionId, tempDir) in t <==> !path.NotDue?)
            && (LockReleased(sessionId, tempDir) in t <==> path.Waiting? || path.Failed?)
            && (forall args :: WorkerSpawned(args) in t <==> path == Dispatched(args))
  {
  }

  /** After the read, every path writes the record exactly once. */
  lemma PathTraceWritesOnce(sessionId: string, tempDir: string, path: Path, w: SessionState)
    ensures Writes(PathTrace(sessionId, tempDir, path, w)) == [w]
  {
    var t := PathTrace(sessionId, tempDir, path, w);
    assert Writes([StateWritten(sessionId, w)]) == [w];
    match path
    case NotDue =>
    case Busy =>
      assert Writes(t) == Writes(t[1..]);
    case Waiting =>
      assert Writes([LockReleased(sessionId, tempDir)]) == [];
      assert Writes(t) == Writes(t[1..]) == [w] + Writes(t[2..]);
    case Dispatched(_) =>
      assert Writes(t) == Writes(t[1..]) == Writes(t[2..]);
    case Failed(_) =>
      assert Writes(t) == Writes(t[1..]) == Writes(t[2..]);
  }

  /**
   * `handleStopHook(input, tempDir)` on the state directory `dir`. The
   * records and the side effects are exactly those `StopHook` and `Trace`
   * prescribe for the record stored before the call.
   */
  method HandleStopHook(dir: StateDir, input: HookInput, tempDir: string, env: Environment)
    modifies dir
    ensures var o := StopHook(Lookup(old(dir.states), input.sessionId), input, tempDir, env);
            dir.states == (if o.Rejected? then old(dir.states) else old(dir.states)[input.sessionId := o.written])
            && dir.events == old(dir.events) + Trace(input.sessionId, tempDir, o)
  {
    var id := input.sessionId;
    if !ValidateSessionId(id) {
      return;
    }
    ghost var before := dir.events;
    var stored := dir.ReadState(id);
    var loaded := if stored.Some? then stored.value else SessionState(0, "", "", env.now);
    ghost var o := AfterRead(loaded, input, tempDir, env, BusyAwaited(env.lock));
    assert StopHook(stored, input, tempDir, env) == o;
    CountAndDispatch(dir, input, tempDir, env, loaded);
    assert Trace(id, tempDir, o) == [StateRead(id)] + PathTrace(id, tempDir, o.path, o.written);
    assert dir.events == before + Trace(id, tempDir, o);
  }

  /**
   * The part of `handleStopHook` after the record is read, for the loaded
   * record `loaded`: the write and the side effects `AfterRead` and
   * `PathTrace` prescribe.
   */
  method CountAndDispatch(dir: StateDir, input: HookInput, tempDir: string, env: Environment, loaded: SessionState)
    modifies dir
    ensures var o := AfterRead(loaded, input, tempDir, env, BusyAwaited(env.lock));
            o.Handled?
            && dir.states == old(dir.states)[input.sessionId := o.written]
            && dir.events == old(dir.events) + PathTrace(input.sessionId, tempDir, o.path, o.written)
  {
    var id := input.sessionId;
    ghost var before := dir.events;
    ghost var o := AfterRead(loaded, input, tempDir, env, BusyAwaited(env.lock));
    var state := loaded.(count := loaded.count + 1);
    if !ShouldGenerate(state.count, state.topic, DefaultRegenInterval) {
      state := state.(generatedAt := env.now);
      dir.WriteState(id, state);
      assert o == Handled(NotDue, state);
      return;
    }
    dir.RequestLock(id, tempDir);
    if BusyAwaited(env.lock) {
      state := state.(generatedAt := env.now);
      dir.WriteState(id, state);
      assert o == Handled(Busy, state);
      return;
    }
    TryGenerate(dir, input, tempDir, env, state);
    assert o == UnderLock(state, input, tempDir, env);
    assert dir.events == before + PathTrace(id, tempDir, o.path, o.written);
  }

  /**
   * The `try`/`catch` part of `handleStopHook`, with the lock held and
   * `counted` the counted record: the write and the side effects
   * `UnderLock` and `TryTrace` prescribe.
   */
  method TryGenerate(dir: StateDir, input: HookInput, tempDir: string, env: Environment, counted: SessionState)
    modifies dir
    ensures var o := UnderLock(counted, input, tempDir, env);
            o.Handled?
            && dir.states == old(dir.states)[input.sessionId := o.written]
            && dir.events == old(dir.events) + TryTrace(input.sessionId, tempDir, o.path, o.written)
  {
    var id := input.sessionId;
    ghost var o := UnderLock(counted, input, tempDir, env);
    var state := counted;
    var thrown: Option<Thrown> := None;
    var resolved := LookUpContext(input, env);
    if resolved.ResolveThrew? {
      thrown := Some(resolved.thrown);
    } else if resolved.NoContext? {
      state := state.(error := WaitingForConversation, generatedAt := env.now);
      dir.WriteState(id, state);
      dir.ReleaseLock(id, tempDir);
      assert o == Handled(Waiting, state);
      return;
    } else {
      var args := [id, resolved.context, resolved.source, tempDir];
      if env.spawnFailure.Some? {
        thrown := env.spawnFailure;
      } else {
        dir.Spawn(args);
        state := state.(error := "", generatedAt := env.now);
        dir.WriteState(id, state);
        assert o == Handled(Dispatched(args), state);
        return;
      }
    }

    // The `catch` block.
    dir.ReleaseLock(id, tempDir);
    state := state.(error := ThrownMessage(thrown.value), generatedAt := env.now);
    dir.WriteState(id, state);
    assert o == Handled(Failed(thrown.value), state);
  }

  /**
   * The context lookup inside the handler's `try` block: the memory
   * context first, then the transcript file, read by `ParseTranscript`.
   */
  method LookUpContext(input: HookInput, env: Environment) returns (r: Resolution)
    ensures r == ResolveContext(input, env)
  {
    if env.memoryContext != "" {
      return Resolved(env.memoryContext, MemorySource);
    }
    var path := if input.transcriptPath != "" then Some(input.transcriptPath)
                else FindTranscriptPath(env.home, input.cwd, input.sessionId, env.files.Keys);
    if path.None? {
      return NoContext;
    }
    if path.value in env.files && env.statFailure.Some? {
      return ResolveThrew(env.statFailure.value);
    }
    var file := if path.value in env.files then Some(env.files[path.value]) else None;
    var context := ParseTranscript(file, DefaultContextLines, env.parse);
    r := if context.Some? then Resolved(context.value, TranscriptSource) else NoContext;
  }

  /**
   * The un-awaited lock test lets a second handler past a lock another
   * process holds: with the lock refused, the code as written launches a
   * worker where the awaited test stops at the busy path.
   */
  lemma RefusedLockStillDispatches()
    ensures var env := Environment(0, PendingPromise(false), "observations", "/home", map[], None, None, _ => None);
            var input := HookInput("agent-abc1234", "/work", "");
            StopHookAsWritten(None, input, "", env).Handled?
            && StopHookAsWritten(None, input, "", env).path.Dispatched?
            && StopHook(None, input, "", env).Handled?
            && StopHook(None, input, "", env).path == Busy
  {
    AgentVectorAccepted();
  }

  /** With the awaited test, a refused lock never leads to a worker, whatever else holds. */
  lemma RefusedLockNeverDispatches(stored: Option<SessionState>, input: HookInput, tempDir: string, env: Environment)
    requires !env.lock.granted
    ensures var o := StopHook(stored, input, tempDir, env);
            o.Handled? ==> (o.path.NotDue? || o.path.Busy?) && o.written.error == stored.GetOr(SessionState(0, "", "", env.now)).error
  {
  }

  /**
   * What the status line shows after the handler ran, when no topic exists
   * yet: never the waiting sentinel; the countdown after the waiting path;
   * the exception's message after a failure (unless it is empty or the
   * sentinel itself).
   */
  lemma HandledRecordDisplay(stored: Option<SessionState>, input: HookInput, tempDir: string, env: Environment, later: int)
    requires var o := StopHook(stored, input, tempDir, env);
             o.Handled? && o.written.topic == ""
    ensures var o := StopHook(stored, input, tempDir, env);
            var shown := FormatTopicDisplay(Some(o.written), later, DefaultRegenInterval);
            shown != WaitingForConversation
            && (o.path.Waiting? || o.path.Dispatched? ==> shown == Countdown(o.written.count, DefaultRegenInterval))
            && (o.path.Failed? && ThrownMessage(o.path.thrown) != "" && ThrownMessage(o.path.thrown) != WaitingForConversation
                ==> shown == ThrownMessage(o.path.thrown))
  {
  }
}
