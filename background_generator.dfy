/**
 * The detached background worker: read the session's record, ask the topic
 * generator for a topic (passing the stored topic as the previous one),
 * store the topic when there is one, and always force-release the session
 * lock at the end. The generator and the clock are inputs.
 */
module BackgroundGenerator {
  import opened Wrappers
  import opened Schedule
  import opened SessionStore
  import opened Display
  import opened HookHandler

  /** What the generator call does: return a topic (empty for `null`), or throw. */
  datatype Attempt<T> = Returned(value: T) | Threw

  /** The generator as the worker sees it: context, source and previous topic in, a topic out. */
  type Generator = (string, string, Option<string>) -> Attempt<string>

  /** The worker's command line: session id, context, source, and the directory (empty when absent). */
  function WorkerTempDir(args: seq<string>): (d: string)
    ensures |args| >= 4 ==> d == args[3]
    ensures |args| < 4 ==> d == ""
  {
    if |args| >= 4 then args[3] else ""
  }

  /** `currentState?.topic`: the stored topic (possibly empty) or nothing. */
  function PreviousTopic(stored: Option<SessionState>): (t: Option<string>)
    ensures t.Some? <==> stored.Some?
    ensures t.Some? ==> t.value == stored.value.topic
  {
    match stored
    case None => None
    case Some(s) => Some(s.topic)
  }

  /**
   * The record the worker writes, if any: a non-empty generated topic
   * replaces the topic and clears the error, keeping the stored count; a
   * missing topic or an exception writes nothing.
   */
  function WorkerWrite(stored: Option<SessionState>, args: seq<string>, generate: Generator, now: int): (w: Option<SessionState>)
    requires |args| >= 3
    ensures var g := generate(args[1], args[2], PreviousTopic(stored));
            w.Some? <==> g.Returned? && g.value != ""
    ensures w.Some? ==>
              w.value.topic == generate(args[1], args[2], PreviousTopic(stored)).value
              && w.value.count == (if stored.Some? then stored.value.count else 0)
              && w.value.error == "" && w.value.generatedAt == now
  {
    match generate(args[1], args[2], PreviousTopic(stored))
    case Threw => None
    case Returned(topic) =>
      if topic == "" then None
      else Some(SessionState(if stored.Some? then stored.value.count else 0, topic, "", now))
  }

  /** The worker's side effects, in order, once its arguments are accepted. */
  function WorkerTrace(stored: Option<SessionState>, args: seq<string>, generate: Generator, now: int): seq<Event>
    requires |args| >= 3
  {
    var w := WorkerWrite(stored, args, generate, now);
    [StateRead(args[0]), TopicRequested(args[1], args[2], PreviousTopic(stored))]
    + (if w.Some? then [StateWritten(args[0], w.value)] else [])
    + [LockForceReleased(args[0], WorkerTempDir(args))]
  }

  /**
   * `main` on the state directory `dir` with command-line arguments
   * `args`: with fewer than three arguments it exits with status 1 and
   * touches nothing; otherwise it makes the write `WorkerWrite` prescribes,
   * leaves every other record alone, and ends with the forced release.
   */
  method RunBackgroundGenerator(dir: StateDir, args: seq<string>, generate: Generator, now: int) returns (exitCode: int)
    modifies dir
    ensures |args| < 3 ==> exitCode == 1 && dir.states == old(dir.states) && dir.events == old(dir.events)
    ensures |args| >= 3 ==>
              exitCode == 0
              && var w := WorkerWrite(Lookup(old(dir.states), args[0]), args, generate, now);
              dir.states == (if w.Some? then old(dir.states)[args[0] := w.value] else old(dir.states))
              && dir.events == old(dir.events) + WorkerTrace(Lookup(old(dir.states), args[0]), args, generate, now)
  {
    if |args| < 3 {
      return 1;
    }
    var sessionId, context, source, tempDir := args[0], args[1], args[2], WorkerTempDir(args);
    ghost var before := dir.events;

    // The `try` block.
    var currentState := dir.ReadState(sessionId);
    var previousTopic := if currentState.Some? then Some(currentState.value.topic) else None;
    dir.RequestTopic(context, source, previousTopic);
    var topic := generate(context, source, previousTopic);
    if topic.Returned? && topic.value != "" {
      var newState := SessionState(if currentState.Some? then currentState.value.count else 0, topic.value, "", now);
      dir.WriteState(sessionId, newState);
    }

    // The `finally` block.
    dir.ForceReleaseLock(sessionId, tempDir);
    assert dir.events == before + WorkerTrace(currentState, args, generate, now);
    return 0;
  }

  /** Without a usable topic the record is left as it was: its topic and error survive. */
  lemma NoTopicKeepsRecord(stored: Option<SessionState>, args: seq<string>, generate: Generator, now: int)
    requires |args| >= 3
    requires generate(args[1], args[2], PreviousTopic(stored)) in {Threw, Returned("")}
    ensures WorkerWrite(stored, args, generate, now).None?
  {
  }

  /** The worker releases the lock whatever the generator did, after every other side effect. */
  lemma ReleaseComesLast(stored: Option<SessionState>, args: seq<string>, generate: Generator, now: int)
    requires |args| >= 3
    ensures var t := WorkerTrace(stored, args, generate, now);
            |t| >= 3 && t[|t| - 1] == LockForceReleased(args[0], WorkerTempDir(args))
            && forall i | 0 <= i < |t| - 1 :: !t[i].LockForceReleased?
  {
  }

  /**
   * A topic the worker has just stored is what the status line shows,
   * marked as generated now, with the stored count kept.
   */
  lemma StoredTopicShownNow(stored: Option<SessionState>, args: seq<string>, generate: Generator, now: int)
    requires |args| >= 3
    requires var g := generate(args[1], args[2], PreviousTopic(stored));
             g.Returned? && g.value != ""
    ensures var g := generate(args[1], args[2], PreviousTopic(stored));
            var w := WorkerWrite(stored, args, generate, now);
            w == Some(SessionState(if stored.Some? then stored.value.count else 0, g.value, "", now))
            && FormatTopicDisplay(w, now, DefaultRegenInterval) == g.value + " (now)"
  {
    var w := WorkerWrite(stored, args, generate, now);
    assert FormatAge(w.value.generatedAt, now) == "now";
  }

  /**
   * The handler and the worker together. When the handler dispatches a
   * worker, the worker's arguments are accepted, it reads back the record
   * the handler wrote, its forced release names the session and directory
   * whose lock the handler requested, and a non-empty topic from the
   * generator becomes the topic the status line shows, with the count the
   * handler stored.
   */
  lemma DispatchThenGenerate(stored: Option<SessionState>, input: HookInput, tempDir: string, env: Environment,
                             generate: Generator, later: int)
    requires var o := StopHook(stored, input, tempDir, env);
             o.Handled? && o.path.Dispatched?
    ensures var o := StopHook(stored, input, tempDir, env);
            var args := o.path.args;
            |args| == 4 && args[0] == input.sessionId && WorkerTempDir(args) == tempDir
            && LockRequested(input.sessionId, tempDir) in Trace(input.sessionId, tempDir, o)
            && LockForceReleased(input.sessionId, tempDir) in WorkerTrace(Some(o.written), args, generate, later)
            && var g := generate(args[1], args[2], Some(o.written.topic));
            (g.Returned? && g.value != "" ==>
               WorkerWrite(Some(o.written), args, generate, later) == Some(SessionState(o.written.count, g.value, "", later))
               && FormatTopicDisplay(WorkerWrite(Some(o.written), args, generate, later), later, DefaultRegenInterval)
                  == g.value + " (now)")
  {
    var o := StopHook(stored, input, tempDir, env);
    var args := o.path.args;
    StopHookErrors(stored, input, tempDir, env, BusyAwaited(env.lock));
    assert |args| == 4 && args[0] == input.sessionId && args[3] == tempDir;
    LockDiscipline(stored, input, tempDir, env);
    ReleaseComesLast(Some(o.written), args, generate, later);
    var g := generate(args[1], args[2], Some(o.written.topic));
    if g.Returned? && g.value != "" {
      StoredTopicShownNow(Some(o.written), args, generate, later);
    }
  }
}
