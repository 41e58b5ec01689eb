/**
 * The per-session state record and the directory that holds one record per
 * session. The JSON files on disk become a map from session id to record;
 * every call the handler and the worker make on the outside world (state
 * reads and writes, lock calls, spawning the worker, asking for a topic)
 * is appended to a ghost log of events, so that contracts can speak about
 * the order of side effects.
 */
module SessionStore {
  import opened Wrappers

  /** One session's record: turn count, current topic, last error, time of the last write (ms). */
  datatype SessionState = SessionState(count: nat, topic: string, error: string, generatedAt: int)

  /** The error the handler stores while no context is available; the display hides it. */
  const WaitingForConversation: string := "waiting for conversation"

  /** A side effect on the outside world, in the order it happened. */
  datatype Event =
    | StateRead(sessionId: string)
    | StateWritten(sessionId: string, state: SessionState)
    | LockRequested(sessionId: string, dir: string)
    | LockReleased(sessionId: string, dir: string)
    | LockForceReleased(sessionId: string, dir: string)
    | WorkerSpawned(args: seq<string>)
    | TopicRequested(context: string, source: string, previousTopic: Option<string>)

  /** The record stored for `sessionId`, if any. */
  function Lookup(states: map<string, SessionState>, sessionId: string): (s: Option<SessionState>)
    ensures s.Some? <==> sessionId in states
    ensures s.Some? ==> s.value == states[sessionId]
  {
    if sessionId in states then Some(states[sessionId]) else None
  }

  /** The state directory: one record per session id, and the log of side effects. */
  class StateDir {
    var states: map<string, SessionState>
    ghost var events: seq<Event>

    constructor(initial: map<string, SessionState>)
      ensures states == initial && events == []
    {
      states := initial;
      events := [];
    }

    /** `readState`: the stored record, or nothing when there is none. */
    method ReadState(sessionId: string) returns (s: Option<SessionState>)
      modifies this
      ensures s == Lookup(old(states), sessionId)
      ensures states == old(states)
      ensures events == old(events) + [StateRead(sessionId)]
    {
      s := Lookup(states, sessionId);
      events := events + [StateRead(sessionId)];
    }

    /** `writeState`: replaces the record of `sessionId` and leaves every other record alone. */
    method WriteState(sessionId: string, s: SessionState)
      modifies this
      ensures states == old(states)[sessionId := s]
      ensures events == old(events) + [StateWritten(sessionId, s)]
    {
      states := states[sessionId := s];
      events := events + [StateWritten(sessionId, s)];
    }

    /** The call to `acquireLock`; whether it succeeds is decided by the caller's input. */
    method RequestLock(sessionId: string, dir: string)
      modifies this
      ensures states == old(states)
      ensures events == old(events) + [LockRequested(sessionId, dir)]
    {
      events := events + [LockRequested(sessionId, dir)];
    }

    /** The call to `releaseLock` made by the handler. */
    method ReleaseLock(sessionId: string, dir: string)
      modifies this
      ensures states == old(states)
      ensures events == old(events) + [LockReleased(sessionId, dir)]
    {
      events := events + [LockReleased(sessionId, dir)];
    }

    /** The call to `forceReleaseLock` made by the worker. */
    method ForceReleaseLock(sessionId: string, dir: string)
      modifies this
      ensures states == old(states)
      ensures events == old(events) + [LockForceReleased(sessionId, dir)]
    {
      events := events + [LockForceReleased(sessionId, dir)];
    }

    /** Launching the detached background worker with `args`. */
    method Spawn(args: seq<string>)
      modifies this
      ensures states == old(states)
      ensures events == old(events) + [WorkerSpawned(args)]
    {
      events := events + [WorkerSpawned(args)];
    }

    /** Asking the topic generator for a topic. */
    method RequestTopic(context: string, source: string, previousTopic: Option<string>)
      modifies this
      ensures states == old(states)
      ensures events == old(events) + [TopicRequested(context, source, previousTopic)]
    {
      events := events + [TopicRequested(context, source, previousTopic)];
    }
  }
}
