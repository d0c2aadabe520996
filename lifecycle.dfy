/**
 * The lifetime of the behaviour server's session table (`sessions` in
 * fixed_colab.py): a connection stores a fresh `SessionData` under its
 * session id (line 179); when the connection ends, a cleanup task is
 * started that deletes the entry for that id five minutes later
 * (lines 338-343).
 *
 * Time is abstract: a cleanup timer firing is an event that can happen at
 * any point after it was started. Each stored `SessionData` is identified
 * by the generation number of the connection that created it, so the model
 * can tell a session from its replacement under the same id.
 *
 * As written, the cleanup deletes whatever is stored under the id when it
 * fires, so a client that reconnects under the same id within the five
 * minutes loses its new, live session to the old connection's timer
 * (`ExpireAsWritten`, `StaleTimerDeletesReconnectedSession`). The table
 * below uses the corrected cleanup, which deletes the entry only if it
 * still holds the session of the connection that started the timer
 * (`Expire`, `ExpireKeepsServedSessions`).
 */
module Lifecycle {
  import opened Handshake

  /** A pending cleanup: the id to clean and the generation of the connection that started it. */
  datatype Timer = Timer(id: Json, gen: nat)

  /**
   * The table: the generation stored under each id, the generations whose
   * connection is still open, the next generation number, and the cleanup
   * tasks that have not fired yet.
   */
  datatype Table = Table(sessions: map<Json, nat>, live: set<nat>, nextGen: nat, timers: seq<Timer>)

  /** The table at start-up. */
  function Empty(): Table {
    Table(map[], {}, 0, [])
  }

  /** `sessions[session_id] = SessionData()` for a new connection (line 179). */
  function Open(t: Table, id: Json): (r: Table)
    ensures Serving(r, id) && r.live == t.live + {r.sessions[id]}
    ensures r.sessions.Keys == t.sessions.Keys + {id}
    ensures forall other :: other in t.sessions && other != id ==> r.sessions[other] == t.sessions[other]
    ensures r.timers == t.timers
  {
    Table(t.sessions[id := t.nextGen], t.live + {t.nextGen}, t.nextGen + 1, t.timers)
  }

  /** The `finally` block of the connection of generation `gen` (lines 338-343): a cleanup is started only if the id is still in the table. */
  function Close(t: Table, id: Json, gen: nat): (r: Table)
    ensures r.sessions == t.sessions && r.live == t.live - {gen}
    ensures |r.timers| == |t.timers| + (if id in t.sessions then 1 else 0)
    ensures r.timers[..|t.timers|] == t.timers
    ensures id in t.sessions ==> r.timers[|t.timers|] == Timer(id, gen)
  {
    Table(t.sessions, t.live - {gen}, t.nextGen, t.timers + (if id in t.sessions then [Timer(id, gen)] else []))
  }

  /** The table without pending timer `i`. */
  function WithoutTimer(t: Table, i: nat): (r: Table)
    requires i < |t.timers|
    ensures |r.timers| == |t.timers| - 1
    ensures forall k :: 0 <= k < |r.timers| ==> r.timers[k] in t.timers
  {
    Table(t.sessions, t.live, t.nextGen, t.timers[..i] + t.timers[i + 1..])
  }

  /** Timer `i` fires as written (lines 340-342): `if sid in sessions: del sessions[sid]`. */
  function ExpireAsWritten(t: Table, i: nat): (r: Table)
    requires i < |t.timers|
    ensures r.sessions.Keys == t.sessions.Keys - {t.timers[i].id}
    ensures forall k :: k in r.sessions ==> r.sessions[k] == t.sessions[k]
    ensures r.live == t.live && |r.timers| == |t.timers| - 1
  {
    var r := WithoutTimer(t, i);
    var id := t.timers[i].id;
    if id in t.sessions then Table(t.sessions - {id}, r.live, r.nextGen, r.timers) else r
  }

  /** Timer `i` fires, corrected: the entry is deleted only if it still holds the closing connection's session. */
  function Expire(t: Table, i: nat): (r: Table)
    requires i < |t.timers|
    ensures t.timers[i].id in r.sessions
      <==> t.timers[i].id in t.sessions && t.sessions[t.timers[i].id] != t.timers[i].gen
    ensures forall k :: k in t.sessions && k != t.timers[i].id ==> k in r.sessions
    ensures forall k :: k in r.sessions ==> k in t.sessions && r.sessions[k] == t.sessions[k]
    ensures r.live == t.live && |r.timers| == |t.timers| - 1
  {
    var r := WithoutTimer(t, i);
    var id := t.timers[i].id;
    if id in t.sessions && t.sessions[id] == t.timers[i].gen then Table(t.sessions - {id}, r.live, r.nextGen, r.timers) else r
  }

  /** The session stored under `id` belongs to a connection that is still open. */
  predicate Serving(t: Table, id: Json) {
    id in t.sessions && t.sessions[id] in t.live
  }

  /** Generations are handed out once, and a pending timer belongs to a closed connection. */
  predicate Inv(t: Table) {
    && (forall g :: g in t.live ==> g < t.nextGen)
    && (forall id :: id in t.sessions ==> t.sessions[id] < t.nextGen)
    && (forall k :: 0 <= k < |t.timers| ==> t.timers[k].gen < t.nextGen && t.timers[k].gen !in t.live)
  }

  // ---------------------------------------------------------------------------
  // The corrected cleanup
  // ---------------------------------------------------------------------------

  lemma EmptyInv()
    ensures Inv(Empty()) && forall id :: !Serving(Empty(), id)
  {
  }

  /** Opening a connection serves its id with a generation no pending timer carries. */
  lemma OpenServes(t: Table, id: Json)
    requires Inv(t)
    ensures Inv(Open(t, id)) && Serving(Open(t, id), id)
    ensures forall k :: 0 <= k < |t.timers| ==> Open(t, id).timers[k].gen != Open(t, id).sessions[id]
  {
  }

  /** Closing an open connection keeps the invariant, and the other open connections keep their sessions. */
  lemma ClosePreservesInv(t: Table, id: Json, gen: nat)
    requires Inv(t) && gen in t.live
    ensures Inv(Close(t, id, gen))
    ensures forall other :: Serving(t, other) && t.sessions[other] != gen ==> Serving(Close(t, id, gen), other)
  {
    var r := Close(t, id, gen);
    forall k | 0 <= k < |r.timers|
      ensures r.timers[k].gen < r.nextGen && r.timers[k].gen !in r.live
    {
      if k < |t.timers| {
        assert r.timers[k] == t.timers[k];
      }
    }
  }

  /**
   * A cleanup never deletes a session whose connection is still open: every
   * served id stays served, with the same session, and the invariant holds.
   */
  lemma ExpireKeepsServedSessions(t: Table, i: nat)
    requires Inv(t) && i < |t.timers|
    ensures Inv(Expire(t, i))
    ensures forall id :: Serving(t, id) ==> Serving(Expire(t, i), id) && Expire(t, i).sessions[id] == t.sessions[id]
  {
    var r := Expire(t, i);
    forall k | 0 <= k < |r.timers|
      ensures r.timers[k].gen < r.nextGen && r.timers[k].gen !in r.live
    {
      assert r.timers[k] in t.timers;
    }
  }

  /** A cleanup whose session was not replaced deletes it, as the source intends. */
  lemma ExpireRemovesClosedSession(t: Table, i: nat)
    requires i < |t.timers|
    requires t.timers[i].id in t.sessions && t.sessions[t.timers[i].id] == t.timers[i].gen
    ensures t.timers[i].id !in Expire(t, i).sessions
    ensures Expire(t, i) == ExpireAsWritten(t, i)
  {
  }

  // ---------------------------------------------------------------------------
  // The cleanup as written
  // ---------------------------------------------------------------------------

  /**
   * Connect under `id`, disconnect, reconnect under the same id before the
   * five minutes are up: the first connection's timer then deletes the
   * second connection's live session, which the corrected cleanup keeps.
   */
  lemma StaleTimerDeletesReconnectedSession(id: Json)
    ensures var t := Open(Close(Open(Empty(), id), id, 0), id);
      && Serving(t, id)
      && |t.timers| == 1
      && id !in ExpireAsWritten(t, 0).sessions
      && Serving(Expire(t, 0), id)
  {
    var t := Open(Close(Open(Empty(), id), id, 0), id);
    assert t.timers == [Timer(id, 0)];
    assert t.sessions[id] == 1;
  }

  // ---------------------------------------------------------------------------
  // The table in place
  // ---------------------------------------------------------------------------

  /** The module-level `sessions` dictionary and its cleanup tasks. */
  class SessionTable {
    var sessions: map<Json, nat>
    var live: set<nat>
    var nextGen: nat
    var timers: seq<Timer>

    function State(): Table
      reads this
    {
      Table(sessions, live, nextGen, timers)
    }

    constructor ()
      ensures State() == Empty()
    {
      sessions := map[];
      live := {};
      nextGen := 0;
      timers := [];
    }

    /** A connection stores its new session; the result is its generation. */
    method Connect(id: Json) returns (gen: nat)
      modifies this
      ensures State() == Open(old(State()), id) && gen == old(nextGen)
      ensures Inv(old(State())) ==> Inv(State()) && Serving(State(), id)
    {
      ghost var t := State();
      gen := nextGen;
      sessions := sessions[id := gen];
      live := live + {gen};
      nextGen := nextGen + 1;
      if Inv(t) {
        OpenServes(t, id);
      }
    }

    /** The connection of generation `gen` ends and starts a cleanup if its id is still stored. */
    method Disconnect(id: Json, gen: nat)
      modifies this
      ensures State() == Close(old(State()), id, gen)
    {
      live := live - {gen};
      if id in sessions {
        timers := timers + [Timer(id, gen)];
      }
    }

    /** Pending cleanup `i` fires, with the corrected check. */
    method Cleanup(i: nat)
      requires i < |timers|
      modifies this
      ensures State() == Expire(old(State()), i)
      ensures Inv(old(State())) ==> Inv(State())
      ensures forall id :: old(Serving(State(), id)) && Inv(old(State())) ==> Serving(State(), id)
    {
      ghost var t := State();
      var timer := timers[i];
      timers := timers[..i] + timers[i + 1..];
      if timer.id in sessions && sessions[timer.id] == timer.gen {
        sessions := sessions - {timer.id};
      }
      if Inv(t) {
        ExpireKeepsServedSessions(t, i);
      }
    }
  }
}
