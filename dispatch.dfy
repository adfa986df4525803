/**
 * The timer handler (`handler`): polled by Blender; when the event is set it
 * runs the import on the receiver's `data`. The import is the caller-supplied
 * `run`, which takes the scene and the job to the scene it leaves behind and
 * whether `import_response` returned without raising.
 */
module Dispatch {
  import opened Wrappers
  import opened Receiver

  /** Seconds until Blender polls again. */
  const PollInterval: real := 0.01

  /**
   * What one call of the handler gives back to Blender's timer: the next
   * interval, or an exception (after which Blender unregisters the timer).
   */
  datatype Outcome = Rearm(interval: real) | Raise

  /** The mailbox and the scene after one call, whether `import_response` was called, and the outcome. */
  datatype TickResult<J, W> = TickResult(slot: Slot<J>, world: W, called: bool, outcome: Outcome)

  /**
   * One call of the handler. The import is called exactly when the event is
   * set; the event is cleared only after an import that returned. An import
   * that raises (a `None` job always does, at `response.get`) reaches the
   * `except` block, whose first statement calls a string and raises again, so
   * the clear is skipped and the exception leaves the handler. Whatever the
   * import changed in the scene before it raised stays changed. The handler
   * never touches `data`.
   */
  function Tick<J, W>(s: Slot<J>, w: W, run: (W, J) -> (W, bool)): (r: TickResult<J, W>)
    ensures r.called <==> s.pending
    ensures r.slot.data == s.data
    ensures r.outcome.Rearm? ==> r.outcome.interval == PollInterval
    ensures r.outcome.Raise? <==> s.pending && !(s.data.Some? && run(w, s.data.value).1)
    ensures r.slot.pending <==> r.outcome.Raise?
    ensures s.pending && s.data.Some? ==> r.world == run(w, s.data.value).0
    ensures !(s.pending && s.data.Some?) ==> r.world == w
  {
    if !s.pending then TickResult(s, w, false, Rearm(PollInterval))
    else if s.data.None? then TickResult(s, w, true, Raise)
    else
      var (after, returned) := run(w, s.data.value);
      if returned then TickResult(s.(pending := false), after, true, Rearm(PollInterval))
      else TickResult(s, after, true, Raise)
  }

  /** `handler`, acting on the receiver's shared state and on the scene `w`. */
  method Handle<J, W>(server: Receiver<J>, w: W, run: (W, J) -> (W, bool))
    returns (world: W, called: bool, outcome: Outcome)
    modifies server
    ensures TickResult(server.State(), world, called, outcome) == Tick(old(server.State()), w, run)
  {
    world, called, outcome := w, false, Rearm(PollInterval);
    if server.pending {
      called := true;
      if server.data.None? {
        outcome := Raise;
        return;
      }
      var result := run(w, server.data.value);
      world := result.0;
      if !result.1 {
        outcome := Raise;
        return;
      }
      server.pending := false;
    }
  }

  /** Draining twice without a new publication: the second call imports nothing and leaves the scene alone. */
  lemma DrainTwice<J, W>(s: Slot<J>, w: W, run: (W, J) -> (W, bool))
    requires s.pending && s.data.Some? && run(w, s.data.value).1
    ensures var first := Tick(s, w, run);
      var second := Tick(first.slot, first.world, run);
      first.called && !second.called && second.world == first.world && second.outcome == Rearm(PollInterval)
  {
  }

  /**
   * Latest wins end to end: publishing `b` before `a` is drained means the
   * next call imports `b`'s job and `a`'s job is never imported.
   */
  lemma LatestWinsAtDrain<J, W>(s: Slot<J>, a: string, b: string, parse: string -> Option<J>, w: W, run: (W, J) -> (W, bool))
    requires parse(a).Some? && parse(b).Some?
    ensures var t := Tick(PublishAll(s, [a, b], parse), w, run);
      t.called && t.slot.data == parse(b) && t.world == run(w, parse(b).value).0
  {
    PublishAllLatestWins(s, [a, b], parse);
    assert Decodable([a, b], parse) == [a, b];
  }

  /**
   * A malformed message after a drained job sets the event again while `data`
   * still holds that job, so the next call imports the previous job a second time.
   */
  lemma MalformedMessageReplaysPrevious<J, W>(job: J, message: string, parse: string -> Option<J>, w: W, run: (W, J) -> (W, bool))
    requires parse(message).None?
    ensures var t := Tick(Published(Slot(false, Some(job)), message, parse), w, run);
      t.called && t.slot.data == Some(job) && t.world == run(w, job).0
  {
  }

  /**
   * A failed import leaves the event set and the job in place, and keeps what
   * it changed in the scene. A further call of the handler (Blender
   * unregisters a timer that raised, so one happens only once the handler is
   * registered again) runs the same job once more, on the scene the failed
   * run left behind, so its outcome may differ.
   */
  lemma FailedImportStaysPending<J, W>(s: Slot<J>, w: W, run: (W, J) -> (W, bool))
    requires s.pending && s.data.Some? && !run(w, s.data.value).1
    ensures Tick(s, w, run) == TickResult(s, run(w, s.data.value).0, true, Raise)
    ensures var first := Tick(s, w, run);
      var again := Tick(first.slot, first.world, run);
      again.called && again.world == run(first.world, s.data.value).0
  {
  }
}
