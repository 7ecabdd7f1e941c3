/** What the scheduler's operations leave behind, in terms of the row, the timer and the lock alone. */
module SchedulerLaws {
  import opened Wrappers
  import opened Scheduler
  import opened SchedulerRuns

  /** Neither the clock, nor the spots, nor the logs, nor any tick. */
  predicate OnlyRowAndTimer(s: State, t: State) {
    && t.now == s.now && t.known == s.known && t.active == s.active
    && t.lock == s.lock && t.ticks == s.ticks && t.passed == s.passed && t.nextTick == s.nextTick
    && t.dispatched == s.dispatched && t.completed == s.completed
  }

  /** An update takes over all four settings, counts itself, and sets the timer to match; the place
      in the rotation is kept. */
  predicate Reconfigured(s: State, t: State, u: ConfigUpdate) {
    && OnlyRowAndTimer(s, t)
    && t.config.enabled == u.enabled && t.config.interval == u.interval && t.config.sequence == u.sequence
    && t.config.revision == s.config.revision + 1
    && t.config.index == s.config.index && t.config.lastTriggered == s.config.lastTriggered
    && t.job == t.config.nextRun && t.job == if u.enabled then Some(s.now + 60 * u.interval) else None
  }

  lemma UpdateMeans(s: State, u: ConfigUpdate)
    requires Accepts(s, u)
    ensures Reconfigured(s, Step(s, Update(u)), u)
  {
  }

  /** A restart forgets lock, ticks and job, and arms an enabled row at its stored deadline. */
  predicate Restarted(s: State, t: State) {
    && t.now == s.now && t.known == s.known && t.active == s.active
    && t.dispatched == s.dispatched && t.completed == s.completed && t.nextTick == s.nextTick
    && t.lock.None? && t.ticks == map[] && t.passed == {}
    && t.config == s.config.(nextRun := t.config.nextRun)
    && t.job == (if s.config.enabled then t.config.nextRun else None)
    && t.config.nextRun == if s.config.enabled && s.config.nextRun.None? then Some(s.now + 60 * s.config.interval)
                           else s.config.nextRun
  }

  lemma RestartMeans(s: State)
    ensures Restarted(s, Step(s, Restart))
  {
  }

  /** A tick gets as far as choosing a spot. */
  ghost predicate Ready(s: State) {
    s.lock.None? && s.config.enabled && exists x :: x in s.config.sequence && x in s.active
  }

  /** A tick that is ready takes the lock and chooses the entry in turn; one that finds nothing active
      waits for another interval; any other one does nothing. */
  ghost predicate Began(s: State, t: State) {
    && (Ready(s) ==>
          && t.lock == Some(s.nextTick) && t.nextTick == s.nextTick + 1 && s.nextTick in t.ticks
          && t.config == s.config && t.job == s.job
          && t.ticks[s.nextTick].began == s.now && t.dispatched == s.dispatched + [t.ticks[s.nextTick]]
          && exists p: nat :: InTurnAt(s.config.sequence, s.active, s.config.index, p)
                              && t.ticks[s.nextTick].spot == s.config.sequence[p])
    && (!Ready(s) ==>
          && t.lock == s.lock && t.ticks == s.ticks && t.nextTick == s.nextTick && t.dispatched == s.dispatched
          && t.config == s.config.(nextRun := t.config.nextRun)
          && if s.lock.None? && s.config.enabled
             then t.job == t.config.nextRun == Some(s.now + 60 * s.config.interval)
             else t.job == s.job && t.config.nextRun == s.config.nextRun)
  }

  lemma ReadyIff(s: State)
    ensures Ready(s) <==> s.lock.None? && s.config.enabled && Playing(s) != []
  {
    if Playing(s) != [] {
      assert Playing(s)[0] in s.config.sequence && Playing(s)[0] in s.active;
    }
  }

  lemma BeginMeans(s: State)
    ensures Began(s, BeginTick(s))
    ensures Ready(s) <==> BeginTick(s).nextTick != s.nextTick
  {
    ReadyIff(s);
    if Ready(s) {
      var p := SpotInTurn(s.config.sequence, s.active, s.config.index);
      assert InTurnAt(s.config.sequence, s.active, s.config.index, p)
          && BeginTick(s).ticks[s.nextTick].spot == s.config.sequence[p];
    }
  }

  /** A tick that comes back gives up the lock; if autoplay is still on it is logged, the place moves
      on among the entries active now, and the timer is set one interval ahead. */
  predicate Completed(s: State, t: State, id: nat)
    requires id in s.ticks
  {
    && t.lock.None? && t.ticks == s.ticks - {id} && t.dispatched == s.dispatched
    && (!s.config.enabled ==> t.config == s.config && t.job == s.job && t.completed == s.completed)
    && (s.config.enabled ==>
          && t.completed == s.completed + [s.ticks[id]]
          && t.config.lastTriggered == Some(s.now)
          && t.job == t.config.nextRun && t.job == Some(s.now + 60 * s.config.interval)
          && t.config == s.config.(index := t.config.index, lastTriggered := t.config.lastTriggered,
                                   nextRun := t.config.nextRun)
          && var n := ActiveBefore(s.config.sequence, s.active, |s.config.sequence|);
             t.config.index == if n == 0 then s.config.index else (s.config.index + 1) % n)
  }

  lemma FinishMeans(s: State, id: nat)
    requires Underway(s, id)
    ensures Completed(s, Step(s, Finish(id)), id)
  {
    ActiveBeforeCounts(s.config.sequence, s.active);
  }
}
