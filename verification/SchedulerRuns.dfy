/**
 What the scheduler keeps over whole runs, with administration, manual plays, restarts and
 changes to the spot library landing anywhere, also while a tick is waiting for its dispatch.
 */
module SchedulerRuns {
  import opened Wrappers
  import opened Arithmetic
  import opened Scheduler

  // ----- Invariants of every run -----

  /** The row and the timer agree, and are both clear while autoplay is off. */
  predicate TimerSound(s: State) {
    && (s.config.enabled ==> s.config.nextRun.Some?)
    && (!s.config.enabled ==> s.config.nextRun.None? && s.job.None?)
    && (s.job.Some? ==> s.job == s.config.nextRun)
  }

  /** At most one tick is between its first read and its final write: the one holding the lock. */
  predicate OneTick(s: State) {
    s.ticks.Keys == (if s.lock.Some? then {s.lock.value} else {}) && s.passed <= s.ticks.Keys
  }

  /** Ticks are numbered as they are dispatched, and each completes at most once. */
  ghost predicate LogSound(s: State) {
    && |s.dispatched| == s.nextTick
    && (forall i :: 0 <= i < |s.dispatched| ==> s.dispatched[i].id == i)
    && (forall id :: id in s.ticks ==> id < s.nextTick && s.ticks[id] == s.dispatched[id])
    && (forall j :: 0 <= j < |s.completed| ==>
          s.completed[j].id < s.nextTick && s.completed[j].id !in s.ticks
          && s.completed[j] == s.dispatched[s.completed[j].id])
    && (forall j, k :: 0 <= j < k < |s.completed| ==> s.completed[j].id != s.completed[k].id)
  }

  ghost predicate Sound(s: State) {
    TimerSound(s) && OneTick(s) && LogSound(s)
  }

  lemma FreshIsSound(now: int, interval: int)
    ensures Sound(Fresh(now, interval))
  {
  }

  lemma StepKeepsTimer(s: State, e: Event)
    requires TimerSound(s)
    ensures TimerSound(Step(s, e))
  {
  }

  lemma StepKeepsOneTick(s: State, e: Event)
    requires OneTick(s)
    ensures OneTick(Step(s, e))
  {
  }

  lemma BeginKeepsLog(s: State)
    requires LogSound(s)
    ensures LogSound(BeginTick(s))
  {
  }

  lemma FinishKeepsLog(s: State, id: nat)
    requires LogSound(s) && id in s.ticks
    ensures LogSound(FinishTick(s, id))
  {
  }

  lemma StepKeepsLog(s: State, e: Event)
    requires LogSound(s)
    ensures LogSound(Step(s, e))
  {
    match e
    case Fire => if Due(s) && !Misfires(s) { BeginKeepsLog(s.(job := None)); }
    case Finish(id) => if Underway(s, id) { FinishKeepsLog(s, id); }
    case _ =>
  }

  lemma StepIsSound(s: State, e: Event)
    requires Sound(s)
    ensures Sound(Step(s, e))
  {
    StepKeepsTimer(s, e);
    StepKeepsOneTick(s, e);
    StepKeepsLog(s, e);
  }

  lemma {:induction false} RunIsSound(s: State, es: seq<Event>)
    requires Sound(s)
    ensures Sound(Run(s, es))
  {
    if es != [] {
      RunIsSound(s, es[..|es| - 1]);
      StepIsSound(Run(s, es[..|es| - 1]), es[|es| - 1]);
    }
  }

  /** Every state that an installation ever reaches is sound. */
  lemma ReachableIsSound(now: int, interval: int, es: seq<Event>)
    ensures Sound(Run(Fresh(now, interval), es))
  {
    FreshIsSound(now, interval);
    RunIsSound(Fresh(now, interval), es);
  }

  /** The stored index moves, and a SCHEDULER_TICK is logged, only when a tick in flight comes
      back to a scheduler that is still on -- and then always exactly one is logged. */
  lemma OnlyFinishAdvances(s: State, e: Event)
    requires Sound(s)
    ensures Step(s, e).completed !=  s.completed <==> e.Finish? && Underway(s, e.id) && s.config.enabled
    ensures Step(s, e).completed != s.completed ==> Step(s, e).completed == s.completed + [s.ticks[e.id]]
    ensures Step(s, e).config.index != s.config.index ==> Step(s, e).completed != s.completed
  {
  }

  /** Between two points of a run the tick log only grows, and while it stands still so does the
      stored index: updates, stops, resets, restarts and ticks that raise leave it alone. */
  lemma {:induction false} TicksOwnIndex(s: State, es: seq<Event>, i: nat, j: nat)
    requires Sound(s) && i <= j <= |es|
    ensures var u, v := Run(s, es[..i]), Run(s, es[..j]);
            && u.completed <= v.completed
            && (u.completed == v.completed ==> u.config.index == v.config.index)
    decreases j
  {
    if i < j {
      TicksOwnIndex(s, es, i, j - 1);
      RunPrefix(s, es, j - 1);
      RunIsSound(s, es[..j - 1]);
      OnlyFinishAdvances(Run(s, es[..j - 1]), es[j - 1]);
    }
  }

  // ----- The armed timer -----

  /** With autoplay on and no tick in flight, the job is armed at exactly the stored deadline. */
  predicate Armed(s: State) {
    s.config.enabled && s.ticks == map[] ==> s.job.Some? && s.job == s.config.nextRun
  }

  /** The two ways to lose the timer: the job is noticed too late while nothing is in flight, or
      the chosen spot is no longer active when the dispatch looks it up, with autoplay on and
      nobody having re-armed. */
  predicate Strands(s: State, e: Event) {
    || (e.Fire? && Misfires(s) && s.ticks == map[])
    || (e.Check? && Chosen(s, e.id) && s.ticks[e.id].spot !in s.active && s.config.enabled && s.job.None?)
  }

  lemma UnlockLeavesNothing(s: State, id: nat)
    requires OneTick(s) && id in s.ticks
    ensures Unlock(s, id).ticks == map[]
  {
  }

  /** From a good state, a step leaves the timer armed exactly when it is not one of the two. */
  lemma ArmedUnlessStranded(s: State, e: Event)
    requires Sound(s) && Armed(s)
    ensures Armed(Step(s, e)) <==> !Strands(s, e)
  {
    if (e.Finish? || e.Check?) && e.id in s.ticks {
      UnlockLeavesNothing(s, e.id);
    }
    if e.Fire? && Due(s) && !Misfires(s) {
      var t := s.(job := None);
      if BeginTick(t).nextTick != t.nextTick {
        assert t.nextTick in BeginTick(t).ticks;
      }
    }
  }

  ghost predicate ArmedThroughout(s: State, es: seq<Event>) {
    forall i :: 0 <= i <= |es| ==> Armed(Run(s, es[..i]))
  }

  ghost predicate NeverStranded(s: State, es: seq<Event>) {
    forall i :: 0 <= i < |es| ==> !Strands(Run(s, es[..i]), es[i])
  }

  lemma ArmedAtNext(s: State, es: seq<Event>, i: nat)
    requires Sound(s) && i < |es| && Armed(Run(s, es[..i]))
    ensures Armed(Run(s, es[..i + 1])) <==> !Strands(Run(s, es[..i]), es[i])
  {
    RunIsSound(s, es[..i]);
    assert es[..i + 1][..i] == es[..i];
    ArmedUnlessStranded(Run(s, es[..i]), es[i]);
  }

  lemma {:induction false} ArmedUpTo(s: State, es: seq<Event>, i: nat)
    requires Sound(s) && Armed(s) && i <= |es| && NeverStranded(s, es)
    ensures Armed(Run(s, es[..i]))
  {
    if i > 0 {
      ArmedUpTo(s, es, i - 1);
      ArmedAtNext(s, es, i - 1);
    }
  }

  /** Over whole runs: the timer is armed at every point exactly when no step stranded it. */
  lemma ArmedThroughoutIff(s: State, es: seq<Event>)
    requires Sound(s) && Armed(s)
    ensures ArmedThroughout(s, es) <==> NeverStranded(s, es)
  {
    if ArmedThroughout(s, es) {
      forall i | 0 <= i < |es| ensures !Strands(Run(s, es[..i]), es[i]) {
        assert Armed(Run(s, es[..i])) && Armed(Run(s, es[..i + 1]));
        ArmedAtNext(s, es, i);
      }
    }
    if NeverStranded(s, es) {
      forall i | 0 <= i <= |es| ensures Armed(Run(s, es[..i])) {
        ArmedUpTo(s, es, i);
      }
    }
  }

  /** So for an installation from its first day on. */
  lemma ReachableArmedIff(now: int, interval: int, es: seq<Event>)
    ensures ArmedThroughout(Fresh(now, interval), es) <==> NeverStranded(Fresh(now, interval), es)
  {
    FreshIsSound(now, interval);
    ArmedThroughoutIff(Fresh(now, interval), es);
  }

  /** On, but with nothing left that could ever fire. */
  predicate Stalled(s: State) {
    s.config.enabled && s.ticks == map[] && s.job.None?
  }

  /** An administrator, a manual play, or a restart. */
  predicate Intervenes(e: Event) {
    e.Update? || e.Start? || e.Stop? || e.Reset? || e.Restart?
  }

  /** A stalled scheduler never plays again by itself, however long it runs. */
  lemma {:induction false} StalledForGood(s: State, es: seq<Event>)
    requires Stalled(s)
    requires forall i :: 0 <= i < |es| ==> !Intervenes(es[i])
    ensures Stalled(Run(s, es)) && Run(s, es).dispatched == s.dispatched
  {
    if es != [] {
      StalledForGood(s, es[..|es| - 1]);
    }
  }

  /** A day on which it happens: one spot is played every so many minutes, and is deactivated
      between the choice of a tick and the look-up of its dispatch. */
  function Deactivation(spot: SpotId, minutes: nat): seq<Event> {
    [SetSpots({spot}, {spot}),
     Update(ConfigUpdate(true, minutes, [spot], None)),
     Advance(60 * minutes),
     Fire,
     SetSpots({spot}, {}),
     Check(0)]
  }

  lemma DeactivatedSpotStalls(now: int, interval: int, spot: SpotId, minutes: nat)
    ensures Stalled(Run(Fresh(now, interval), Deactivation(spot, minutes)))
    ensures !NeverStranded(Fresh(now, interval), Deactivation(spot, minutes))
  {
    var es, s := Deactivation(spot, minutes), Fresh(now, interval);
    var t := Run(s, es[..3]);
    assert es[..3] == [es[0], es[1], es[2]] && es[3..] == [es[3], es[4], es[5]] && es[..3] + es[3..] == es;
    RunThree(s, es[0], es[1], es[2]);
    DeactivationArms(now, interval, spot, minutes);
    RunThree(t, es[3], es[4], es[5]);
    DeactivationStalls(t, spot);
    RunOn(s, es[..3], es[3..]);
    assert es[..|es|] == es;
    ReachableArmedIff(now, interval, es);
    assert !Armed(Run(s, es[..|es|]));
  }

  /** Due, with one active spot to play, and nothing in flight. */
  predicate ReadyFor(s: State, spot: SpotId) {
    && s.config.enabled && s.job == Some(s.now) && s.config.sequence == [spot] && s.active == {spot}
    && s.lock.None? && s.ticks == map[] && s.passed == {} && s.nextTick == 0
  }

  lemma DeactivationArms(now: int, interval: int, spot: SpotId, minutes: nat)
    ensures var es := Deactivation(spot, minutes);
            ReadyFor(Step(Step(Step(Fresh(now, interval), es[0]), es[1]), es[2]), spot)
  {
    assert FindMissing([spot], {spot}) == [];
  }

  lemma DeactivationStalls(t: State, spot: SpotId)
    requires ReadyFor(t, spot)
    ensures Stalled(Step(Step(Step(t, Fire), SetSpots({spot}, {})), Check(0)))
  {
    assert ActiveSequence([spot], {spot}) == [spot];
    var u := Step(t, Fire);
    assert u.ticks == map[0 := Tick(0, 0, spot, t.now)] && u.job.None?;
    var v := Step(u, SetSpots({spot}, {}));
    assert v.ticks == u.ticks && spot !in v.active && Chosen(v, 0);
  }

  lemma {:induction false} RunOn(s: State, first: seq<Event>, more: seq<Event>)
    ensures Run(s, first + more) == Run(Run(s, first), more)
  {
    if more == [] {
      assert first + more == first;
    } else {
      assert (first + more)[..|first + more| - 1] == first + more[..|more| - 1];
      RunOn(s, first, more[..|more| - 1]);
    }
  }

  /** On, nothing in flight, and the stored deadline d so long past that its job can only be dropped. */
  predicate Overdue(s: State, d: int) {
    && s.config.enabled && s.ticks == map[] && s.lock.None?
    && s.config.nextRun == Some(d) && s.now > d + MISFIRE_GRACE
    && (s.job.Some? ==> s.job == Some(d))
  }

  lemma {:induction false} OverdueForGood(s: State, es: seq<Event>, d: int)
    requires Overdue(s, d)
    requires forall i :: 0 <= i < |es| ==> !Intervenes(es[i]) || es[i].Restart?
    ensures Overdue(Run(s, es), d) && Run(s, es).dispatched == s.dispatched
  {
    if es != [] {
      OverdueForGood(s, es[..|es| - 1], d);
    }
  }

  lemma RunThree(s: State, a: Event, b: Event, c: Event)
    ensures Run(s, [a, b, c]) == Step(Step(Step(s, a), b), c)
  {
    assert [a, b, c][..2] == [a, b];
    assert [a, b][..1] == [a];
    assert Run(s, [a]) == Step(Run(s, []), a);
  }

  /** Start-up re-arms a stored deadline as it is, also one in the past. Exactly when the server
      is back within the grace time does the prompt timer keep autoplay going; otherwise the
      job is dropped, and no play is dispatched again -- not even after further restarts --
      until an administrator or a manual play intervenes. */
  lemma RestartKeepsAutoplayIff(s: State, d: int)
    requires Sound(s) && s.config.enabled && s.config.nextRun == Some(d)
    ensures var t := Run(s, [Restart, Advance(if d <= s.now then 0 else d - s.now), Fire]);
            && (Armed(t) <==> s.now <= d + 30)
            && (Playing(s) != [] ==> (|t.dispatched| == |s.dispatched| + 1 <==> s.now <= d + 30))
  {
    var wait := if d <= s.now then 0 else d - s.now;
    RunThree(s, Restart, Advance(wait), Fire);
    var u := Step(Step(s, Restart), Advance(wait));
    assert u.lock.None? && u.ticks == map[] && Due(u);
    assert Playing(u) == Playing(s);
    assert Misfires(u) <==> s.now > d + 30;
    if !Misfires(u) && Playing(u) != [] {
      assert u.nextTick in BeginTick(u.(job := None)).ticks;
    }
  }

  lemma LateRestartStops(s: State, d: int, es: seq<Event>)
    requires Sound(s) && s.config.enabled && s.config.nextRun == Some(d) && s.now > d + 30
    requires forall i :: 0 <= i < |es| ==> !Intervenes(es[i]) || es[i].Restart?
    ensures Run(Step(s, Restart), es).dispatched == s.dispatched
  {
    OverdueForGood(Step(s, Restart), es, d);
  }

  // ----- Stopping -----

  /** Off, with nothing armed. */
  predicate Off(s: State) {
    !s.config.enabled && s.config.nextRun.None? && s.job.None?
  }

  lemma StaysOff(s: State, e: Event)
    requires Off(s) && !e.Update? && !e.Start?
    ensures var t := Step(s, e);
            && Off(t) && t.dispatched == s.dispatched && t.completed == s.completed
            && t.config.index == s.config.index
  {
  }

  /** Stopping stops: after it, whatever manual plays, fires, ticks coming back, restarts and changes
      of spots follow, autoplay is off, nothing is dispatched, no tick is logged and the index
      stands, until an administrator starts it or updates the configuration. */
  lemma {:induction false} StopStops(s: State, es: seq<Event>)
    requires forall i :: 0 <= i < |es| ==> !es[i].Update? && !es[i].Start?
    ensures var t := Run(Step(s, Stop), es);
            && !t.config.enabled && t.config.nextRun.None? && t.job.None?
            && t.dispatched == s.dispatched && t.completed == s.completed && t.config.index == s.config.index
  {
    if es != [] {
      var before := es[..|es| - 1];
      assert forall i :: 0 <= i < |before| ==> before[i] == es[i];
      StopStops(s, before);
      StaysOff(Run(Step(s, Stop), before), es[|es| - 1]);
    }
  }

  /** On from the moment of a start, or of an accepted update that says so, until a stop or an update
      that says otherwise. */
  lemma {:induction false} OnUntilStopped(s: State, e: Event, es: seq<Event>)
    requires e.Start? || (e.Update? && Accepts(s, e.update) && e.update.enabled)
    requires forall i :: 0 <= i < |es| ==> !es[i].Update? && !es[i].Stop?
    ensures Run(Step(s, e), es).config.enabled
  {
    if es != [] {
      var before := es[..|es| - 1];
      assert forall i :: 0 <= i < |before| ==> before[i] == es[i];
      OnUntilStopped(s, e, before);
    }
  }

  // ----- Spacing -----

  /** No step can make anything fire before d: not the armed job, and not a re-arming. */
  predicate NotBefore(s: State, d: int) {
    && (s.config.nextRun.Some? ==> s.config.nextRun.value >= d)
    && (s.job.Some? ==> s.job.value >= d)
    && Deadline(s) >= d
  }

  predicate PlaysFrom(s: State, t: State, d: int) {
    && |s.dispatched| <= |t.dispatched|
    && (forall i :: |s.dispatched| <= i < |t.dispatched| ==> t.dispatched[i].began >= d)
  }

  lemma NoPlayStep(s: State, e: Event, d: int)
    requires NotBefore(s, d) && !e.Update? && !e.Start?
    ensures NotBefore(Step(s, e), d)
    ensures Step(s, e).dispatched == s.dispatched
         || (|Step(s, e).dispatched| == |s.dispatched| + 1 && Step(s, e).dispatched[..|s.dispatched|] == s.dispatched
             && Step(s, e).dispatched[|s.dispatched|].began >= d)
  {
  }

  /** After the timer has been set to d, no play is dispatched before d, whatever else happens --
      ticks in flight coming back, competing fires, further resets, stops, restarts -- unless
      an administrator updates the configuration or starts autoplay again. */
  lemma {:induction false} NoPlayBefore(s: State, es: seq<Event>, d: int)
    requires NotBefore(s, d)
    requires forall i :: 0 <= i < |es| ==> !es[i].Update? && !es[i].Start?
    ensures NotBefore(Run(s, es), d) && PlaysFrom(s, Run(s, es), d)
  {
    if es != [] {
      NoPlayBefore(s, es[..|es| - 1], d);
      var t, e := Run(s, es[..|es| - 1]), es[|es| - 1];
      NoPlayStep(t, e, d);
    }
  }

  /** The events that set the timer from the present time: a manual play, a start, an update that
      leaves autoplay on, the end of a tick, and a tick that finds nothing to play. */
  predicate ArmsAfresh(s: State, e: Event) {
    match e
    case Update(u) => Accepts(s, u) && u.enabled
    case Start => true
    case Reset => s.config.enabled
    case Finish(id) => Underway(s, id) && s.config.enabled
    case Fire => Due(s) && !Misfires(s) && s.lock.None? && s.config.enabled && Playing(s) == []
    case _ => false
  }

  /** Whichever of them it was, autoplay then waits one whole interval, the one in force at that
      moment, unless an administrator sets the timer again. */
  lemma ArmingSpacing(s: State, e: Event, es: seq<Event>)
    requires ArmsAfresh(s, e)
    requires forall i :: 0 <= i < |es| ==> !es[i].Update? && !es[i].Start?
    ensures var t := Step(s, e);
            t.dispatched == s.dispatched && t.job == Some(s.now + 60 * t.config.interval)
            && PlaysFrom(t, Run(t, es), s.now + 60 * t.config.interval)
  {
    NoPlayBefore(Step(s, e), es, Deadline(Step(s, e)));
  }

  // ----- Round robin -----

  /** At every point of the run n spots are active, not necessarily the same ones. */
  predicate Steady(s: State, es: seq<Event>, n: nat) {
    |Playing(Run(s, es))| == n && (es == [] || Steady(s, es[..|es| - 1], n))
  }

  /** A tick in flight plays the position the stored index stands for. */
  predicate InStep(s: State, n: nat)
    requires n > 0
  {
    forall id :: id in s.ticks ==> s.ticks[id].position == s.config.index % n
  }

  lemma IndexAdvances(index: int, turn: int, n: int)
    requires n > 0 && index % n == turn % n
    ensures (index + 1) % n % n == (turn + 1) % n
  {
    CongruentIff(index, turn, n);
    CongruentIff(index + 1, turn + 1, n);
    RemainderMod(0, n, (index + 1) % n);
  }

  /** Those completed after s are in turn. */
  ghost predicate PlaysInTurn(s: State, t: State, n: nat)
    requires n > 0
  {
    && |s.completed| <= |t.completed|
    && (forall j :: |s.completed| <= j < |t.completed| ==>
          t.completed[j].position == (s.config.index + (j - |s.completed|)) % n)
  }

  lemma FinishInStep(u: State, id: nat, n: nat, i: int, k: int)
    requires n > 0 && InStep(u, n) && |Playing(u)| == n
    requires id in u.ticks && u.config.enabled
    requires u.config.index % n == (i + k) % n
    ensures var t := FinishTick(u, id);
            && t.config.index % n == (i + k + 1) % n
            && t.completed == u.completed + [u.ticks[id]] && u.ticks[id].position == (i + k) % n
  {
    IndexAdvances(u.config.index, i + k, n);
  }

  lemma BeginInStep(u: State, n: nat)
    requires n > 0 && InStep(u, n) && |Playing(u)| == n
    ensures var t := BeginTick(u);
            InStep(t, n) && t.config.index == u.config.index && t.completed == u.completed
  {
  }

  /** Either nothing was completed, or one more tick was: the one in turn. */
  predicate InTurn(u: State, t: State, n: nat, i: int, k: int)
    requires n > 0
  {
    || (t.completed == u.completed && t.config.index % n == (i + k) % n)
    || (&& |t.completed| == |u.completed| + 1 && t.completed[..|u.completed|] == u.completed
        && t.completed[|u.completed|].position == (i + k) % n
        && t.config.index % n == (i + k + 1) % n)
  }

  lemma RoundRobinStep(u: State, e: Event, n: nat, i: int, k: int)
    requires n > 0 && InStep(u, n) && |Playing(u)| == n && OneTick(u)
    requires u.config.index % n == (i + k) % n
    ensures InStep(Step(u, e), n) && InTurn(u, Step(u, e), n, i, k)
  {
    match e
    case Finish(id) =>
      if Underway(u, id) {
        UnlockLeavesNothing(u, id);
        if u.config.enabled { FinishInStep(u, id, n, i, k); }
      }
    case Fire => if Due(u) && !Misfires(u) { BeginInStep(u.(job := None), n); }
    case _ =>
  }

  predicate IndexInTurn(s: State, t: State, n: nat)
    requires n > 0
  {
    t.config.index % n == (s.config.index + (|t.completed| - |s.completed|)) % n
  }

  lemma PlaysOn(s: State, u: State, t: State, n: nat)
    requires n > 0 && PlaysInTurn(s, u, n)
    requires InTurn(u, t, n, s.config.index, |u.completed| - |s.completed|)
    ensures PlaysInTurn(s, t, n) && IndexInTurn(s, t, n)
  {
    assert forall j :: 0 <= j < |u.completed| ==> t.completed[..|u.completed|][j] == t.completed[j];
  }

  /** While n spots are active -- whichever they are at each moment -- the j-th completed tick
      plays position (i + j) mod n, whatever index i the row started with, however often autoplay
      is reconfigured, stopped, started, reset or restarted. */
  lemma {:induction false} RoundRobin(s: State, es: seq<Event>, n: nat)
    requires n > 0 && Steady(s, es, n) && InStep(s, n) && Sound(s)
    ensures InStep(Run(s, es), n) && PlaysInTurn(s, Run(s, es), n) && IndexInTurn(s, Run(s, es), n)
  {
    if es != [] {
      var before, e := es[..|es| - 1], es[|es| - 1];
      RoundRobin(s, before, n);
      RunIsSound(s, before);
      var u := Run(s, before);
      assert |Playing(u)| == n;
      RoundRobinStep(u, e, n, s.config.index, |u.completed| - |s.completed|);
      PlaysOn(s, u, Step(u, e), n);
    }
  }

  // ----- Which spots those are -----

  predicate Unchanged(s: State, es: seq<Event>, spots: seq<SpotId>) {
    Playing(Run(s, es)) == spots && (es == [] || Unchanged(s, es[..|es| - 1], spots))
  }

  predicate Plays(t: Tick, spots: seq<SpotId>) {
    0 <= t.position < |spots| && t.spot == spots[t.position]
  }

  /** The ticks in flight and those completed after the first k play what stands at their position. */
  ghost predicate PlaysSpots(s: State, k: nat, spots: seq<SpotId>) {
    && (forall id :: id in s.ticks ==> Plays(s.ticks[id], spots))
    && (forall j :: k <= j < |s.completed| ==> Plays(s.completed[j], spots))
  }

  lemma StepPlaysSpots(s: State, e: Event, k: nat, spots: seq<SpotId>)
    requires PlaysSpots(s, k, spots) && Playing(s) == spots
    ensures PlaysSpots(Step(s, e), k, spots)
  {
  }

  lemma {:induction false} RunPlaysSpots(s: State, es: seq<Event>, spots: seq<SpotId>)
    requires PlaysSpots(s, |s.completed|, spots) && Unchanged(s, es, spots)
    ensures PlaysSpots(Run(s, es), |s.completed|, spots) && Steady(s, es, |spots|)
  {
    if es != [] {
      var before := es[..|es| - 1];
      RunPlaysSpots(s, before, spots);
      assert Playing(Run(s, before)) == spots;
      StepPlaysSpots(Run(s, before), es[|es| - 1], |s.completed|, spots);
    }
  }

  /** With the very same spots active throughout, the j-th completed tick plays the spot at
      (i + j) mod n. */
  lemma RoundRobinOfSpots(s: State, es: seq<Event>, spots: seq<SpotId>, j: nat)
    requires spots != [] && Unchanged(s, es, spots) && Sound(s)
    requires InStep(s, |spots|) && PlaysSpots(s, |s.completed|, spots)
    requires |s.completed| <= j < |Run(s, es).completed|
    ensures Run(s, es).completed[j].spot == spots[(s.config.index + (j - |s.completed|)) % |spots|]
  {
    RunPlaysSpots(s, es, spots);
    RoundRobin(s, es, |spots|);
    assert Plays(Run(s, es).completed[j], spots);
  }
}
