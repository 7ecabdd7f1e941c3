/** The autoplay scheduler's service object: every method does one step of the state machine. */
module Autoplay {
  import opened Wrappers
  import opened Scheduler
  import opened SchedulerRuns
  import opened SchedulerLaws

  class SchedulerService {
    var now: int
    var config: Config
    var job: Option<int>
    var lock: Option<nat>
    var ticks: map<nat, Tick>
    var passed: set<nat>
    var nextTick: nat
    var known: set<SpotId>
    var active: set<SpotId>
    var dispatched: seq<Tick>
    var completed: seq<Tick>

    function Contents(): State
      reads this
    {
      State(now, config, job, lock, ticks, passed, nextTick, known, active, dispatched, completed)
    }

    ghost predicate Valid()
      reads this
    {
      Sound(Contents())
    }

    constructor (now: int, interval: int)
      ensures Valid() && Contents() == Fresh(now, interval)
    {
      this.now := now;
      config := Config(false, interval, 0, 0, [], None, None);
      job, lock, ticks, passed, nextTick := None, None, map[], {}, 0;
      known, active, dispatched, completed := {}, {}, [], [];
      new;
      FreshIsSound(now, interval);
    }

    method ScheduleNextRun(at: int)
      modifies `job
      ensures job == Some(at)
    {
      job := Some(at);
    }

    method RemoveAutoplayJob()
      modifies `job
      ensures job == None
    {
      job := None;
    }

    method Initialize()
      requires Valid()
      modifies this
      ensures Valid() && Contents() == Step(old(Contents()), Restart)
      ensures Restarted(old(Contents()), Contents())
    {
      StepIsSound(Contents(), Restart);
      RestartMeans(Contents());
      job, lock, ticks, passed := None, None, map[], {};
      if config.enabled {
        var at := if config.nextRun.Some? then config.nextRun.value else now + 60 * config.interval;
        config := config.(nextRun := Some(at));
        ScheduleNextRun(at);
      }
    }

    method UpdateConfig(u: ConfigUpdate) returns (r: Result<Config, string>)
      requires Valid()
      modifies this
      ensures Valid() && Contents() == Step(old(Contents()), Update(u))
      ensures r.Ok? <==> (u.expected.None? || u.expected.value == old(config).revision)
                         && forall x :: x in u.sequence ==> x in known
      ensures r.Ok? ==> r.value == config
      ensures r.Ok? ==> Reconfigured(old(Contents()), Contents(), u)
      ensures r.Err? ==> Contents() == old(Contents())
    {
      StepIsSound(Contents(), Update(u));
      if Accepts(Contents(), u) { UpdateMeans(Contents(), u); }
      if u.expected.Some? && u.expected.value != config.revision {
        return Err("Scheduler config revision mismatch");
      }
      if FindMissing(u.sequence, known) != [] {
        return Err("Unknown spot IDs");
      }
      Adopt(u);
      r := Ok(config);
    }

    /** The new settings, and the timer armed or removed to match. */
    method Adopt(u: ConfigUpdate)
      modifies `config, `job
      ensures Contents() == Updated(old(Contents()), u)
    {
      config := config.(interval := u.interval, sequence := u.sequence, enabled := u.enabled,
                        revision := config.revision + 1);
      config := config.(nextRun := if config.enabled then Some(now + 60 * config.interval) else None);
      if config.enabled && config.nextRun.Some? {
        ScheduleNextRun(config.nextRun.value);
      } else {
        RemoveAutoplayJob();
      }
    }

    method StartAutoplay()
      requires Valid()
      modifies this
      ensures Valid() && Contents() == Step(old(Contents()), Start)
      ensures config == old(config).(enabled := true, nextRun := Some(now + 60 * old(config).interval))
      ensures job == config.nextRun && lock == old(lock) && ticks == old(ticks) && passed == old(passed)
    {
      StepIsSound(Contents(), Start);
      config := config.(enabled := true, nextRun := Some(now + 60 * config.interval));
      ScheduleNextRun(config.nextRun.value);
    }

    method StopAutoplay()
      requires Valid()
      modifies this
      ensures Valid() && Contents() == Step(old(Contents()), Stop)
      ensures !config.enabled && config.nextRun.None? && job.None?
      ensures config.interval == old(config).interval && config.sequence == old(config).sequence
      ensures config.index == old(config).index && config.revision == old(config).revision
      ensures config.lastTriggered == old(config).lastTriggered
      ensures lock == old(lock) && ticks == old(ticks) && passed == old(passed)
    {
      StepIsSound(Contents(), Stop);
      config := config.(enabled := false, nextRun := None);
      RemoveAutoplayJob();
    }

    method ResetAfterManualPlay()
      requires Valid()
      modifies this
      ensures Valid() && Contents() == Step(old(Contents()), Reset)
      ensures config.enabled ==>
        config == old(config).(nextRun := Some(now + 60 * old(config).interval)) && job == config.nextRun
      ensures !config.enabled ==> config == old(config) && job == old(job)
      ensures lock == old(lock) && ticks == old(ticks) && passed == old(passed)
    {
      StepIsSound(Contents(), Reset);
      if !config.enabled {
        return;
      }
      config := config.(nextRun := Some(now + 60 * config.interval));
      ScheduleNextRun(config.nextRun.value);
    }

    /** The tick up to the look-up of its dispatch; None when it returns before that. */
    method Begin() returns (tick: Option<nat>)
      requires Valid()
      modifies this
      ensures Valid() && Contents() == BeginTick(old(Contents()))
      ensures tick == if nextTick == old(nextTick) then None else Some(old(nextTick))
      ensures tick.Some? ==> Chosen(Contents(), tick.value)
      ensures tick.Some? <==> Ready(old(Contents()))
      ensures Began(old(Contents()), Contents())
    {
      BeginIsSound(Contents());
      BeginMeans(Contents());
      if lock.Some? || !config.enabled {
        return None;
      }
      var spots := ActiveSequence(config.sequence, active);
      if spots == [] {
        config := config.(nextRun := Some(now + 60 * config.interval));
        ScheduleNextRun(config.nextRun.value);
        return None;
      }
      var current := config.index % |spots|;
      var t := Tick(nextTick, current, spots[current], now);
      tick := Some(nextTick);
      lock, ticks, dispatched := tick, ticks[nextTick := t], dispatched + [t];
      nextTick := nextTick + 1;
    }

    method ReleaseLock(id: nat)
      modifies `lock, `ticks, `passed
      ensures lock == None && ticks == old(ticks) - {id} && passed == old(passed) - {id}
    {
      lock, ticks, passed := None, ticks - {id}, passed - {id};
    }

    /** The dispatch looks up the spot, and raises if it is not active any more. */
    method LookUp(id: nat) returns (raised: bool)
      requires Valid() && Chosen(Contents(), id)
      modifies `lock, `ticks, `passed
      ensures Valid() && Contents() == Step(old(Contents()), Check(id))
      ensures raised <==> ticks != old(ticks)
      ensures raised <==> old(ticks)[id].spot !in active
      ensures raised ==> lock.None? && ticks == old(ticks) - {id}
      ensures !raised ==> lock == old(lock) && Underway(Contents(), id)
    {
      StepIsSound(Contents(), Check(id));
      raised := ticks[id].spot !in active;
      if raised {
        ReleaseLock(id);
      } else {
        passed := passed + {id};
      }
    }

    /** The tick after its dispatch has returned. */
    method Complete(id: nat)
      requires Valid() && Underway(Contents(), id)
      modifies this
      ensures Valid() && Contents() == Step(old(Contents()), Finish(id))
      ensures Completed(old(Contents()), Contents(), id)
    {
      StepIsSound(Contents(), Finish(id));
      FinishMeans(Contents(), id);
      var t := ticks[id];
      ReleaseLock(id);
      if config.enabled {
        Advance(t);
      }
    }

    /** The next position, the log entry, and the timer armed again. */
    method Advance(t: Tick)
      modifies `config, `job, `completed
      ensures Contents() == Advanced(old(Contents()), t)
    {
      var spots := ActiveSequence(config.sequence, active);
      if spots != [] {
        config := config.(index := (config.index + 1) % |spots|);
      }
      config := config.(lastTriggered := Some(now), nextRun := Some(now + 60 * config.interval));
      completed := completed + [t];
      ScheduleNextRun(config.nextRun.value);
    }

    /** The timer looks at its job. */
    method FireJob()
      requires Valid()
      modifies this
      ensures Valid() && Contents() == Step(old(Contents()), Fire)
    {
      StepIsSound(Contents(), Fire);
      if job.Some? && job.value <= now {
        var late := now - job.value > MISFIRE_GRACE;
        UnarmedIsSound(Contents());
        RemoveAutoplayJob();
        if !late { var _ := Begin(); }
      }
    }

    /** One action of anything else on the server. */
    method Interleave(e: Event)
      requires Valid()
      modifies this
      ensures Valid() && Contents() == Step(old(Contents()), e)
    {
      StepIsSound(Contents(), e);
      match e
      case Advance(seconds) => now := now + seconds;
      case Update(u) => var _ := UpdateConfig(u);
      case Start => StartAutoplay();
      case Stop => StopAutoplay();
      case Reset => ResetAfterManualPlay();
      case SetSpots(k, a) => known, active := k, a * k;
      case Fire => FireJob();
      case Check(id) => if id in ticks && id !in passed { var _ := LookUp(id); }
      case Finish(id) => if id in ticks && id in passed { Complete(id); }
      case Restart => Initialize();
    }

    /** What happens while tick `id` waits: anything but a restart, and nothing that moves this tick. */
    method Pass(during: seq<Event>, id: nat)
      requires Valid() && id in ticks
      requires forall i :: 0 <= i < |during| ==> Leaves(during[i], id)
      modifies this
      ensures Valid() && Contents() == Run(old(Contents()), during)
      ensures id in ticks && ticks[id] == old(ticks)[id] && (id in passed <==> id in old(passed))
    {
      ghost var s := Contents();
      assert during[..0] == [];
      for i := 0 to |during|
        invariant Valid() && Contents() == Run(s, during[..i])
        invariant id in ticks && ticks[id] == s.ticks[id] && (id in passed <==> id in s.passed)
      {
        RunPrefix(s, during, i);
        LeavesTick(Contents(), during[i], id);
        Interleave(during[i]);
      }
      assert during[..|during|] == during;
    }

    /** A whole tick. Threads of the server may get between the choice of the spot and its look-up,
        and anything while the dispatch is awaited. */
    method AutoplayTick(between: seq<Event>, during: seq<Event>) returns (raised: bool)
      requires Valid()
      requires forall i :: 0 <= i < |between| ==> Leaves(between[i], nextTick)
      requires forall i :: 0 <= i < |during| ==> Leaves(during[i], nextTick)
      modifies this
      ensures Valid() && Contents() == Ticked(old(Contents()), between, during)
      ensures raised <==> RaisesIn(old(Contents()), between)
      ensures Began(old(Contents()), BeginTick(old(Contents())))
    {
      raised := false;
      BeginMeans(Contents());
      var tick := Begin();
      if tick.None? {
        return;
      }
      Pass(between, tick.value);
      raised := LookUp(tick.value);
      if !raised {
        Pass(during, tick.value);
        Complete(tick.value);
      }
    }
  }

  /** What a tick leaves behind, given what happens between its choice and its look-up, and while
      its dispatch is awaited. */
  function Ticked(s: State, between: seq<Event>, during: seq<Event>): State {
    var t, id := BeginTick(s), s.nextTick;
    if t.nextTick == id then t
    else
      var u := Step(Run(t, between), Check(id));
      if RaisesIn(s, between) then u else Step(Run(u, during), Finish(id))
  }

  /** A spot was chosen, and is not active when it is looked up. */
  predicate RaisesIn(s: State, between: seq<Event>) {
    var t, id := BeginTick(s), s.nextTick;
    id in t.ticks && t.nextTick != id && t.ticks[id].spot !in Run(t, between).active
  }

  lemma BeginIsSound(s: State)
    requires Sound(s)
    ensures Sound(BeginTick(s))
  {
    BeginKeepsLog(s);
  }

  lemma UnarmedIsSound(s: State)
    requires Sound(s)
    ensures Sound(s.(job := None))
  {
  }

  predicate Leaves(e: Event, id: nat) {
    !e.Restart? && (e.Check? || e.Finish? ==> e.id != id)
  }

  lemma LeavesTick(s: State, e: Event, id: nat)
    requires OneTick(s) && id in s.ticks && Leaves(e, id)
    ensures id in Step(s, e).ticks && Step(s, e).ticks[id] == s.ticks[id]
    ensures id in Step(s, e).passed <==> id in s.passed
  {
  }
}
