/**
 The autoplay scheduler as a state machine: one persisted configuration row, one re-armable
 one-shot timer job, and a tick that holds a lock across an awaited dispatch. Every event is
 what the server does between two awaits. Times are seconds; intervals are minutes.
 */
module Scheduler {
  import opened Wrappers

  type SpotId = string

  // A job that is noticed more than this many seconds late is dropped without running.
  const MISFIRE_GRACE := 30

  datatype Config = Config(
    enabled: bool,
    interval: int,
    index: int,
    revision: int,
    sequence: seq<SpotId>,
    lastTriggered: Option<int>,
    nextRun: Option<int>)

  datatype ConfigUpdate = ConfigUpdate(
    enabled: bool,
    interval: int,
    sequence: seq<SpotId>,
    expected: Option<int>)

  // A tick that has chosen a spot: which one, at which position of the active sequence, and when.
  datatype Tick = Tick(id: nat, position: nat, spot: SpotId, began: int)

  /** `passed` are the ticks whose dispatch has found its spot active; `dispatched` lists the plays
      handed to the playback service and `completed` the SCHEDULER_TICK entries of the event log;
      the rest is what the server keeps. */
  datatype State = State(
    now: int,
    config: Config,
    job: Option<int>,
    lock: Option<nat>,
    ticks: map<nat, Tick>,
    passed: set<nat>,
    nextTick: nat,
    known: set<SpotId>,
    active: set<SpotId>,
    dispatched: seq<Tick>,
    completed: seq<Tick>)

  datatype Event =
    | Advance(seconds: nat)
    | Update(update: ConfigUpdate)
    | Start
    | Stop
    | Reset                                        // after a manual play that some node started
    | SetSpots(known: set<SpotId>, active: set<SpotId>)
    | Fire                                         // the timer looks at its job
    | Check(id: nat)                               // a tick's dispatch looks up its spot
    | Finish(id: nat)                              // a tick's dispatch has returned
    | Restart

  // ----- Filters over the configured sequence -----

  /** The configured spots that are active, in their configured order, repeats included. */
  function ActiveSequence(configured: seq<SpotId>, active: set<SpotId>): (r: seq<SpotId>)
    ensures forall x :: x in r <==> x in configured && x in active
    ensures |r| <= |configured|
    ensures (forall x :: x in configured ==> x in active) ==> r == configured
  {
    if configured == [] then []
    else if configured[0] in active then [configured[0]] + ActiveSequence(configured[1..], active)
    else ActiveSequence(configured[1..], active)
  }

  /** How many of the first `to` configured entries are active. */
  function ActiveBefore(configured: seq<SpotId>, active: set<SpotId>, to: nat): nat
    requires to <= |configured|
  {
    if to == 0 then 0
    else (if configured[0] in active then 1 else 0) + ActiveBefore(configured[1..], active, to - 1)
  }

  ghost predicate Increasing(positions: seq<nat>) {
    forall i, j :: 0 <= i < j < |positions| ==> positions[i] < positions[j]
  }

  /** Position p is that of an active entry before which k active ones stand, and x is that entry. */
  predicate PointsTo(p: nat, x: SpotId, k: nat, configured: seq<SpotId>, active: set<SpotId>) {
    && p < |configured| && configured[p] in active && x == configured[p]
    && ActiveBefore(configured, active, p) == k
  }

  ghost predicate PointTo(positions: seq<nat>, r: seq<SpotId>, configured: seq<SpotId>, active: set<SpotId>) {
    |positions| == |r|
    && forall i :: 0 <= i < |positions| ==> PointsTo(positions[i], r[i], i, configured, active)
  }

  ghost predicate Cover(positions: seq<nat>, configured: seq<SpotId>, active: set<SpotId>) {
    forall p :: 0 <= p < |configured| && configured[p] in active ==> p in positions
  }

  /** These positions of the row are those of its active entries, in their order, and r lists them. */
  ghost predicate ListsActive(r: seq<SpotId>, configured: seq<SpotId>, active: set<SpotId>, positions: seq<nat>) {
    && Increasing(positions) && PointTo(positions, r, configured, active) && Cover(positions, configured, active)
    && ActiveBefore(configured, active, |configured|) == |r|
  }

  function Shifted(positions: seq<nat>): seq<nat> {
    seq(|positions|, (i: nat) requires i < |positions| => positions[i] + 1)
  }

  /** The positions in a row, given those in its tail. */
  function Extended(configured: seq<SpotId>, active: set<SpotId>, rest: seq<nat>): seq<nat>
    requires configured != []
  {
    if configured[0] in active then [0] + Shifted(rest) else Shifted(rest)
  }

  lemma PointsFurther(p: nat, x: SpotId, k: nat, configured: seq<SpotId>, active: set<SpotId>)
    requires configured != [] && PointsTo(p, x, k, configured[1..], active)
    ensures PointsTo(p + 1, x, k + (if configured[0] in active then 1 else 0), configured, active)
  {
  }

  lemma PointOneMore(configured: seq<SpotId>, active: set<SpotId>, rest: seq<nat>, r: seq<SpotId>)
    requires configured != [] && PointTo(rest, r, configured[1..], active)
    ensures PointTo(Extended(configured, active, rest),
                    if configured[0] in active then [configured[0]] + r else r, configured, active)
  {
    var positions := Extended(configured, active, rest);
    if configured[0] in active {
      forall i | 0 <= i < |positions| ensures PointsTo(positions[i], ([configured[0]] + r)[i], i, configured, active) {
        if i > 0 { PointsFurther(rest[i - 1], r[i - 1], i - 1, configured, active); }
      }
    } else {
      forall i | 0 <= i < |positions| ensures PointsTo(positions[i], r[i], i, configured, active) {
        PointsFurther(rest[i], r[i], i, configured, active);
      }
    }
  }

  lemma IncreasingOneMore(configured: seq<SpotId>, active: set<SpotId>, rest: seq<nat>)
    requires configured != [] && Increasing(rest)
    ensures Increasing(Extended(configured, active, rest))
  {
  }

  lemma {:induction false} ActiveBeforeCounts(configured: seq<SpotId>, active: set<SpotId>)
    ensures ActiveBefore(configured, active, |configured|) == |ActiveSequence(configured, active)|
  {
    if configured != [] { ActiveBeforeCounts(configured[1..], active); }
  }

  lemma CoverOneMore(configured: seq<SpotId>, active: set<SpotId>, rest: seq<nat>)
    requires configured != [] && Cover(rest, configured[1..], active)
    ensures Cover(Extended(configured, active, rest), configured, active)
  {
    var positions := Extended(configured, active, rest);
    forall p | 0 <= p < |configured| && configured[p] in active ensures p in positions {
      if p > 0 {
        assert configured[1..][p - 1] == configured[p];
        var i :| 0 <= i < |rest| && rest[i] == p - 1;
        assert positions[if configured[0] in active then i + 1 else i] == p;
      } else {
        assert positions[0] == 0;
      }
    }
  }

  /** The active sequence keeps the configured order, and every repeat. */
  lemma {:induction false} ActiveInOrder(configured: seq<SpotId>, active: set<SpotId>) returns (positions: seq<nat>)
    ensures ListsActive(ActiveSequence(configured, active), configured, active, positions)
  {
    ActiveBeforeCounts(configured, active);
    if configured == [] {
      positions := [];
    } else {
      var rest := ActiveInOrder(configured[1..], active);
      positions := Extended(configured, active, rest);
      PointOneMore(configured, active, rest, ActiveSequence(configured[1..], active));
      CoverOneMore(configured, active, rest);
      IncreasingOneMore(configured, active, rest);
    }
  }

  /** The active entry of the row that stands in turn at this index: before it stand as many active
      ones as the index leaves when divided by the number of them all. */
  predicate InTurnAt(configured: seq<SpotId>, active: set<SpotId>, index: int, p: nat) {
    && p < |configured| && configured[p] in active
    && ActiveBefore(configured, active, |configured|) > 0
    && ActiveBefore(configured, active, p) == index % ActiveBefore(configured, active, |configured|)
  }

  lemma SpotInTurn(configured: seq<SpotId>, active: set<SpotId>, index: int) returns (p: nat)
    requires ActiveSequence(configured, active) != []
    ensures InTurnAt(configured, active, index, p)
    ensures var r := ActiveSequence(configured, active); r[index % |r|] == configured[p]
  {
    var positions := ActiveInOrder(configured, active);
    var k := index % |ActiveSequence(configured, active)|;
    assert PointsTo(positions[k], ActiveSequence(configured, active)[k], k, configured, active);
    p := positions[k];
  }

  lemma {:induction false} ActiveBeforeGrows(configured: seq<SpotId>, active: set<SpotId>, p: nat, q: nat)
    requires p < q <= |configured| && configured[p] in active
    ensures ActiveBefore(configured, active, p) < ActiveBefore(configured, active, q)
  {
    if p > 0 { ActiveBeforeGrows(configured[1..], active, p - 1, q - 1); }
  }

  /** There is only one such entry. */
  lemma OneInTurn(configured: seq<SpotId>, active: set<SpotId>, index: int, p: nat, q: nat)
    requires InTurnAt(configured, active, index, p) && InTurnAt(configured, active, index, q)
    ensures p == q
  {
    if p < q { ActiveBeforeGrows(configured, active, p, q); }
    if q < p { ActiveBeforeGrows(configured, active, q, p); }
  }

  function FindMissing(configured: seq<SpotId>, known: set<SpotId>): (r: seq<SpotId>)
    ensures r == [] <==> forall x :: x in configured ==> x in known
    ensures forall x :: x in r <==> x in configured && x !in known
  {
    if configured == [] then []
    else if configured[0] !in known then [configured[0]] + FindMissing(configured[1..], known)
    else FindMissing(configured[1..], known)
  }

  function Playing(s: State): seq<SpotId> {
    ActiveSequence(s.config.sequence, s.active)
  }

  // ----- Steps -----

  function Deadline(s: State): int {
    s.now + 60 * s.config.interval
  }

  /** Writes the next deadline to the row and arms the job with it. */
  function Arm(s: State, at: int): State {
    s.(config := s.config.(nextRun := Some(at)), job := Some(at))
  }

  predicate Accepts(s: State, u: ConfigUpdate) {
    && (u.expected.Some? ==> u.expected.value == s.config.revision)
    && FindMissing(u.sequence, s.known) == []
  }

  function Updated(s: State, u: ConfigUpdate): State {
    var t := s.(config := s.config.(
                  interval := u.interval,
                  sequence := u.sequence,
                  enabled := u.enabled,
                  revision := s.config.revision + 1));
    if u.enabled then Arm(t, Deadline(t)) else t.(config := t.config.(nextRun := None), job := None)
  }

  predicate Due(s: State) {
    s.job.Some? && s.job.value <= s.now
  }

  predicate Misfires(s: State) {
    Due(s) && s.now - s.job.value > MISFIRE_GRACE
  }

  /** The tick up to its await: it gives way to a tick in flight, does nothing when autoplay is
      off, and only re-arms when nothing is active. */
  function BeginTick(s: State): State {
    if s.lock.Some? || !s.config.enabled then s
    else
      var spots := Playing(s);
      if spots == [] then Arm(s, Deadline(s))
      else
        var p := s.config.index % |spots|;
        var tick := Tick(s.nextTick, p, spots[p], s.now);
        s.(lock := Some(s.nextTick),
           ticks := s.ticks[s.nextTick := tick],
           nextTick := s.nextTick + 1,
           dispatched := s.dispatched + [tick])
  }

  function Unlock(s: State, id: nat): State {
    s.(lock := None, ticks := s.ticks - {id}, passed := s.passed - {id})
  }

  /** The tick has chosen its spot, and its dispatch has not looked it up yet. */
  predicate Chosen(s: State, id: nat) {
    id in s.ticks && id !in s.passed
  }

  /** The tick's dispatch is on its way. */
  predicate Underway(s: State, id: nat) {
    id in s.ticks && id in s.passed
  }

  /** The dispatch raises when the spot has been deactivated since it was chosen, and that ends
      the tick. */
  function CheckTick(s: State, id: nat): State
    requires Chosen(s, id)
  {
    if s.ticks[id].spot in s.active then s.(passed := s.passed + {id}) else Unlock(s, id)
  }

  /** A tick has played: the row moves on, and the timer is armed again. */
  function Advanced(s: State, tick: Tick): State {
    var spots := Playing(s);
    var index := if spots == [] then s.config.index else (s.config.index + 1) % |spots|;
    Arm(s.(config := s.config.(index := index, lastTriggered := Some(s.now)), completed := s.completed + [tick]),
        Deadline(s))
  }

  /** The tick after its await: the row is read again, and may have been stopped meanwhile. */
  function FinishTick(s: State, id: nat): State
    requires id in s.ticks
  {
    var t := Unlock(s, id); if t.config.enabled then Advanced(t, s.ticks[id]) else t
  }

  /** Start-up: jobs, locks and ticks are gone, the row is not. */
  function Initialized(s: State): State {
    var t := s.(job := None, lock := None, ticks := map[], passed := {});
    if !t.config.enabled then t
    else Arm(t, if t.config.nextRun.Some? then t.config.nextRun.value else Deadline(t))
  }

  function Step(s: State, e: Event): State {
    match e
    case Advance(seconds) => s.(now := s.now + seconds)
    case Update(u) => if Accepts(s, u) then Updated(s, u) else s
    case Start => Arm(s.(config := s.config.(enabled := true)), Deadline(s))
    case Stop => s.(config := s.config.(enabled := false, nextRun := None), job := None)
    case Reset => if s.config.enabled then Arm(s, Deadline(s)) else s
    case SetSpots(known, active) => s.(known := known, active := active * known)
    case Fire =>
      if !Due(s) then s
      else if Misfires(s) then s.(job := None)
      else BeginTick(s.(job := None))
    case Check(id) => if Chosen(s, id) then CheckTick(s, id) else s
    case Finish(id) => if Underway(s, id) then FinishTick(s, id) else s
    case Restart => Initialized(s)
  }

  function Run(s: State, es: seq<Event>): State {
    if es == [] then s else Step(Run(s, es[..|es| - 1]), es[|es| - 1])
  }

  /** A fresh installation. */
  function Fresh(now: int, interval: int): State {
    State(now, Config(false, interval, 0, 0, [], None, None), None, None, map[], {}, 0, {}, {}, [], [])
  }

  lemma RunPrefix(s: State, es: seq<Event>, i: nat)
    requires i < |es|
    ensures Run(s, es[..i + 1]) == Step(Run(s, es[..i]), es[i])
  {
    assert es[..i + 1][..i] == es[..i];
  }
}
