/**
 * The global bound on evaluation dispatches: a free slot runs a tick at once; otherwise the latest tick of each mint
 * waits, in the order the mints first had to wait.
 */
module EvaluationScheduler {
  import opened Prelude
  import opened OrderedMaps

  type Mint = nat
  /** The evaluation closure of one tick. */
  type Closure = nat

  datatype Job = Job(mint: Mint, run: Closure)

  datatype State = State(
    active: int, activeByMint: map<Mint, int>, pending: OrderedMap<Mint, Closure>, stopped: bool)

  /** A call leaves a new state and starts at most one dispatch. */
  datatype Effect = Effect(state: State, started: Option<Job>)

  const FRESH := State(0, map[], [], false)

  function ActiveFor(s: State, mint: Mint): int {
    if mint in s.activeByMint then s.activeByMint[mint] else 0
  }

  function Dispatch(s: State, job: Job): Effect {
    var tally := s.activeByMint[job.mint := ActiveFor(s, job.mint) + 1];
    Effect(s.(active := s.active + 1, activeByMint := tally), Some(job))
  }

  function RequestTick(max: int, s: State, job: Job): Effect {
    if s.stopped then Effect(s, None)
    else if s.active < max then Dispatch(s, job)
    else Effect(s.(pending := Set(s.pending, job.mint, job.run)), None)
  }

  function Forget(s: State, mint: Mint): State {
    s.(pending := Delete(s.pending, mint))
  }

  function Stop(s: State): State {
    s.(stopped := true, pending := [])
  }

  function PromoteNext(max: int, s: State): Effect {
    if s.stopped || s.active >= max || s.pending == [] then Effect(s, None)
    else
      var (mint, run) := s.pending[0];
      Dispatch(s.(pending := Delete(s.pending, mint)), Job(mint, run))
  }

  /** The end of a dispatch frees its slot and hands it to the mint that has waited longest. */
  function Complete(max: int, s: State, mint: Mint): Effect {
    var n := (if mint in s.activeByMint then s.activeByMint[mint] else 1) - 1;
    var tally := if n > 0 then s.activeByMint[mint := n] else s.activeByMint - {mint};
    PromoteNext(max, s.(active := s.active - 1, activeByMint := tally))
  }

  class EvaluationScheduler {
    const maxConcurrent: int
    var active: int
    var activeByMint: map<Mint, int>
    var pending: OrderedMap<Mint, Closure>
    var stopped: bool

    ghost function View(): State
      reads this
    {
      State(active, activeByMint, pending, stopped)
    }

    constructor (max: int)
      requires max > 0
      ensures maxConcurrent == max && View() == FRESH
    {
      maxConcurrent := max;
      active, activeByMint, pending, stopped := 0, map[], [], false;
    }

    method DispatchNow(mint: Mint, run: Closure) returns (started: Option<Job>)
      modifies this
      ensures Effect(View(), started) == Dispatch(old(View()), Job(mint, run))
    {
      active := active + 1;
      var n := 0;
      if mint in activeByMint {
        n := activeByMint[mint];
      }
      activeByMint := activeByMint[mint := n + 1];
      started := Some(Job(mint, run));
    }

    method Tick(mint: Mint, run: Closure) returns (started: Option<Job>)
      modifies this
      ensures Effect(View(), started) == RequestTick(maxConcurrent, old(View()), Job(mint, run))
    {
      started := None;
      if stopped {
        return;
      }
      if active < maxConcurrent {
        started := DispatchNow(mint, run);
        return;
      }
      pending := Set(pending, mint, run);
    }

    method ForgetMint(mint: Mint)
      modifies this
      ensures View() == Forget(old(View()), mint)
    {
      pending := Delete(pending, mint);
    }

    method StopAll()
      modifies this
      ensures View() == Stop(old(View()))
    {
      stopped := true;
      pending := [];
    }

    method Promote() returns (started: Option<Job>)
      modifies this
      ensures Effect(View(), started) == PromoteNext(maxConcurrent, old(View()))
    {
      started := None;
      if stopped || active >= maxConcurrent || |pending| == 0 {
        return;
      }
      var (mint, run) := pending[0];
      pending := Delete(pending, mint);
      started := DispatchNow(mint, run);
    }

    method Finished(mint: Mint) returns (started: Option<Job>)
      modifies this
      ensures Effect(View(), started) == Complete(maxConcurrent, old(View()), mint)
    {
      active := active - 1;
      var n := 0;
      if mint in activeByMint {
        n := activeByMint[mint] - 1;
      }
      if n > 0 {
        activeByMint := activeByMint[mint := n];
      } else {
        activeByMint := activeByMint - {mint};
      }
      started := Promote();
    }
  }

  // ---- runs --------------------------------------------------------------------------------------------------------

  /** The scheduler with the mints of the dispatches running now. */
  datatype World = World(state: State, running: multiset<Mint>)

  datatype Step = Ticks(mint: Mint, run: Closure) | Forgets(mint: Mint) | Stops | Completes(mint: Mint)

  const START := World(FRESH, multiset{})

  ghost predicate Enabled(w: World, step: Step) {
    step.Completes? ==> step.mint in w.running
  }

  ghost function EffectOf(max: int, s: State, step: Step): Effect {
    match step
    case Ticks(mint, run) => RequestTick(max, s, Job(mint, run))
    case Forgets(mint) => Effect(Forget(s, mint), None)
    case Stops => Effect(Stop(s), None)
    case Completes(mint) => Complete(max, s, mint)
  }

  ghost function Next(max: int, w: World, step: Step): World {
    var e := EffectOf(max, w.state, step);
    var left := if step.Completes? then w.running - multiset{step.mint} else w.running;
    World(e.state, if e.started.Some? then left + multiset{e.started.value.mint} else left)
  }

  ghost predicate Reachable(max: int, w: World, steps: seq<Step>, end: World)
    decreases |steps|
  {
    if steps == [] then end == w
    else Enabled(w, steps[0]) && Reachable(max, Next(max, w, steps[0]), steps[1..], end)
  }

  /** activeByMint tallies exactly the dispatches running. */
  ghost predicate Tallied(activeByMint: map<Mint, int>, running: multiset<Mint>) {
    forall m :: if m in activeByMint then activeByMint[m] == running[m] > 0 else running[m] == 0
  }

  ghost predicate Inv(max: int, w: World) {
    && w.state.active == |w.running| <= max
    && Tallied(w.state.activeByMint, w.running)
    && Unique(w.state.pending)
    && (w.state.pending != [] ==> !w.state.stopped && w.state.active == max)
  }

  lemma DispatchKeepsTally(s: State, running: multiset<Mint>, job: Job)
    requires Tallied(s.activeByMint, running) && s.active == |running|
    ensures var e := Dispatch(s, job);
      Tallied(e.state.activeByMint, running + multiset{job.mint}) && e.state.active == |running + multiset{job.mint}|
  {}

  lemma CompletionKeepsTally(activeByMint: map<Mint, int>, running: multiset<Mint>, mint: Mint)
    requires Tallied(activeByMint, running) && mint in running
    ensures mint in activeByMint
    ensures var n := activeByMint[mint] - 1;
      Tallied(if n > 0 then activeByMint[mint := n] else activeByMint - {mint}, running - multiset{mint})
  {}

  /** A completed dispatch leaves its slot free. */
  lemma FreedSlot(s: State, running: multiset<Mint>, mint: Mint) returns (freed: State)
    requires Tallied(s.activeByMint, running) && mint in running && s.active == |running|
    ensures freed == s.(active := s.active - 1, activeByMint := freed.activeByMint)
    ensures forall max :: Complete(max, s, mint) == PromoteNext(max, freed)
    ensures Tallied(freed.activeByMint, running - multiset{mint}) && freed.active == |running - multiset{mint}|
  {
    CompletionKeepsTally(s.activeByMint, running, mint);
    var n := s.activeByMint[mint] - 1;
    var tally := if n > 0 then s.activeByMint[mint := n] else s.activeByMint - {mint};
    freed := s.(active := s.active - 1, activeByMint := tally);
  }

  lemma CompletionKeeps(max: int, w: World, mint: Mint)
    requires max > 0 && Inv(max, w) && mint in w.running
    ensures Inv(max, Next(max, w, Completes(mint)))
  {
    var s := w.state;
    var left := w.running - multiset{mint};
    var freed := FreedSlot(s, w.running, mint);
    if s.pending != [] {
      var (m, run) := s.pending[0];
      assert IndexOf(s.pending, m) == 0 && Delete(s.pending, m) == s.pending[1..];
      DispatchKeepsTally(freed.(pending := s.pending[1..]), left, Job(m, run));
    }
  }

  lemma StepKeeps(max: int, w: World, step: Step)
    requires max > 0 && Inv(max, w) && Enabled(w, step)
    ensures Inv(max, Next(max, w, step))
  {
    match step
    case Ticks(mint, run) =>
      DispatchKeepsTally(w.state, w.running, Job(mint, run));
      GetAfterSet(w.state.pending, mint, run, mint);
    case Forgets(mint) => GetAfterDelete(w.state.pending, mint, mint);
    case Stops =>
    case Completes(mint) => CompletionKeeps(max, w, mint);
  }

  lemma {:induction false} RunKeeps(max: int, w: World, steps: seq<Step>, end: World)
    requires max > 0 && Inv(max, w) && Reachable(max, w, steps, end)
    ensures Inv(max, end)
    decreases |steps|
  {
    if steps != [] {
      StepKeeps(max, w, steps[0]);
      RunKeeps(max, Next(max, w, steps[0]), steps[1..], end);
    }
  }

  /**
   * At most max dispatches run and each is tallied under its mint; while the scheduler runs nothing waits unless every
   * slot is taken, so a free slot is never left idle.
   */
  lemma BoundedAndWorkConserving(max: int, steps: seq<Step>, end: World)
    requires max > 0 && Reachable(max, START, steps, end)
    ensures end.state.active == |end.running| <= max
    ensures forall m :: ActiveFor(end.state, m) == end.running[m]
    ensures end.state.pending != [] ==> end.state.active == max && !end.state.stopped
  {
    RunKeeps(max, START, steps, end);
  }

  ghost function Completions(steps: seq<Step>): nat
    decreases |steps|
  {
    if steps == [] then 0 else (if steps[0].Completes? then 1 else 0) + Completions(steps[1..])
  }

  /** The latest closure asked for a mint that waits with one already. */
  ghost function Latest(mint: Mint, run: Closure, steps: seq<Step>): Closure
    decreases |steps|
  {
    if steps == [] then run
    else Latest(mint, if steps[0].Ticks? && steps[0].mint == mint then steps[0].run else run, steps[1..])
  }

  /** The mint is neither forgotten nor is the scheduler stopped. */
  ghost predicate Wanted(mint: Mint, steps: seq<Step>) {
    forall i | 0 <= i < |steps| :: !steps[i].Stops? && steps[i] != Forgets(mint)
  }

  /** Where a waiting mint stands after a step that does not dispatch it: no further back, with its latest closure. */
  lemma WaiterMovesUp(max: int, w: World, step: Step, k: nat) returns (j: nat)
    requires max > 0 && Inv(max, w) && Enabled(w, step) && k < |w.state.pending|
    requires Wanted(w.state.pending[k].0, [step]) && !(step.Completes? && k == 0)
    ensures var after := Next(max, w, step).state; var (mint, run) := w.state.pending[k];
      j < |after.pending| && after.pending[j] == (mint, Latest(mint, run, [step]))
    ensures j + (if step.Completes? then 1 else 0) <= k
  {
    var pending := w.state.pending;
    var (mint, run) := pending[k];
    assert [step][0] == step;
    FoundAt(pending, k);
    match step
    case Ticks(m, _) => j := k;
    case Forgets(m) => j := ForgettingMovesUp(max, w, m, k);
    case Completes(m) => j := CompletingMovesUp(max, w, m, k);
  }

  lemma ForgettingMovesUp(max: int, w: World, m: Mint, k: nat) returns (j: nat)
    requires k < |w.state.pending| && w.state.pending[k].0 != m
    ensures j <= k && j < |Next(max, w, Forgets(m)).state.pending|
    ensures Next(max, w, Forgets(m)).state.pending[j] == w.state.pending[k]
  {
    j := if IndexOf(w.state.pending, m) < k then k - 1 else k;
  }

  lemma CompletingMovesUp(max: int, w: World, m: Mint, k: nat) returns (j: nat)
    requires max > 0 && Inv(max, w) && Enabled(w, Completes(m)) && 0 < k < |w.state.pending|
    ensures j == k - 1 && j < |Next(max, w, Completes(m)).state.pending|
    ensures Next(max, w, Completes(m)).state.pending[j] == w.state.pending[k]
  {
    j := k - 1;
    assert IndexOf(w.state.pending, w.state.pending[0].0) == 0;
  }

  /** Step number `at` comes after at most k completions and starts the mint with the latest closure asked for it. */
  ghost predicate StartsAt(
      max: int, w: World, steps: seq<Step>, at: nat, before: World, k: int, mint: Mint, run: Closure)
  {
    && at < |steps| && Reachable(max, w, steps[..at], before) && Completions(steps[..at]) <= k
    && EffectOf(max, before.state, steps[at]).started == Some(Job(mint, Latest(mint, run, steps[..at])))
  }

  lemma StillWanted(mint: Mint, steps: seq<Step>)
    requires steps != [] && Wanted(mint, steps)
    ensures Wanted(mint, [steps[0]]) && Wanted(mint, steps[1..])
  {}

  lemma HeadStartsFirst(max: int, w: World, steps: seq<Step>)
    requires Inv(max, w) && steps != [] && steps[0].Completes? && Enabled(w, steps[0]) && w.state.pending != []
    ensures StartsAt(max, w, steps, 0, w, 0, w.state.pending[0].0, w.state.pending[0].1)
  {
    assert steps[..0] == [];
    assert IndexOf(w.state.pending, w.state.pending[0].0) == 0;
  }

  lemma OneStepEarlier(
      max: int, w: World, steps: seq<Step>, at: nat, before: World, k: int, mint: Mint, run: Closure, now: Closure)
    requires steps != [] && Enabled(w, steps[0]) && now == Latest(mint, run, [steps[0]])
    requires StartsAt(max, Next(max, w, steps[0]), steps[1..], at, before, k, mint, now)
    ensures StartsAt(max, w, steps, at + 1, before, k + if steps[0].Completes? then 1 else 0, mint, run)
  {
    var first := steps[..at + 1];
    assert first[0] == steps[0] && first[1..] == steps[1..][..at];
    assert [steps[0]][1..] == [];
  }

  /**
   * A mint waiting at place k is dispatched by the (k+1)-th completion at the latest, with the latest closure asked for
   * it, however many other mints are asked for meanwhile.
   */
  lemma {:induction false} DispatchedInTurn(max: int, w: World, steps: seq<Step>, end: World, k: nat)
    returns (at: nat, before: World)
    requires max > 0 && Inv(max, w) && Reachable(max, w, steps, end)
    requires k < |w.state.pending| && Wanted(w.state.pending[k].0, steps) && Completions(steps) > k
    ensures StartsAt(max, w, steps, at, before, k, w.state.pending[k].0, w.state.pending[k].1)
    decreases |steps|
  {
    var step := steps[0];
    var (mint, run) := w.state.pending[k];
    if step.Completes? && k == 0 {
      HeadStartsFirst(max, w, steps);
      at, before := 0, w;
    } else {
      StillWanted(mint, steps);
      var j := WaiterMovesUp(max, w, step, k);
      StepKeeps(max, w, step);
      at, before := DispatchedInTurn(max, Next(max, w, step), steps[1..], end, j);
      OneStepEarlier(max, w, steps, at, before, j, mint, run, Latest(mint, run, [step]));
      at := at + 1;
    }
  }
}
