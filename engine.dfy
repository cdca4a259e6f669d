/** The simulation engine: entity sets that spawn entities one job at a
    time, entities that sample attributes and start their state machine,
    and states that schedule their transitions. The executor is modelled
    as an append-only queue of pending jobs, and the cancellation context
    as a `stopped` flag: once it is set, new jobs are dropped. */
module Engine {
  import opened Values
  import opened Cardinality
  import opened Timers
  import opened Sampling
  import opened Transitions
  import opened Config

  /** The closure a scheduled job runs. */
  datatype Task =
    | StartEntitySet(entitySet: EntitySet)
    | SpawnEntity(entitySet: EntitySet)
    | EnterState(state: State)
    | EvaluateTransitions(state: State)

  /** A job handed to the executor: its delay in nanoseconds and its task. */
  datatype Job = Job(delay: int, task: Task)

  function Max0(n: int): nat {
    if n < 0 then 0 else n
  }

  /** The counter after one createEntity step of a set of cardinality n. */
  function NextCount(created: int, n: int): int {
    if created >= n then created else created + 1
  }

  /** A step keeps the counter within [0, max(n, 0)], and it moves exactly
      when the counter is below the cardinality. */
  lemma NextCountBounded(created: int, n: int)
    requires 0 <= created <= Max0(n)
    ensures 0 <= NextCount(created, n) <= Max0(n)
    ensures NextCount(created, n) == created + 1 <==> created < n
    ensures NextCount(created, n) == created <==> created >= n
  {
  }

  /** The counter after k createEntity steps following create. */
  function CountAfter(k: nat, n: int): int {
    if k == 0 then 0 else NextCount(CountAfter(k - 1, n), n)
  }

  /** After k steps exactly min(k, max(n, 0)) entities exist: never more
      than the cardinality, and all of them once enough steps ran. */
  lemma {:induction false} CountAfterSteps(k: nat, n: int)
    ensures CountAfter(k, n) == if k < Max0(n) then k else Max0(n)
  {
    if k > 0 {
      CountAfterSteps(k - 1, n);
    }
  }

  class Simulation {
    const entities: map<string, EntityConfig>
    const states: map<string, StateConfig>
    const constants: Attributes
    var stopped: bool
    var jobs: seq<Job>

    /** New: one entity-set job per root entity set, each with its own
        copy of the global constants. */
    constructor (config: SimulationConfig)
      ensures entities == config.entities && states == config.states && constants == config.constants
      ensures !stopped
      ensures |jobs| == |config.rootEntities|
      ensures forall i :: 0 <= i < |jobs| ==>
        && jobs[i].delay == 0
        && jobs[i].task.StartEntitySet?
        && fresh(jobs[i].task.entitySet)
        && jobs[i].task.entitySet.config == config.rootEntities[i]
        && jobs[i].task.entitySet.attributes == config.constants
        && jobs[i].task.entitySet.Valid()
      ensures forall i, j :: 0 <= i < j < |jobs| ==> jobs[i].task.entitySet != jobs[j].task.entitySet
    {
      entities := config.entities;
      states := config.states;
      constants := config.constants;
      stopped := false;
      jobs := [];
      new;
      var i := 0;
      while i < |config.rootEntities|
        invariant 0 <= i <= |config.rootEntities|
        invariant !stopped && |jobs| == i
        invariant forall k :: 0 <= k < i ==>
          && jobs[k].delay == 0
          && jobs[k].task.StartEntitySet?
          && fresh(jobs[k].task.entitySet)
          && jobs[k].task.entitySet.config == config.rootEntities[k]
          && jobs[k].task.entitySet.attributes == config.constants
          && jobs[k].task.entitySet.Valid()
        invariant forall k, l :: 0 <= k < l < i ==> jobs[k].task.entitySet != jobs[l].task.entitySet
      {
        var bag := CopyAttributes(constants);
        var es := NewEntitySet(this, config.rootEntities[i], bag);
        i := i + 1;
      }
    }

    /** executor.addJob: a job is queued unless the simulation stopped. */
    method AddJob(delay: int, task: Task)
      modifies this`jobs
      ensures jobs == if stopped then old(jobs) else old(jobs) + [Job(delay, task)]
    {
      if !stopped {
        jobs := jobs + [Job(delay, task)];
      }
    }

    /** Simulation.error: any error cancels the whole simulation. */
    method Error()
      modifies this`stopped
      ensures stopped
    {
      stopped := true;
    }

    /** Simulation.Close: cancel, so that no further job is queued. */
    method Close()
      modifies this`stopped
      ensures stopped
    {
      stopped := true;
    }
  }

  /** newEntitySet: a new entity set over `attributes`, and a job that
      activates it. */
  method NewEntitySet(sim: Simulation, config: EntitySetConfig, attributes: Attributes)
    returns (es: EntitySet)
    modifies sim`jobs
    ensures fresh(es) && es.config == config && es.attributes == attributes && es.Valid()
    ensures sim.jobs == if sim.stopped then old(sim.jobs) else old(sim.jobs) + [Job(0, StartEntitySet(es))]
  {
    es := new EntitySet(config, attributes);
    sim.AddJob(0, StartEntitySet(es));
  }

  class EntitySet {
    const config: EntitySetConfig
    var attributes: Attributes
    var cfg: EntityConfig
    var numberOfEntities: int
    var numberOfCreatedEntities: int

    /** No more entities are created than the cardinality allows. */
    ghost predicate Valid()
      reads this
    {
      0 <= numberOfCreatedEntities <= Max0(numberOfEntities)
    }

    constructor (config: EntitySetConfig, attributes: Attributes)
      ensures this.config == config && this.attributes == attributes
      ensures numberOfEntities == 0 && numberOfCreatedEntities == 0
      ensures Valid()
    {
      this.config := config;
      this.attributes := attributes;
      cfg := NoEntity;
      numberOfEntities := 0;
      numberOfCreatedEntities := 0;
    }

    /** entitySet.create: look up the entity type, resolve the cardinality,
        reset the counter and schedule the first spawn. */
    method Create(sim: Simulation, timerDraw: int)
      requires Valid()
      requires config.entity in sim.entities && CardinalityValue(config.cardinality, attributes).Ok? ==>
        DrawFits(config.timer, timerDraw)
      modifies this`cfg, this`numberOfEntities, this`numberOfCreatedEntities, sim`stopped, sim`jobs
      ensures Valid()
      ensures config.entity !in sim.entities ==>
        && sim.stopped && sim.jobs == old(sim.jobs)
        && cfg == old(cfg) && numberOfEntities == old(numberOfEntities)
        && numberOfCreatedEntities == old(numberOfCreatedEntities)
      ensures config.entity in sim.entities ==> cfg == sim.entities[config.entity]
      ensures config.entity in sim.entities && CardinalityValue(config.cardinality, attributes).Err? ==>
        && sim.stopped && sim.jobs == old(sim.jobs)
        && numberOfEntities == old(numberOfEntities)
        && numberOfCreatedEntities == old(numberOfCreatedEntities)
      ensures config.entity in sim.entities && CardinalityValue(config.cardinality, attributes).Ok? ==>
        && numberOfEntities == CardinalityValue(config.cardinality, attributes).value
        && numberOfCreatedEntities == 0
        && sim.stopped == old(sim.stopped)
        && sim.jobs == if sim.stopped then old(sim.jobs)
                       else old(sim.jobs) + [Job(NewDelay(config.timer, timerDraw), SpawnEntity(this))]
    {
      if config.entity !in sim.entities {
        sim.Error();
        return;
      }
      cfg := sim.entities[config.entity];
      var c := CardinalityValue(config.cardinality, attributes);
      if c.Err? {
        sim.Error();
        return;
      }
      numberOfEntities := c.value;
      numberOfCreatedEntities := 0;
      sim.AddJob(NewDelay(config.timer, timerDraw), SpawnEntity(this));
    }

    /** entitySet.createEntity: one spawn step. Below the cardinality it
        counts one more entity, creates it from a copy of the set's bag and
        schedules exactly one further spawn; at the cardinality it does
        nothing at all. */
    method CreateEntity(sim: Simulation, draws: map<string, Draws>, timerDraw: int)
      requires Valid() && DrawsCover(cfg.attributes, draws)
      requires numberOfCreatedEntities < numberOfEntities ==> DrawFits(config.timer, timerDraw)
      modifies this`numberOfCreatedEntities, sim`stopped, sim`jobs
      ensures Valid()
      ensures numberOfCreatedEntities == NextCount(old(numberOfCreatedEntities), numberOfEntities)
      ensures old(numberOfCreatedEntities) >= numberOfEntities ==>
        sim.jobs == old(sim.jobs) && sim.stopped == old(sim.stopped)
      ensures old(numberOfCreatedEntities) < numberOfEntities ==>
        && |old(sim.jobs)| <= |sim.jobs| && sim.jobs[..|old(sim.jobs)|] == old(sim.jobs)
        && (!sim.stopped ==>
              |old(sim.jobs)| < |sim.jobs|
              && sim.jobs[|sim.jobs| - 1] == Job(NewDelay(config.timer, timerDraw), SpawnEntity(this)))
        && (forall i :: |old(sim.jobs)| <= i < |sim.jobs| - (if sim.stopped then 0 else 1) ==>
              || (sim.jobs[i].task.StartEntitySet? && fresh(sim.jobs[i].task.entitySet))
              || (sim.jobs[i].task.EnterState? && fresh(sim.jobs[i].task.state)))
        && EntityJobs(sim.states, sim.jobs[|old(sim.jobs)|..|sim.jobs| - (if sim.stopped then 0 else 1)],
                      old(sim.stopped), sim.stopped, cfg, attributes, draws)
    {
      if numberOfCreatedEntities >= numberOfEntities {
        return;
      }
      numberOfCreatedEntities := numberOfCreatedEntities + 1;
      Spawn(sim, draws, timerDraw);
    }

    /** The part of createEntity past the counter: one entity from a copy
        of the set's bag, then the job for the next spawn step. */
    method Spawn(sim: Simulation, draws: map<string, Draws>, timerDraw: int)
      requires DrawsCover(cfg.attributes, draws) && DrawFits(config.timer, timerDraw)
      modifies sim`stopped, sim`jobs
      ensures
        && |old(sim.jobs)| <= |sim.jobs| && sim.jobs[..|old(sim.jobs)|] == old(sim.jobs)
        && (!sim.stopped ==>
              |old(sim.jobs)| < |sim.jobs|
              && sim.jobs[|sim.jobs| - 1] == Job(NewDelay(config.timer, timerDraw), SpawnEntity(this)))
        && (forall i :: |old(sim.jobs)| <= i < |sim.jobs| - (if sim.stopped then 0 else 1) ==>
              || (sim.jobs[i].task.StartEntitySet? && fresh(sim.jobs[i].task.entitySet))
              || (sim.jobs[i].task.EnterState? && fresh(sim.jobs[i].task.state)))
        && EntityJobs(sim.states, sim.jobs[|old(sim.jobs)|..|sim.jobs| - (if sim.stopped then 0 else 1)],
                      old(sim.stopped), sim.stopped, cfg, attributes, draws)
    {
      var bag := CopyAttributes(attributes);
      assert bag == attributes;
      ghost var before := sim.jobs;
      CreateEntityFor(sim, cfg, bag, draws);
      ghost var entity := sim.jobs[|before|..];
      assert EntityJobs(sim.states, entity, old(sim.stopped), sim.stopped, cfg, attributes, draws);
      sim.AddJob(NewDelay(config.timer, timerDraw), SpawnEntity(this));
      assert sim.jobs[|before|..|sim.jobs| - (if sim.stopped then 0 else 1)] == entity;
    }
  }

  /** The jobs `added` are those of one entity of type `cfg` created over
      `bag`: none when the simulation was already stopped or a sampling
      error stopped it; otherwise one activation per subordinate entity set,
      in order, each over the sampled bag, followed by entry into the
      initial state with that bag when the state is known. An unknown
      initial state stops the simulation. */
  ghost predicate EntityJobs(states: map<string, StateConfig>, added: seq<Job>, wasStopped: bool, nowStopped: bool,
                             cfg: EntityConfig, bag: Attributes, draws: map<string, Draws>)
    requires DrawsCover(cfg.attributes, draws)
    reads set j | j in added && j.task.StartEntitySet? :: j.task.entitySet
    reads set j | j in added && j.task.EnterState? :: j.task.state
  {
    if wasStopped || AnySampleError(cfg.attributes, draws) then
      nowStopped && added == []
    else
      var subs := cfg.subordinates;
      var init := cfg.initialState;
      && (nowStopped <==> init != "" && init !in states)
      && exists sampled :: SampledFrom(cfg.attributes, draws, bag, sampled) && EntityLayout(states, added, cfg, sampled)
  }

  /** The jobs `added` of an entity of type `cfg` whose bag is `attrs`:
      one activation per subordinate entity set, in order, each a distinct
      set over that bag, followed by entry into the initial state with the
      same bag when the state is known. */
  ghost predicate EntityLayout(states: map<string, StateConfig>, added: seq<Job>, cfg: EntityConfig, attrs: Attributes)
    reads set j | j in added && j.task.StartEntitySet? :: j.task.entitySet
    reads set j | j in added && j.task.EnterState? :: j.task.state
  {
    var subs := cfg.subordinates;
    var init := cfg.initialState;
    && |added| == |subs| + (if init != "" && init in states then 1 else 0)
    && (forall j :: 0 <= j < |subs| ==>
          && added[j].delay == 0
          && added[j].task.StartEntitySet?
          && added[j].task.entitySet.config == subs[j]
          && added[j].task.entitySet.Valid()
          && added[j].task.entitySet.attributes == attrs)
    && (forall j, k :: 0 <= j < k < |subs| ==> added[j].task.entitySet != added[k].task.entitySet)
    && (init != "" && init in states ==>
          && added[|subs|].delay == 0
          && added[|subs|].task.EnterState?
          && added[|subs|].task.state.config == states[init]
          && added[|subs|].task.state.attributes == attrs)
  }

  /** createEntity: sample the entity's attributes into its bag, activate
      each subordinate entity set over that bag, and, when an initial state
      is configured, schedule entry into it with a copy of the bag. */
  method CreateEntityFor(sim: Simulation, cfg: EntityConfig, bag: Attributes, draws: map<string, Draws>)
    requires DrawsCover(cfg.attributes, draws)
    modifies sim`stopped, sim`jobs
    ensures |old(sim.jobs)| <= |sim.jobs| && sim.jobs[..|old(sim.jobs)|] == old(sim.jobs)
    ensures forall i :: |old(sim.jobs)| <= i < |sim.jobs| ==>
      || (sim.jobs[i].task.StartEntitySet? && fresh(sim.jobs[i].task.entitySet))
      || (sim.jobs[i].task.EnterState? && fresh(sim.jobs[i].task.state))
    ensures EntityJobs(sim.states, sim.jobs[|old(sim.jobs)|..], old(sim.stopped), sim.stopped, cfg, bag, draws)
  {
    var sampled := SampleAttributes(cfg.attributes, bag, draws);
    if sampled.Err? {
      sim.Error();
      return;
    }
    StartEntity(sim, cfg, sampled.value);
    assert SampledFrom(cfg.attributes, draws, bag, sampled.value);
  }

  /** The part of createEntity past sampling: activate each subordinate
      entity set over the entity's bag `attrs`, then enter the initial
      state, if any, with a copy of it. */
  method StartEntity(sim: Simulation, cfg: EntityConfig, attrs: Attributes)
    modifies sim`stopped, sim`jobs
    ensures |old(sim.jobs)| <= |sim.jobs| && sim.jobs[..|old(sim.jobs)|] == old(sim.jobs)
    ensures old(sim.stopped) ==> sim.stopped && sim.jobs == old(sim.jobs)
    ensures forall i :: |old(sim.jobs)| <= i < |sim.jobs| ==>
      || (sim.jobs[i].task.StartEntitySet? && fresh(sim.jobs[i].task.entitySet))
      || (sim.jobs[i].task.EnterState? && fresh(sim.jobs[i].task.state))
    ensures !old(sim.stopped) ==>
      && (sim.stopped <==> cfg.initialState != "" && cfg.initialState !in sim.states)
      && EntityLayout(sim.states, sim.jobs[|old(sim.jobs)|..], cfg, attrs)
  {
    ghost var stopped0 := sim.stopped;
    ghost var added: seq<Job> := [];
    var i := 0;
    while i < |cfg.subordinates|
      invariant 0 <= i <= |cfg.subordinates|
      invariant sim.stopped == stopped0
      invariant sim.jobs == old(sim.jobs) + added
      invariant |added| == (if stopped0 then 0 else i)
      invariant forall j :: 0 <= j < |added| ==>
        && added[j].delay == 0
        && added[j].task.StartEntitySet?
        && fresh(added[j].task.entitySet)
        && added[j].task.entitySet.config == cfg.subordinates[j]
        && added[j].task.entitySet.Valid()
        && added[j].task.entitySet.attributes == attrs
      invariant forall j, k :: 0 <= j < k < |added| ==> added[j].task.entitySet != added[k].task.entitySet
    {
      var es := NewEntitySet(sim, cfg.subordinates[i], attrs);
      if !sim.stopped {
        added := added + [Job(0, StartEntitySet(es))];
      }
      i := i + 1;
    }
    if cfg.initialState != "" {
      if cfg.initialState !in sim.states {
        sim.Error();
        assert sim.jobs[|old(sim.jobs)|..] == added;
        return;
      }
      var copy := CopyAttributes(attrs);
      var s := new State(sim.states[cfg.initialState], copy);
      sim.AddJob(0, EnterState(s));
      if !sim.stopped {
        added := added + [Job(0, EnterState(s))];
      }
    }
    assert sim.jobs[|old(sim.jobs)|..] == added;
  }

  class State {
    const config: StateConfig
    var attributes: Attributes

    constructor (config: StateConfig, attributes: Attributes)
      ensures this.config == config && this.attributes == attributes
    {
      this.config := config;
      this.attributes := attributes;
    }

    /** State.run: a state without transitions ends the actor's lifeline;
        otherwise one job evaluates the transitions after the dwell time. */
    method Run(sim: Simulation, timerDraw: int)
      requires |config.transitions| > 0 ==> DrawFits(config.timer, timerDraw)
      modifies sim`jobs
      ensures |config.transitions| == 0 ==> sim.jobs == old(sim.jobs)
      ensures |config.transitions| > 0 ==>
        sim.jobs == if sim.stopped then old(sim.jobs)
                    else old(sim.jobs) + [Job(NewDelay(config.timer, timerDraw), EvaluateTransitions(this))]
    {
      if |config.transitions| == 0 {
        return;
      }
      var delay := NewDelay(config.timer, timerDraw);
      sim.AddJob(delay, EvaluateTransitions(this));
    }

    /** State.generateAttributes: sample the state's attributes into its bag. */
    method GenerateAttributes(draws: map<string, Draws>) returns (ok: bool)
      requires DrawsCover(config.attributes, draws)
      modifies this`attributes
      ensures ok <==> !AnySampleError(config.attributes, draws)
      ensures ok ==> SampledFrom(config.attributes, draws, old(attributes), attributes)
      ensures !ok ==> attributes == old(attributes)
    {
      var r := SampleAttributes(config.attributes, attributes, draws);
      ok := r.Ok?;
      if ok {
        attributes := r.value;
      }
    }

    /** State.runTransition: sample the state's attributes, validate the
        weights, then take every transition at which the remainder
        sum*U - (weights so far) is no longer positive. */
    method RunTransition(sim: Simulation, draws: map<string, Draws>, u: real,
                         backend: (Call, Attributes) -> CallOutcome)
      requires DrawsCover(config.attributes, draws) && 0.0 <= u < 1.0
      modifies this`attributes, sim`stopped, sim`jobs
      ensures |old(sim.jobs)| <= |sim.jobs| && sim.jobs[..|old(sim.jobs)|] == old(sim.jobs)
      ensures AnySampleError(config.attributes, draws) ==> sim.stopped && sim.jobs == old(sim.jobs)
      ensures !AnySampleError(config.attributes, draws) ==>
        SampledFrom(config.attributes, draws, old(attributes), attributes)
      ensures !AnySampleError(config.attributes, draws) && !ValidWeights(config.transitions) ==>
        sim.stopped && sim.jobs == old(sim.jobs)
      ensures !AnySampleError(config.attributes, draws) && ValidWeights(config.transitions) ==>
        var ws := Weights(config.transitions);
        var c := Crossing(ws, Scale(Sum(ws), u));
        var m := FirstMissing(config.transitions, c, attributes, backend, sim.states);
        && c < |ws|
        && sim.stopped == (old(sim.stopped) || m < |ws|)
        && var added := sim.jobs[|old(sim.jobs)|..];
        && |added| == (if old(sim.stopped) then 0 else m - c)
        && Scheduled(added, config.transitions, c, attributes, backend, sim.states)
        && Carries(added, config.transitions, c, attributes, backend)
    {
      var ok := GenerateAttributes(draws);
      if !ok {
        sim.Error();
        return;
      }
      var valid := ValidateWeights(config.transitions);
      if valid.Err? {
        sim.Error();
        return;
      }
      CrossingExists(Weights(config.transitions), u);
      ScheduleTransitions(sim, Scale(valid.value, u), backend);
    }

    /** The selection loop of runTransition, once the weights are valid:
        `draw` is the uniform draw already scaled by the total weight. */
    method ScheduleTransitions(sim: Simulation, draw: real, backend: (Call, Attributes) -> CallOutcome)
      requires NonNegative(Weights(config.transitions))
      requires Crossing(Weights(config.transitions), draw) < |config.transitions|
      modifies sim`stopped, sim`jobs
      ensures |old(sim.jobs)| <= |sim.jobs| && sim.jobs[..|old(sim.jobs)|] == old(sim.jobs)
      ensures
        var c := Crossing(Weights(config.transitions), draw);
        var m := FirstMissing(config.transitions, c, attributes, backend, sim.states);
        && sim.stopped == (old(sim.stopped) || m < |config.transitions|)
        && var added := sim.jobs[|old(sim.jobs)|..];
        && |added| == (if old(sim.stopped) then 0 else m - c)
        && Scheduled(added, config.transitions, c, attributes, backend, sim.states)
        && Carries(added, config.transitions, c, attributes, backend)
    {
      var ts := config.transitions;
      ghost var ws := Weights(ts);
      ghost var c := Crossing(ws, draw);
      ghost var m := FirstMissing(ts, c, attributes, backend, sim.states);
      var remainder := draw;
      var i := 0;
      ghost var base := sim.jobs;
      ghost var added: seq<Job> := [];
      while i < |ts|
        invariant 0 <= i <= |ts|
        invariant remainder == draw - Sum(ws[..i])
        invariant sim.stopped == old(sim.stopped)
        invariant i > c ==> i <= m
        invariant sim.jobs == base + added
        invariant |added| == (if old(sim.stopped) || i <= c then 0 else i - c)
        invariant Scheduled(added, ts, c, attributes, backend, sim.states)
        invariant Carries(added, ts, c, attributes, backend)
      {
        remainder := remainder - ts[i].probability;
        assert remainder == draw - Sum(ws[..i + 1]) && (remainder <= 0.0 <==> c <= i) by {
          SumSnoc(ws, i);
          FiresIffPastCrossing(ws, draw, i);
        }
        if remainder <= 0.0 {
          var ok;
          ok, added := Take(sim, i, backend, c, base, added);
          if !ok {
            assert i == m;
            assert sim.jobs[|base|..] == added;
            return;
          }
        }
        i := i + 1;
      }
      assert m == |ts|;
      assert sim.jobs[|base|..] == added;
    }

    /** The selection loop as evidently intended: stop at the first
        transition whose cumulative weight exceeds the draw, so that exactly
        one transition is taken and never one of weight 0. */
    method ScheduleSelected(sim: Simulation, draw: real, backend: (Call, Attributes) -> CallOutcome)
      requires SelectFrom(Weights(config.transitions), draw, 0) < |config.transitions|
      modifies sim`stopped, sim`jobs
      ensures
        var k := SelectFrom(Weights(config.transitions), draw, 0);
        var dest := Destination(config.transitions[k], attributes, backend);
        && (dest.0 !in sim.states ==> sim.stopped && sim.jobs == old(sim.jobs))
        && (dest.0 in sim.states ==>
              && sim.stopped == old(sim.stopped)
              && |sim.jobs| == |old(sim.jobs)| + (if sim.stopped then 0 else 1)
              && sim.jobs[..|old(sim.jobs)|] == old(sim.jobs)
              && (!sim.stopped ==>
                    && Leads(sim.jobs[|old(sim.jobs)|], sim.states, dest)
                    && sim.jobs[|old(sim.jobs)|].task.state.attributes == dest.1))
    {
      var ts := config.transitions;
      ghost var ws := Weights(ts);
      ghost var k := SelectFrom(ws, draw, 0);
      var remainder := draw;
      var i := 0;
      while i < |ts|
        invariant 0 <= i <= k
        invariant remainder == draw - Sum(ws[..i])
        invariant sim.stopped == old(sim.stopped) && sim.jobs == old(sim.jobs)
      {
        remainder := remainder - ts[i].probability;
        assert remainder == draw - Sum(ws[..i + 1]) by {
          SumSnoc(ws, i);
        }
        assert i < k ==> Passed(ws, draw, i);
        if remainder < 0.0 {
          ghost var base := sim.jobs;
          var ok, added := Take(sim, i, backend, i, base, []);
          if ok && !sim.stopped {
            assert sim.jobs[|base|] == added[0];
          }
          return;
        }
        i := i + 1;
      }
      assert false;
    }

    /** One taken transition, the i-th: the destination state must exist;
        a copy of the bag the transition yields enters it immediately. The
        jobs `added` are those queued for transitions c .. i-1. */
    method Take(sim: Simulation, i: nat, backend: (Call, Attributes) -> CallOutcome,
                ghost c: nat, ghost base: seq<Job>, ghost added: seq<Job>)
      returns (ok: bool, ghost added': seq<Job>)
      requires i < |config.transitions| && c <= i
      requires sim.jobs == base + added && |added| == (if sim.stopped then 0 else i - c)
      requires Scheduled(added, config.transitions, c, attributes, backend, sim.states)
      requires Carries(added, config.transitions, c, attributes, backend)
      modifies sim`stopped, sim`jobs
      ensures var dest := Destination(config.transitions[i], attributes, backend);
        && (ok <==> dest.0 in sim.states)
        && (!ok ==> sim.stopped && sim.jobs == old(sim.jobs) && added' == added)
        && (ok ==> sim.stopped == old(sim.stopped)
                   && sim.jobs == base + added'
                   && |added'| == (if sim.stopped then 0 else i + 1 - c)
                   && Scheduled(added', config.transitions, c, attributes, backend, sim.states)
                   && Carries(added', config.transitions, c, attributes, backend))
      ensures forall j :: |old(sim.jobs)| <= j < |sim.jobs| ==>
        sim.jobs[j].task.EnterState? && fresh(sim.jobs[j].task.state)
    {
      var dest := Destination(config.transitions[i], attributes, backend);
      added' := added;
      if dest.0 !in sim.states {
        sim.Error();
        return false, added';
      }
      var copy := CopyAttributes(dest.1);
      var next := new State(sim.states[dest.0], copy);
      var job := Job(0, EnterState(next));
      sim.AddJob(0, EnterState(next));
      if !sim.stopped {
        ScheduledSnoc(added, job, config.transitions, c, attributes, backend, sim.states);
        CarriesSnoc(added, job, config.transitions, c, attributes, backend);
        added' := added + [job];
      }
      return true, added';
    }
  }

  /** The job enters, at once, the state a transition leads to. */
  predicate Leads(job: Job, states: map<string, StateConfig>, dest: (string, Attributes)) {
    && job.delay == 0
    && job.task.EnterState?
    && dest.0 in states
    && job.task.state.config == states[dest.0]
  }

  /** The jobs `added` enter, in order, the destinations of the transitions
      from index c on. */
  predicate Scheduled(added: seq<Job>, ts: seq<Transition>, c: nat, bag: Attributes,
                      backend: (Call, Attributes) -> CallOutcome, states: map<string, StateConfig>)
  {
    && c + |added| <= |ts|
    && forall k :: 0 <= k < |added| ==> Leads(added[k], states, Destination(ts[c + k], bag, backend))
  }

  /** Each state entered by the jobs `added` holds the bag its transition
      yields. */
  ghost predicate Carries(added: seq<Job>, ts: seq<Transition>, c: nat, bag: Attributes,
                          backend: (Call, Attributes) -> CallOutcome)
    reads set k | 0 <= k < |added| && added[k].task.EnterState? :: added[k].task.state
  {
    forall k :: 0 <= k < |added| && c + k < |ts| && added[k].task.EnterState? ==>
      added[k].task.state.attributes == Destination(ts[c + k], bag, backend).1
  }

  lemma ScheduledSnoc(added: seq<Job>, job: Job, ts: seq<Transition>, c: nat, bag: Attributes,
                      backend: (Call, Attributes) -> CallOutcome, states: map<string, StateConfig>)
    requires Scheduled(added, ts, c, bag, backend, states) && c + |added| < |ts|
    requires Leads(job, states, Destination(ts[c + |added|], bag, backend))
    ensures Scheduled(added + [job], ts, c, bag, backend, states)
  {
    assert forall k :: 0 <= k < |added| ==> (added + [job])[k] == added[k];
  }

  lemma CarriesSnoc(added: seq<Job>, job: Job, ts: seq<Transition>, c: nat, bag: Attributes,
                    backend: (Call, Attributes) -> CallOutcome)
    requires Carries(added, ts, c, bag, backend)
    requires job.task.EnterState? && c + |added| < |ts|
    requires job.task.state.attributes == Destination(ts[c + |added|], bag, backend).1
    ensures Carries(added + [job], ts, c, bag, backend)
  {
    assert forall k :: 0 <= k < |added| ==> (added + [job])[k] == added[k];
  }
}
