# Sisyphus simulation engine, modelled in Dafny

This project models the execution engine of the sisyphus load simulator
(`simulation/simulation.go`). The simulator unfolds a declarative model of
entities and states into a tree of simulated actors:

- An **entity set** resolves its cardinality. It then spawns its entities
  one delayed job at a time, and never more than the cardinality allows.
- An **entity** samples its attributes into a bag. It activates its
  subordinate entity sets over that bag, then enters its initial state.
- A **state** waits for its dwell timer, samples its own attributes and
  picks a transition by weight. A taken transition may make a call to a
  backend, and then enters the next state with a copy of the bag.

The model is arranged as follows:

- The delayed-job executor becomes an append-only queue `jobs` of
  `(delay, task)` pairs on the `Simulation` object.
- The shared cancellation context becomes a `stopped` flag. Any error
  sets it, and once it is set no new job is queued.
- Every random draw is an explicit input: the timer draws, the
  `rand.Float64` and `rand.NormFloat64` draws, the successive `rand.Intn`
  draws, the value of the power-law root, and the outcome of UUID
  generation.
- The call backend is a function parameter from a call and a bag to a
  new bag or a failure.
- Attribute values form a closed sum `Value` (int, real, string, list,
  map). Bags are `map<string, Value>`.

Modules:

- `Values`: values, bags, `Result`, `copyAttributes`.
- `Decimal`: `strconv.Atoi` and `%d` formatting on 64-bit integers.
- `Cardinality`: `cardinality.Value`.
- `Timers`: `newDelay`.
- `Sampling`: `AttributeDistribution.Sample` and the attribute-sampling
  loops.
- `Transitions`: weight validation, the crossing index, and a
  transition's destination.
- `Config`: the configuration records the engine reads.
- `Engine`: the classes `Simulation`, `EntitySet` and `State`.

Weights and the non-integer attribute distributions use Dafny's exact
`real` numbers.

## Model

| member | source | states |
|---|---|---|
| Values.CopyAttributes | simulation/simulation.go:383-389 | the copy has exactly the keys of the original, each with the same value |
| Decimal.Atoi | simulation/simulation.go:365-376 | the empty string and a string that neither starts with a sign nor is all digits are errors; every parsed value lies in the int64 range |
| Decimal.AtoiItoa | simulation/simulation.go:322 | every int64 printed with `%d` parses back with Atoi to the same number |
| Decimal.DigitsRoundTrip | simulation/simulation.go:322 | the decimal digits of a natural number denote that number |
| Cardinality.CardinalityValue | simulation/simulation.go:365-381 | an attribute of that name wins: an int gives itself, a string gives its Atoi reading, any other type is an error; with no such attribute the empty name gives 1 and any other name gives its own Atoi reading |
| Cardinality.LiteralCardinality | simulation/simulation.go:365-373 | a literal cardinality that no attribute shadows yields the number it spells |
| Cardinality.AttributeCardinality | simulation/simulation.go:374-377 | an attribute holding n as int or as decimal text yields n |
| Timers.NewDelay | simulation/simulation.go:348-359 | a fixed timer gives its interval; a random timer gives a delay in [min, max); no timer or an unknown timer type gives 0 |
| Timers.RandomDelayCovers | simulation/simulation.go:353-354 | each delay in [min, max) of a random timer comes from exactly one Int63n draw |
| Sampling.SampleOther | simulation/simulation.go:286-329 | it fails exactly on a UUID failure (random string) or an empty value list; constants and maps are returned as configured; a random value is a member of the list; normal samples are never negative; an unknown type gives int 0 |
| Sampling.RandomIntBounds | simulation/simulation.go:294-295 | a random int lies in [floor(min), max), and is floor(min) when min equals max |
| Sampling.UniformBounds | simulation/simulation.go:303-304 | a random float lies in [min, max), and is min when the range is empty |
| Sampling.RandomStringShape | simulation/simulation.go:313-324 | a random string is the UUID alone with no prefix; with a prefix it is the prefix followed by the sampled integer when a range is set, and by the UUID otherwise |
| Sampling.SubsetIndices | simulation/simulation.go:334-337 | the marked positions are all within the list, and there are fewer of them than list entries |
| Sampling.SampleSubset | simulation/simulation.go:334-342 | the result lists the value at each marked position exactly once, so it is shorter than the list |
| Sampling.Sample | simulation/simulation.go:286-346 | it fails exactly in the error cases and with their message; otherwise the value is one the distribution can yield for the draws; a subset is a list shorter than the value list |
| Sampling.SampleAttributes | simulation/simulation.go:151-162 | it fails exactly when some configured attribute fails to sample; otherwise the bag gains every configured key with a valid sample, and its other keys are unchanged |
| Transitions.ValidateWeights | simulation/simulation.go:226-239 | it accepts exactly when no weight is negative and the sum is nonzero, returning the positive sum; otherwise it gives the negative-weight or zero-sum error |
| Transitions.FiresIffPastCrossing | simulation/simulation.go:241-246 | with non-negative weights, the remainder test fires at index i exactly when i is at or past the first index where it fires |
| Transitions.CrossingExists | simulation/simulation.go:241-246 | for a positive sum and U in [0, 1), some transition fires |
| Transitions.SumMonotone | simulation/simulation.go:228-234 | with non-negative weights, a longer prefix has a sum at least as large |
| Transitions.Destination | simulation/simulation.go:247-258 | an empty call keeps the bag and the target; a successful call's bag replaces it; a failed call records its details under "error" and goes to the failure state when one is set |
| Transitions.EmptyCallSkipsBackend | simulation/simulation.go:277-279 | a call with no method, URL, parameters or results is empty, and the guard at line 250 then skips the backend: the transition keeps its target and the bag, whatever the backend would do |
| Transitions.FailureRecorded | simulation/simulation.go:252-258 | a failed call always leaves its details in the bag under "error", and leads to the failure state when one is set |
| Transitions.FirstMissing | simulation/simulation.go:260-264 | every destination before the returned index is a known state, and the one at the index, if any, is not |
| Transitions.ZeroWeightTakenAfterCrossing | simulation/simulation.go:242-272 | with weights [1, 0] and U = 0.5 both transitions fire, including the one of weight 0 |
| Transitions.ZeroWeightTakenAtZeroDraw | simulation/simulation.go:244-246 | with weights [0, 1] and U = 0 the leading zero-weight transition fires |
| Transitions.SelectTransition | simulation/simulation.go:241-246 | the selected transition's cumulative interval holds sum*U, and its weight is positive |
| Transitions.SelectionUnique | simulation/simulation.go:241-246 | no other transition's cumulative interval holds sum*U |
| Engine.CountAfterSteps | simulation/simulation.go:133-147 | after k spawn steps exactly min(k, max(n, 0)) entities were created: never more than the cardinality |
| Engine.NextCountBounded | simulation/simulation.go:134-139 | one spawn step keeps the count within [0, max(n, 0)], and it counts one more exactly when below the cardinality |
| Engine.Simulation.constructor | simulation/simulation.go:38-55 | one activation job per root entity set, in order, each a fresh set of its own (no two jobs share one, so no two share a counter) over its own copy of the constants |
| Engine.Simulation.AddJob | simulation/simulation.go:86-93 | a job is appended unless the simulation stopped |
| Engine.Simulation.Error | simulation/simulation.go:79-84 | any error stops the simulation |
| Engine.Simulation.Close | simulation/simulation.go:70-75 | closing stops the simulation |
| Engine.NewEntitySet | simulation/simulation.go:86-93 | a fresh entity set over the given bag, with nothing created yet, and one job that activates it |
| Engine.EntitySet.Create | simulation/simulation.go:106-131 | an unknown entity type or a bad cardinality stops the simulation and queues nothing; otherwise the count resets to 0 and exactly one spawn job is queued after the timer's delay |
| Engine.EntitySet.CreateEntity | simulation/simulation.go:133-147 | at the cardinality nothing changes; below it the count rises by one, then come the jobs of one entity of type `cfg` created over the set's bag (one sampled bag shared by its distinct subordinate sets and its initial state), and exactly one further spawn job after the timer's delay ends the queue |
| Engine.EntitySet.Spawn | simulation/simulation.go:142-146 | the jobs of one entity of type `cfg` created over a copy of the set's bag (one sampled bag shared by its distinct subordinate sets and its initial state), followed by one spawn job after the timer's delay unless the simulation stopped |
| Engine.StartEntity | simulation/simulation.go:164-185 | each subordinate set is activated over the entity's bag, in order, each a fresh set distinct from its siblings, then the initial state is entered with a copy of that bag, or the simulation stops if that state is unknown |
| Engine.CreateEntityFor | simulation/simulation.go:149-185 | a sampling error stops the simulation with nothing queued; otherwise there is one sampled bag: each subordinate set, a distinct fresh set, is activated over it, in order; then the initial state is entered with a copy of that same bag, or the simulation stops if that state is unknown |
| Engine.State.Run | simulation/simulation.go:208-218 | a state without transitions queues nothing; otherwise one transition job is queued after the dwell delay |
| Engine.State.GenerateAttributes | simulation/simulation.go:192-206 | it succeeds exactly when every configured attribute samples, and on success the bag holds the samples |
| Engine.State.RunTransition | simulation/simulation.go:220-274 | a sampling error or invalid weights stop the simulation with nothing queued; otherwise every transition from the first firing one is taken, in order, up to the first unknown destination, which stops the simulation |
| Engine.State.ScheduleTransitions | simulation/simulation.go:241-273 | the jobs queued enter, in order, the destinations of transitions from the first firing one on, each with the bag its transition yields; the simulation stops exactly at an unknown destination |
| Engine.State.ScheduleSelected | simulation/simulation.go:241-273 | the corrected loop takes exactly the one selected transition: it enters that destination with its bag, or stops if the destination is unknown |
| Engine.State.Take | simulation/simulation.go:247-272 | a taken transition with an unknown destination stops the simulation; otherwise one job enters a fresh state for the destination with a copy of the bag the transition yields |

## Left out

- The executor's worker pool, delays in real time, and concurrency. Jobs are only queued, never run, and the queue keeps submission order. The mutex around the entity counter is not modelled, because each method is atomic here.
- The executor is not part of this model. The rule that a revoked context drops new jobs is an assumption about the executor.
- Logging (`zapctx`) and the distinction for `contextDoneError` in `Simulation.error` are left out: neither changes the engine's state.
- `rand.Seed` in `init` and the seeding of randomness are left out, because every draw is an input.
- Floating-point rounding is left out: weights, sums and samples are exact reals.
- `math.Pow` is left out. The power-law root is a draw input, and power-int is its floor.
- `utils.NewUUID` is left out. Its outcome, a string or an error, is a draw input.
- The `int(...)` conversion of a huge float and the int64 overflow of `min + Int63n(max - min)` are not modelled, because integers are unbounded here.
- Timers.NewDelay: a random timer with max <= min panics in `Int63n`. The model requires a draw in [0, max - min) instead of modelling the panic. `Create`, `CreateEntity` and `Run` require such a draw only on the paths where the source calls `newDelay`.
- Decimal.Atoi: its syntax and range errors are one error value. The `strconv.NumError` details are not kept.
- Cardinality.CardinalityValue: the `-1` that comes with the unknown-type error is not kept, because every caller discards it.
- Sampling.SampleAttributes: the source writes a sample into the bag before it reaches a failing key. On an error the model returns no bag. The entity's bag is a discarded copy, so only a state's bag could show the difference.
- Engine.State.GenerateAttributes: on a sampling error the keys sampled before the failure are not written into the state's bag, although the source writes them. The state does nothing further after such an error.
- Sampling.SampleSubset: the list is built in some order of a set of positions, and it is not tied to Go's map iteration order.
- Transitions.Destination: a backend that returns a nil bag with an error would make the source panic when it records the error. This is not modelled.
- Aliasing is not modelled. A subordinate entity set shares its parent entity's bag map; here bags are values and the sharing cannot be seen.
- Engine.State.ScheduleTransitions: when several transitions are taken and a backend returns the bag it was given, or updates it in place, the source writes into the state's own bag. A failed call then leaves "error" in that bag, and every later transition taken in the same loop carries it, even one with an empty call. The model computes every taken transition from the unchanged bag, so it does not capture this.
- Configuration parsing and the call backend's implementation are not part of this model.
- The corrected transition selection is not wired into the engine. `RunTransition` keeps the loop as written (see Findings), and the corrected loop `ScheduleSelected` stands beside it.

## Findings

| source | as written | input that shows it | evidently intended | confidence | as-written member | corrected member |
|---|---|---|---|---|---|---|
| simulation/simulation.go:242-272 | the selection loop has no `break`, so every transition from the first firing one on is taken, including weight-0 ones, and one actor forks into several | weights [1, 0], U = 0.5: remainder 0.5-1 <= 0 fires at 0, and the remainder stays <= 0 at 1, so both are taken | exactly one transition, chosen with probability weight/sum | not executed | Transitions.ZeroWeightTakenAfterCrossing | Engine.State.ScheduleSelected |
| simulation/simulation.go:246 | `randomNumber <= 0` fires when the remainder is exactly 0, so a leading weight-0 transition is taken when U = 0 | weights [0, 1], U = 0: remainder 0-0 = 0 fires at index 0 | take the transition whose interval [prefix, prefix+weight) holds sum*U; a weight-0 transition is never chosen | not executed | Transitions.ZeroWeightTakenAtZeroDraw | Transitions.SelectTransition |
