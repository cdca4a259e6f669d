/** Timers: the delay (in nanoseconds) before a scheduled job runs. */
module Timers {

  /** The timer types the configuration names; `NoTimer` is the empty
      type string and `OtherTimer` any string the engine does not know. */
  datatype TimerType = NoTimer | FixedTimer | RandomTimer | OtherTimer(name: string)

  datatype Timer = Timer(kind: TimerType, interval: int, min: int, max: int)

  /** The `rand.Int63n(max - min)` draw a random timer consumes lies in
      [0, max - min); Int63n panics when max - min is not positive, so a
      random timer needs min < max. */
  predicate DrawFits(t: Timer, draw: int) {
    t.kind.RandomTimer? ==> 0 <= draw < t.max - t.min
  }

  /** newDelay: the duration a timer yields for one draw. */
  function NewDelay(t: Timer, draw: int): (d: int)
    requires DrawFits(t, draw)
    ensures t.kind.FixedTimer? ==> d == t.interval
    ensures t.kind.RandomTimer? ==> t.min <= d < t.max
    ensures t.kind.NoTimer? || t.kind.OtherTimer? ==> d == 0
  {
    match t.kind
    case FixedTimer => t.interval
    case RandomTimer => t.min + draw
    case _ => 0
  }

  /** Every duration in [min, max) is reached by exactly one draw. */
  lemma RandomDelayCovers(t: Timer, d: int)
    requires t.kind.RandomTimer? && t.min <= d < t.max
    ensures DrawFits(t, d - t.min) && NewDelay(t, d - t.min) == d
    ensures forall draw :: DrawFits(t, draw) && NewDelay(t, draw) == d ==> draw == d - t.min
  {
  }
}
