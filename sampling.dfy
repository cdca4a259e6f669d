/** AttributeDistribution.Sample: one value drawn from an attribute's
    distribution, with every random draw passed in explicitly. */
module Sampling {
  import opened Values
  import opened Decimal

  /** The attribute types of the configuration. `UnknownType` stands for
      any type string the sampler has no case for. */
  datatype AttributeType =
    | ConstantInt | MapValue | MapList
    | RandomInt | PowerInt | NormalInt
    | RandomFloat | PowerFloat | NormalFloat
    | ConstantString | RandomString
    | RandomValue | RandomSubset
    | UnknownType(name: string)

  /** One configured attribute distribution. */
  datatype AttributeSpec = AttributeSpec(
    kind: AttributeType,
    value: int,
    mapValue: Value,
    mapValues: Value,
    min: real,
    max: real,
    n: real,
    stdDev: real,
    stringValue: string,
    values: seq<Value>)

  /** The random draws one call of Sample may consume:
      `u` a rand.Float64 draw, `z` a rand.NormFloat64 draw, `power` the
      value of the power-law root, `uuid` the outcome of utils.NewUUID, and
      `intn` the successive rand.Intn(len(values)) draws. */
  datatype Draws = Draws(u: real, z: real, power: real, uuid: Result<string>, intn: seq<nat>)

  const EmptyListError: string := "empty list of values"

  /** Every Intn draw is below n. */
  predicate Below(intn: seq<nat>, n: nat) {
    forall j :: 0 <= j < |intn| ==> intn[j] < n
  }

  /** The draws are ones the random source can produce for `a`: U in [0, 1),
      and enough Intn draws, each within the list, for the subset loop. */
  predicate ValidDraws(a: AttributeSpec, d: Draws) {
    0.0 <= d.u < 1.0 && 2 * |a.values| <= |d.intn| && Below(d.intn, |a.values|)
  }

  function Abs(x: real): (r: real)
    ensures r >= 0.0 && (r == x || r == -x)
  {
    if x < 0.0 then -x else x
  }

  /** `min + (max-min)*U`, on reals. */
  function Uniform(min: real, max: real, u: real): real {
    min + Scale(max - min, u)
  }

  /** `int(math.Floor(min + (max-min)*U))`, on reals. */
  function UniformInt(min: real, max: real, u: real): int {
    Uniform(min, max, u).Floor
  }

  /** The failure, if any, that Sample reports for these draws. */
  function SampleError(a: AttributeSpec, d: Draws): Option<string> {
    if a.kind.RandomString? && d.uuid.Err? then Some(d.uuid.error)
    else if (a.kind.RandomValue? || a.kind.RandomSubset?) && |a.values| == 0 then Some(EmptyListError)
    else None
  }

  datatype Option<T> = None | Some(value: T)

  /** Every branch of Sample except random-subset, whose result order is
      not determined by the draws. */
  function SampleOther(a: AttributeSpec, d: Draws): (r: Result<Value>)
    requires !a.kind.RandomSubset? && ValidDraws(a, d)
    ensures r.Err? <==> SampleError(a, d).Some?
    ensures a.kind.ConstantInt? ==> r == Ok(IntV(a.value))
    ensures a.kind.ConstantString? ==> r == Ok(StrV(a.stringValue))
    ensures a.kind.MapValue? ==> r == Ok(a.mapValue)
    ensures a.kind.MapList? ==> r == Ok(a.mapValues)
    ensures a.kind.RandomValue? && r.Ok? ==> r.value in a.values
    ensures (a.kind.NormalInt? ==> r.Ok? && r.value.IntV? && r.value.i >= 0)
    ensures (a.kind.NormalFloat? ==> r.Ok? && r.value.FloatV? && r.value.f >= 0.0)
    ensures a.kind.UnknownType? ==> r == Ok(IntV(0))
  {
    match a.kind
    case ConstantInt => Ok(IntV(a.value))
    case MapValue => Ok(a.mapValue)
    case MapList => Ok(a.mapValues)
    case RandomInt => Ok(IntV(UniformInt(a.min, a.max, d.u)))
    case PowerInt => Ok(IntV(d.power.Floor))
    case NormalInt => Ok(IntV(Abs(d.z * a.stdDev + a.n).Floor))
    case RandomFloat => Ok(FloatV(Uniform(a.min, a.max, d.u)))
    case PowerFloat => Ok(FloatV(d.power))
    case NormalFloat => Ok(FloatV(Abs(d.z * a.stdDev + a.n)))
    case ConstantString => Ok(StrV(a.stringValue))
    case RandomString =>
      if d.uuid.Err? then Err(d.uuid.error)
      else if a.stringValue == "" then Ok(StrV(d.uuid.value))
      else if a.min != 0.0 || a.max != 0.0 then Ok(StrV(a.stringValue + Itoa(UniformInt(a.min, a.max, d.u))))
      else Ok(StrV(a.stringValue + d.uuid.value))
    case RandomValue =>
      if |a.values| == 0 then Err(EmptyListError) else Ok(a.values[d.intn[0]])
    case UnknownType(_) => Ok(IntV(0))
  }

  /** random-int lies between floor(min) and max: exactly floor(min) when
      min == max, and strictly below max when min < max. */
  lemma RandomIntBounds(a: AttributeSpec, d: Draws)
    requires a.kind.RandomInt? && ValidDraws(a, d) && a.min <= a.max
    ensures SampleOther(a, d).Ok? && SampleOther(a, d).value.IntV?
    ensures a.min.Floor <= SampleOther(a, d).value.i
    ensures a.min == a.max ==> SampleOther(a, d).value.i == a.min.Floor
    ensures a.min < a.max ==> (SampleOther(a, d).value.i as real) < a.max
  {
    assert SampleOther(a, d) == Ok(IntV(UniformInt(a.min, a.max, d.u)));
    UniformIntBounds(a.min, a.max, d.u);
  }

  lemma UniformIntBounds(min: real, max: real, u: real)
    requires min <= max && 0.0 <= u < 1.0
    ensures min.Floor <= UniformInt(min, max, u)
    ensures min == max ==> UniformInt(min, max, u) == min.Floor
    ensures min < max ==> (UniformInt(min, max, u) as real) < max
  {
    var x := Uniform(min, max, u);
    UniformBounds(min, max, u);
    FloorMonotone(min, x);
    assert (x.Floor as real) <= x;
  }

  /** random-float: a point drawn uniformly in [min, max), or min itself
      when the range is empty. */
  lemma UniformBounds(min: real, max: real, u: real)
    requires min <= max && 0.0 <= u < 1.0
    ensures min <= Uniform(min, max, u)
    ensures min == max ==> Uniform(min, max, u) == min
    ensures min < max ==> Uniform(min, max, u) < max
  {
    ScaledDrawBounds(max - min, u);
  }

  lemma FloorMonotone(x: real, y: real)
    requires x <= y
    ensures x.Floor <= y.Floor
  {
    assert (x.Floor as real) <= x;
  }

  /** random-string: the identifier alone without a prefix; with a prefix,
      the prefix followed by either a uniform integer (when a range is set)
      or the identifier. */
  lemma RandomStringShape(a: AttributeSpec, d: Draws)
    requires a.kind.RandomString? && ValidDraws(a, d) && d.uuid.Ok?
    ensures SampleOther(a, d).Ok? && SampleOther(a, d).value.StrV?
    ensures a.stringValue == "" ==> SampleOther(a, d).value.s == d.uuid.value
    ensures a.stringValue != "" ==>
      var s := SampleOther(a, d).value.s;
      && |a.stringValue| <= |s| && s[..|a.stringValue|] == a.stringValue
      && (a.min != 0.0 || a.max != 0.0 ==> s[|a.stringValue|..] == Itoa(UniformInt(a.min, a.max, d.u)))
      && (a.min == 0.0 && a.max == 0.0 ==> s[|a.stringValue|..] == d.uuid.value)
  {
  }

  /** The positions the random-subset loop marks. Iteration i runs while
      i < intn[2*i] (the loop condition draws afresh on every test) and
      marks position intn[2*i+1]. */
  function SubsetIndices(intn: seq<nat>, n: nat, i: nat): (keys: set<nat>)
    requires i < n && 2 * n <= |intn| && Below(intn, n)
    ensures forall k :: k in keys ==> k < n
    ensures |keys| <= n - 1 - i
    decreases n - i
  {
    if i < intn[2 * i] then {intn[2 * i + 1]} + SubsetIndices(intn, n, i + 1) else {}
  }

  /** `items` lists the values at the positions `keys`, each position once,
      in the order `picked`. */
  ghost predicate Listing(values: seq<Value>, keys: set<nat>, items: seq<Value>, picked: seq<nat>) {
    && |picked| == |items| == |keys|
    && (forall j :: 0 <= j < |picked| ==> picked[j] in keys && picked[j] < |values| && items[j] == values[picked[j]])
    && (forall j1, j2 :: 0 <= j1 < j2 < |picked| ==> picked[j1] != picked[j2])
  }

  /** The random-subset branch: mark positions, then list the values at
      the marked positions in the (unspecified) order of map iteration. */
  method SampleSubset(values: seq<Value>, intn: seq<nat>) returns (items: seq<Value>, picked: seq<nat>)
    requires |values| > 0 && 2 * |values| <= |intn| && Below(intn, |values|)
    ensures Listing(values, SubsetIndices(intn, |values|, 0), items, picked)
    ensures |items| < |values|
  {
    var n := |values|;
    var marked: set<nat> := {};
    var i := 0;
    while i < intn[2 * i]
      invariant 0 <= i < n
      invariant marked + SubsetIndices(intn, n, i) == SubsetIndices(intn, n, 0)
      decreases n - i
    {
      marked := marked + {intn[2 * i + 1]};
      i := i + 1;
    }
    assert marked == SubsetIndices(intn, n, 0);
    items, picked := [], [];
    var rest := marked;
    while rest != {}
      invariant rest <= marked
      invariant |picked| == |items| && |picked| + |rest| == |marked|
      invariant forall j :: 0 <= j < |picked| ==> picked[j] in marked - rest && picked[j] < n && items[j] == values[picked[j]]
      invariant forall j1, j2 :: 0 <= j1 < j2 < |picked| ==> picked[j1] != picked[j2]
      decreases rest
    {
      var k :| k in rest;
      items := items + [values[k]];
      picked := picked + [k];
      rest := rest - {k};
    }
  }

  /** The values Sample may return for these draws. */
  ghost predicate IsSample(a: AttributeSpec, d: Draws, v: Value)
    requires ValidDraws(a, d)
  {
    if a.kind.RandomSubset? then
      |a.values| > 0 && v.ListV? &&
      exists picked :: Listing(a.values, SubsetIndices(d.intn, |a.values|, 0), v.items, picked)
    else
      SampleOther(a, d) == Ok(v)
  }

  /** AttributeDistribution.Sample. */
  method Sample(a: AttributeSpec, d: Draws) returns (r: Result<Value>)
    requires ValidDraws(a, d)
    ensures r.Err? <==> SampleError(a, d).Some?
    ensures r.Err? ==> r.error == SampleError(a, d).value
    ensures r.Ok? ==> IsSample(a, d, r.value)
    ensures a.kind.RandomSubset? && r.Ok? ==> r.value.ListV? && |r.value.items| < |a.values|
  {
    if a.kind.RandomSubset? {
      if |a.values| == 0 {
        return Err(EmptyListError);
      }
      var items, picked := SampleSubset(a.values, d.intn);
      return Ok(ListV(items));
    }
    r := SampleOther(a, d);
  }

  /** Draws for every configured attribute. */
  predicate DrawsCover(specs: map<string, AttributeSpec>, draws: map<string, Draws>) {
    forall k :: k in specs ==> k in draws && ValidDraws(specs[k], draws[k])
  }

  /** Some configured attribute fails to sample. */
  ghost predicate AnySampleError(specs: map<string, AttributeSpec>, draws: map<string, Draws>)
    requires DrawsCover(specs, draws)
  {
    exists k :: k in specs && SampleError(specs[k], draws[k]).Some?
  }

  /** `result` is `bag` with every configured attribute sampled into it. */
  ghost predicate SampledFrom(specs: map<string, AttributeSpec>, draws: map<string, Draws>,
                              bag: Attributes, result: Attributes)
    requires DrawsCover(specs, draws)
  {
    && result.Keys == bag.Keys + specs.Keys
    && (forall k :: k in specs ==> IsSample(specs[k], draws[k], result[k]))
    && (forall k :: k in bag && k !in specs ==> result[k] == bag[k])
  }

  /** The sampling loop of createEntity and State.generateAttributes:
      sample each configured attribute into the bag, stopping at the first
      failure. */
  method SampleAttributes(specs: map<string, AttributeSpec>, bag: Attributes, draws: map<string, Draws>)
    returns (r: Result<Attributes>)
    requires DrawsCover(specs, draws)
    ensures r.Err? <==> AnySampleError(specs, draws)
    ensures r.Ok? ==> SampledFrom(specs, draws, bag, r.value)
  {
    var out := bag;
    var rest := specs.Keys;
    while rest != {}
      invariant rest <= specs.Keys
      invariant out.Keys == bag.Keys + (specs.Keys - rest)
      invariant forall k :: k in specs && k !in rest ==> IsSample(specs[k], draws[k], out[k])
      invariant forall k :: k in specs && k !in rest ==> SampleError(specs[k], draws[k]).None?
      invariant forall k :: k in bag && (k !in specs || k in rest) ==> out[k] == bag[k]
      decreases rest
    {
      var k :| k in rest;
      var v := Sample(specs[k], draws[k]);
      if v.Err? {
        return Err(v.error);
      }
      out := out[k := v.value];
      rest := rest - {k};
    }
    return Ok(out);
  }
}
