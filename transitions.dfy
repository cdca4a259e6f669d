/** Weighted transition selection and the destination of a transition. */
module Transitions {
  import opened Values

  /** A call specification; the engine only asks whether it is empty. */
  datatype Call = Call(httpMethod: string, url: string, parameters: seq<string>, results: seq<string>)

  /** A transition: its weight, target state, optional call, and the state
      to enter instead when the call fails (empty for none). */
  datatype Transition = Transition(probability: real, state: string, call: Call, onFailure: string)

  /** What the call backend returns: a new bag, or a bag with an error. */
  datatype CallOutcome = CallOk(bag: Attributes) | CallFailed(bag: Attributes, details: string)

  const NegativeWeightError: string := "negative transition probability"
  const ZeroSumError: string := "sum of transition probabilities is 0"

  /** isEmptyCall. */
  predicate IsEmptyCall(c: Call) {
    c.httpMethod == "" && c.url == "" && |c.parameters| == 0 && |c.results| == 0
  }

  function Weights(ts: seq<Transition>): (ws: seq<real>)
    ensures |ws| == |ts| && forall i :: 0 <= i < |ts| ==> ws[i] == ts[i].probability
  {
    if ts == [] then [] else Weights(ts[..|ts| - 1]) + [ts[|ts| - 1].probability]
  }

  /** The sum of a list of weights, accumulated in order. */
  function Sum(ws: seq<real>): real {
    if ws == [] then 0.0 else Sum(ws[..|ws| - 1]) + ws[|ws| - 1]
  }

  predicate NonNegative(ws: seq<real>) {
    forall i :: 0 <= i < |ws| ==> ws[i] >= 0.0
  }

  /** Transition i is taken: the draw r minus the weights up to and
      including i is no longer positive. */
  predicate Fires(ws: seq<real>, r: real, i: nat)
    requires i < |ws|
  {
    r - Sum(ws[..i + 1]) <= 0.0
  }

  /** The first index at or after `from` where the remainder crosses 0, or
      |ws| when there is none. */
  function CrossingFrom(ws: seq<real>, r: real, from: nat): (c: nat)
    requires from <= |ws|
    ensures from <= c <= |ws|
    ensures c < |ws| ==> Fires(ws, r, c)
    ensures forall i :: from <= i < c ==> !Fires(ws, r, i)
    decreases |ws| - from
  {
    if from == |ws| then from
    else if Fires(ws, r, from) then from
    else CrossingFrom(ws, r, from + 1)
  }

  function Crossing(ws: seq<real>, r: real): (c: nat)
    ensures c <= |ws|
    ensures c < |ws| ==> Fires(ws, r, c)
    ensures forall i :: 0 <= i < c ==> !Fires(ws, r, i)
  {
    CrossingFrom(ws, r, 0)
  }

  lemma SumSnoc(ws: seq<real>, i: nat)
    requires i < |ws|
    ensures Sum(ws[..i + 1]) == Sum(ws[..i]) + ws[i]
  {
    assert ws[..i + 1][..i] == ws[..i];
  }

  /** With nonnegative weights the partial sums never decrease. */
  lemma {:induction false} SumMonotone(ws: seq<real>, i: nat, j: nat)
    requires NonNegative(ws) && i <= j <= |ws|
    ensures Sum(ws[..i]) <= Sum(ws[..j])
    decreases j - i
  {
    if i < j {
      SumMonotone(ws, i, j - 1);
      SumSnoc(ws, j - 1);
    }
  }

  lemma SumNonNegative(ws: seq<real>)
    requires NonNegative(ws)
    ensures Sum(ws) >= 0.0
  {
    SumMonotone(ws, 0, |ws|);
    assert ws[..|ws|] == ws;
  }

  /** Without a `break`, the transitions taken are exactly those from the
      crossing point to the end of the list. */
  lemma FiresIffPastCrossing(ws: seq<real>, r: real, i: nat)
    requires NonNegative(ws) && i < |ws|
    ensures Fires(ws, r, i) <==> Crossing(ws, r) <= i
  {
    var c := Crossing(ws, r);
    if c <= i {
      SumMonotone(ws, c + 1, i + 1);
    }
  }

  /** For a positive total and a draw U in [0, 1), the last transition
      always fires, so at least one next state is scheduled. */
  lemma CrossingExists(ws: seq<real>, u: real)
    requires NonNegative(ws) && Sum(ws) > 0.0 && 0.0 <= u < 1.0
    ensures Crossing(ws, Scale(Sum(ws), u)) < |ws|
  {
    var s := Sum(ws);
    assert ws[..|ws|] == ws;
    assert |ws| > 0;
    ScaledDrawBounds(s, u);
    assert ws[..|ws| - 1 + 1] == ws;
    assert Fires(ws, Scale(s, u), |ws| - 1);
  }

  /** The weights runTransition accepts: none negative, and a nonzero total. */
  predicate ValidWeights(ts: seq<Transition>) {
    NonNegative(Weights(ts)) && Sum(Weights(ts)) != 0.0
  }

  /** The weight check of runTransition: stop at the first negative weight,
      then reject a zero total. */
  method ValidateWeights(ts: seq<Transition>) returns (r: Result<real>)
    ensures r.Ok? <==> ValidWeights(ts)
    ensures r.Ok? ==> r.value == Sum(Weights(ts)) && r.value > 0.0
    ensures r.Err? && NonNegative(Weights(ts)) ==> r.error == ZeroSumError
    ensures r.Err? && !NonNegative(Weights(ts)) ==> r.error == NegativeWeightError
  {
    ghost var ws := Weights(ts);
    var sum := 0.0;
    var i := 0;
    while i < |ts|
      invariant 0 <= i <= |ts|
      invariant sum == Sum(ws[..i])
      invariant NonNegative(ws[..i])
    {
      if ts[i].probability < 0.0 {
        return Err(NegativeWeightError);
      }
      SumSnoc(ws, i);
      sum := sum + ts[i].probability;
      i := i + 1;
    }
    assert ws[..|ts|] == ws;
    if sum == 0.0 {
      return Err(ZeroSumError);
    }
    SumNonNegative(ws);
    return Ok(sum);
  }

  /** The state a taken transition leads to and the bag it carries there.
      An empty call keeps the bag; a call's result replaces it; a failed
      call records its details under "error" and goes to the failure state
      when there is one. */
  function Destination(t: Transition, bag: Attributes, backend: (Call, Attributes) -> CallOutcome)
    : (d: (string, Attributes))
    ensures IsEmptyCall(t.call) ==> d == (t.state, bag)
    ensures !IsEmptyCall(t.call) && backend(t.call, bag).CallOk? ==> d == (t.state, backend(t.call, bag).bag)
    ensures !IsEmptyCall(t.call) && backend(t.call, bag).CallFailed? ==>
      && d.1 == backend(t.call, bag).bag[ErrorKey := StrV(backend(t.call, bag).details)]
      && d.0 == (if t.onFailure != "" then t.onFailure else t.state)
  {
    if IsEmptyCall(t.call) then (t.state, bag)
    else match backend(t.call, bag)
      case CallOk(b) => (t.state, b)
      case CallFailed(b, details) =>
        (if t.onFailure != "" then t.onFailure else t.state, b[ErrorKey := StrV(details)])
  }

  /** An empty call never reaches the backend: whatever the backend, the
      transition goes to its own target with the bag unchanged. */
  lemma EmptyCallSkipsBackend(t: Transition, bag: Attributes, backend: (Call, Attributes) -> CallOutcome,
                              other: (Call, Attributes) -> CallOutcome)
    requires IsEmptyCall(t.call)
    ensures Destination(t, bag, backend) == Destination(t, bag, other) == (t.state, bag)
  {
  }

  /** A failed call always leaves its details in the bag it carries on. */
  lemma FailureRecorded(t: Transition, bag: Attributes, backend: (Call, Attributes) -> CallOutcome)
    requires !IsEmptyCall(t.call) && backend(t.call, bag).CallFailed?
    ensures ErrorKey in Destination(t, bag, backend).1
    ensures Destination(t, bag, backend).1[ErrorKey] == StrV(backend(t.call, bag).details)
    ensures t.onFailure != "" ==> Destination(t, bag, backend).0 == t.onFailure
  {
  }

  /** The first index from `from` on whose destination is not a known
      state, or |ts| when every one is known. */
  function FirstMissing<S>(ts: seq<Transition>, from: nat, bag: Attributes,
                           backend: (Call, Attributes) -> CallOutcome, states: map<string, S>): (m: nat)
    requires from <= |ts|
    ensures from <= m <= |ts|
    ensures forall i :: from <= i < m ==> Destination(ts[i], bag, backend).0 in states
    ensures m < |ts| ==> Destination(ts[m], bag, backend).0 !in states
    decreases |ts| - from
  {
    if from == |ts| then from
    else if Destination(ts[from], bag, backend).0 !in states then from
    else FirstMissing(ts, from + 1, bag, backend, states)
  }

  // ---------------------------------------------------------------------
  // As written, runTransition has no `break`: every transition from the
  // crossing point on is taken, so one actor forks into several and a
  // transition of weight 0 can be taken. Below: the discrepancy shown on
  // concrete weights, and the single selection evidently intended.

  /** Weights [1, 0] with U = 0.5: both transitions are taken, including
      the one of weight 0. */
  lemma ZeroWeightTakenAfterCrossing()
    ensures Fires([1.0, 0.0], 0.5, 0) && Fires([1.0, 0.0], 0.5, 1)
  {
  }

  /** Weights [0, 1] with U = 0: the `<= 0` test takes the leading
      transition of weight 0 (and, without a break, the next one too). */
  lemma ZeroWeightTakenAtZeroDraw()
    ensures Fires([0.0, 1.0], 0.0, 0) && Fires([0.0, 1.0], 0.0, 1)
  {
  }

  /** The cumulative weight up to and including i does not exceed r. */
  predicate Passed(ws: seq<real>, r: real, i: nat)
    requires i < |ws|
  {
    Sum(ws[..i + 1]) <= r
  }

  /** The first index whose cumulative weight exceeds r. */
  function SelectFrom(ws: seq<real>, r: real, from: nat): (k: nat)
    requires from <= |ws|
    ensures from <= k <= |ws|
    ensures k < |ws| ==> r < Sum(ws[..k + 1])
    ensures forall i :: from <= i < k ==> Passed(ws, r, i)
    decreases |ws| - from
  {
    if from == |ws| then from
    else if r < Sum(ws[..from + 1]) then from
    else SelectFrom(ws, r, from + 1)
  }

  /** The intended single selection: the one transition whose cumulative
      interval [Sum(ws[..k]), Sum(ws[..k+1])) holds r = total * U, so that
      transition k is chosen with probability ws[k] / total. */
  function SelectTransition(ws: seq<real>, u: real): (k: nat)
    requires NonNegative(ws) && Sum(ws) > 0.0 && 0.0 <= u < 1.0
    ensures k < |ws|
    ensures Sum(ws[..k]) <= Scale(Sum(ws), u) < Sum(ws[..k + 1])
    ensures ws[k] > 0.0
  {
    SelectionInInterval(ws, u);
    SelectFrom(ws, Scale(Sum(ws), u), 0)
  }

  lemma SelectionInInterval(ws: seq<real>, u: real)
    requires NonNegative(ws) && Sum(ws) > 0.0 && 0.0 <= u < 1.0
    ensures var k := SelectFrom(ws, Scale(Sum(ws), u), 0);
      k < |ws| && Sum(ws[..k]) <= Scale(Sum(ws), u) < Sum(ws[..k + 1]) && ws[k] > 0.0
  {
    var r := Scale(Sum(ws), u);
    ScaledDrawBounds(Sum(ws), u);
    assert ws[..|ws|] == ws;
    assert ws[..|ws| - 1 + 1] == ws;
    assert !Passed(ws, r, |ws| - 1);
    var k := SelectFrom(ws, r, 0);
    SumSnoc(ws, k);
    if k > 0 {
      assert Passed(ws, r, k - 1);
      assert ws[..k - 1 + 1] == ws[..k];
    } else {
      assert ws[..0] == [];
    }
  }

  /** No two transitions are selected: any index whose interval holds r is
      the selected one. */
  lemma SelectionUnique(ws: seq<real>, u: real, j: nat)
    requires NonNegative(ws) && Sum(ws) > 0.0 && 0.0 <= u < 1.0
    requires j < |ws| && Sum(ws[..j]) <= Scale(Sum(ws), u) < Sum(ws[..j + 1])
    ensures j == SelectTransition(ws, u)
  {
    var r := Scale(Sum(ws), u);
    var k := SelectTransition(ws, u);
    assert k == SelectFrom(ws, r, 0);
    assert j < k ==> Passed(ws, r, j);
    if k < j {
      SumMonotone(ws, k + 1, j);
    }
  }
}
