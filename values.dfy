/** Attribute values and attribute bags shared by every part of the engine. */
module Values {

  /** The dynamically typed values an attribute bag holds, as a closed sum. */
  datatype Value =
    | IntV(i: int)
    | FloatV(f: real)
    | StrV(s: string)
    | ListV(items: seq<Value>)
    | MapV(entries: map<string, Value>)

  /** An attribute bag: attribute name to value. */
  type Attributes = map<string, Value>

  /** Go's `(T, error)` pairs: either a value or an error message. */
  datatype Result<T> = Ok(value: T) | Err(error: string)

  /** The key under which a failed call's details are recorded. */
  const ErrorKey: string := "error"

  /** copyAttributes: a new bag filled entry by entry from `a`. Bags are
      values here, so the copy can never be affected by later changes to
      the original, nor the original by changes to the copy. */
  method CopyAttributes(a: Attributes) returns (c: Attributes)
    ensures c.Keys == a.Keys
    ensures forall k :: k in a ==> c[k] == a[k]
  {
    c := map[];
    var rest := a.Keys;
    while rest != {}
      invariant rest <= a.Keys
      invariant c.Keys == a.Keys - rest
      invariant forall k :: k in c ==> c[k] == a[k]
      decreases rest
    {
      var k :| k in rest;
      c := c[k := a[k]];
      rest := rest - {k};
    }
  }

  /** A width scaled by a draw: `(max-min)*U` when sampling, and
      `sum*U`, the start of the remainder, when choosing a transition. */
  function Scale(w: real, u: real): real {
    w * u
  }

  /** A width scaled by a draw in [0, 1) stays in [0, width), or is 0. */
  lemma ScaledDrawBounds(w: real, u: real)
    requires w >= 0.0 && 0.0 <= u < 1.0
    ensures 0.0 <= Scale(w, u) <= w
    ensures w == 0.0 ==> Scale(w, u) == 0.0
    ensures w > 0.0 ==> Scale(w, u) < w
  {
    MulMonotone(w, 0.0, u);
    MulMonotone(w, u, 1.0);
    if w > 0.0 {
      MulStrict(w, u, 1.0);
    }
  }

  lemma MulMonotone(a: real, b: real, c: real)
    requires a >= 0.0 && b <= c
    ensures a * b <= a * c
  {
  }

  lemma MulStrict(a: real, b: real, c: real)
    requires a > 0.0 && b < c
    ensures a * b < a * c
  {
  }
}
