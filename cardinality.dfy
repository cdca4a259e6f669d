/** Cardinality of an entity set: a literal integer, or the name of an
    attribute whose value gives the number of entities to create. */
module Cardinality {
  import opened Values
  import opened Decimal

  /** The error for an attribute that is neither an int nor a string. In
      the source it comes with the value -1, which every caller discards. */
  const UnknownTypeError: string := "unknown type: expected int or string"

  /** cardinality.Value: the attribute named by the cardinality string
      wins over the string's own literal reading. */
  function CardinalityValue(name: string, attributes: Attributes): (r: Result<int>)
    ensures name in attributes ==>
      match attributes[name]
      case IntV(n) => r == Ok(n)
      case StrV(s) => r == Atoi(s)
      case _ => r.Err?
    ensures name !in attributes && name == "" ==> r == Ok(1)
    ensures name !in attributes && name != "" ==> r == Atoi(name)
  {
    if name !in attributes then
      if name == "" then Ok(1) else Atoi(name)
    else
      match attributes[name]
      case IntV(n) => Ok(n)
      case StrV(s) => Atoi(s)
      case _ => Err(UnknownTypeError)
  }

  /** A literal cardinality that no attribute shadows is the number it spells. */
  lemma LiteralCardinality(n: int, attributes: Attributes)
    requires MinInt64 <= n <= MaxInt64
    requires Itoa(n) !in attributes
    ensures CardinalityValue(Itoa(n), attributes) == Ok(n)
  {
    AtoiItoa(n);
    if n < 0 {
      assert Itoa(n)[0] == '-';
    }
  }

  /** An attribute holding the decimal text of n yields n, exactly as an
      attribute holding the integer n does. */
  lemma AttributeCardinality(name: string, n: int, attributes: Attributes)
    requires MinInt64 <= n <= MaxInt64
    requires name in attributes
    requires attributes[name] == StrV(Itoa(n)) || attributes[name] == IntV(n)
    ensures CardinalityValue(name, attributes) == Ok(n)
  {
    AtoiItoa(n);
  }
}
