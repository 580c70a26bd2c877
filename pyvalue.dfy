/**
 * The JSON scalars a decoded request body can carry, with the Python
 * operations the views apply to them: truthiness, str() and int(float(...)).
 * A key missing from a decoded object reads as Null (dict.get gives None).
 */
module PyValue {
  import opened Wrappers
  import opened Text

  datatype Value = Null | Bool(b: bool) | Int(i: int) | Str(s: string)

  /** Python truthiness: None, False, 0 and "" are falsy. */
  predicate Truthy(v: Value) {
    match v
    case Null => false
    case Bool(b) => b
    case Int(i) => i != 0
    case Str(s) => s != ""
  }

  /** Python's `v == 0`: besides 0 itself, False compares equal to 0. */
  predicate EqualsZero(v: Value) {
    v == Int(0) || v == Bool(false)
  }

  /** Python's str(v). */
  function PyStr(v: Value): (r: string)
    ensures v.Str? ==> r == v.s
    ensures v.Null? ==> r == "None"
  {
    match v
    case Null => "None"
    case Bool(b) => if b then "True" else "False"
    case Int(i) => IntToDecimal(i)
    case Str(s) => s
  }

  /**
   * Python's int(float(v)) (and equally Django's Decimal conversion of a whole
   * amount): None when Python raises. Text is stripped and must be an integer
   * literal.
   */
  function WholeNumber(v: Value): (r: Option<int>)
    ensures v.Int? ==> r == Some(v.i)
    ensures v.Null? ==> r.None?
  {
    match v
    case Null => None
    case Bool(b) => Some(if b then 1 else 0)
    case Int(i) => Some(i)
    case Str(s) => ParseInteger(Strip(s))
  }

  /** A whole number sent as text converts to the same amount as the number itself. */
  lemma WholeNumberOfText(i: int)
    ensures WholeNumber(Str(PyStr(Int(i)))) == WholeNumber(Int(i))
  {
    var s := IntToDecimal(i);
    assert !IsSpace(s[0]) && !IsSpace(s[|s| - 1]) by {
      if i >= 0 { assert IsDigit(s[0]) && IsDigit(s[|s| - 1]); }
      else { assert s[1..] == NatToDecimal(-i); assert IsDigit(s[|s| - 1]); }
    }
    StripTrimmed(s);
    IntToDecimalRoundTrip(i);
  }
}
