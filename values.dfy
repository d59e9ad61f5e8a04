/** The Python values the library compares, type-checks and prints: enough of
    Python's `==`, `type(v) == int or float` and `str(v)` for `set_verbose`,
    `VariableObserver` and `VarSet`. */
module PyValues {
  import opened Text

  /** A Python value. A float carries its value and the text `str()` gives for
      it; any other object carries its identity and its `str()` text. */
  datatype PyValue =
    | NoneValue
    | Bool(b: bool)
    | Int(i: int)
    | Float(r: real, text: string)
    | Str(s: string)
    | Object(id: nat, text: string)

  /** bool, int and float compare by numeric value (`True == 1 == 1.0`). */
  predicate IsNumber(v: PyValue) {
    v.Bool? || v.Int? || v.Float?
  }

  function Numeric(v: PyValue): real
    requires IsNumber(v)
  {
    match v
    case Bool(b) => if b then 1.0 else 0.0
    case Int(i) => i as real
    case Float(r, _) => r
  }

  /** Python's `a == b` for these values (objects by identity, the default). */
  predicate Equal(a: PyValue, b: PyValue): (r: bool)
    ensures a == b ==> r
    ensures r ==> (IsNumber(a) <==> IsNumber(b))
    ensures a.NoneValue? ==> (r <==> b.NoneValue?)
    ensures a.Str? ==> (r <==> b.Str? && b.s == a.s)
    ensures a.Object? ==> (r <==> b.Object? && b.id == a.id)
    ensures IsNumber(a) && IsNumber(b) ==> (r <==> Numeric(a) == Numeric(b))
  {
    if IsNumber(a) && IsNumber(b) then Numeric(a) == Numeric(b)
    else match (a, b)
      case (NoneValue, NoneValue) => true
      case (Str(s), Str(t)) => s == t
      case (Object(i, _), Object(j, _)) => i == j
      case _ => false
  }

  /** `==` is an equivalence, so the equality gate of `set_value` is well behaved. */
  lemma EqualIsEquivalence(a: PyValue, b: PyValue, c: PyValue)
    ensures Equal(a, a)
    ensures Equal(a, b) ==> Equal(b, a)
    ensures Equal(a, b) && Equal(b, c) ==> Equal(a, c)
  {
  }

  /** Cross-type numeric equality, pair by pair: a bool equals the int 0 or 1
      it stands for, and an int equals the float of the same value. */
  lemma EqualAcrossNumbers(b: bool, i: int, x: real, t: string)
    ensures Equal(Bool(b), Int(i)) <==> i == (if b then 1 else 0)
    ensures Equal(Int(i), Float(x, t)) <==> x == i as real
    ensures Equal(Bool(b), Float(x, t)) <==> x == (if b then 1.0 else 0.0)
  {
  }

  /** Cross-type numeric equality, and that it does not extend to strings. */
  lemma EqualExamples()
    ensures Equal(Bool(true), Int(1)) && Equal(Int(5), Float(5.0, "5.0"))
    ensures !Equal(Int(5), Str("5")) && !Equal(Bool(false), NoneValue)
  {
  }

  /** `type(v) == int or type(v) == float`: exact type, so a bool is excluded. */
  predicate IsIntOrFloat(v: PyValue): (r: bool)
    ensures r <==> IsNumber(v) && !v.Bool?
  {
    v.Int? || v.Float?
  }

  /** Python's `str(v)`. */
  function ToStr(v: PyValue): (r: string)
    ensures v.Int? ==> |r| >= 1 && (v.i < 0 <==> r[0] == '-')
    ensures v.Int? && v.i >= 0 ==> AllDigits(r) && Value(r) == v.i
    ensures v.Int? && v.i < 0 ==> AllDigits(r[1..]) && Value(r[1..]) == -v.i
    ensures v.Int? ==> var d := if v.i < 0 then r[1..] else r; |d| > 1 ==> d[0] != '0'
    ensures v.Str? ==> r == v.s
    ensures v.Bool? ==> r == (if v.b then "True" else "False")
    ensures v.NoneValue? ==> r == "None"
  {
    match v
    case NoneValue => "None"
    case Bool(b) => if b then "True" else "False"
    case Int(i) => IntToString(i)
    case Float(_, text) => text
    case Str(s) => s
    case Object(_, text) => text
  }

  /** `str` of an int reads back as that int: its sign from the leading `-`,
      its magnitude from the digits after it. */
  lemma IntToStrReadsBack(i: int)
    ensures var r := ToStr(Int(i));
      if r[0] == '-' then |r| >= 2 && AllDigits(r[1..]) && Value(r[1..]) == -i
      else AllDigits(r) && Value(r) == i
  {
    var r := ToStr(Int(i));
    if i < 0 {
      assert |r[1..]| >= 1 by {
        assert |NatToString(-i)| >= 1 && r == "-" + NatToString(-i);
      }
    }
  }
}
