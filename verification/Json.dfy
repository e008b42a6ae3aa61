/** JSON values as `encoding/json` decodes them into `any`. */
module Json {

  datatype Value =
    | Null
    | Bool(b: bool)
    | Num(n: real)
    | Str(s: string)
    | Arr(items: seq<Value>)
    | Obj(fields: map<string, Value>)

  /** Go's conversion of a float64 to int: the fraction is dropped, towards zero. */
  function ToInt(r: real): int {
    if r >= 0.0 then r.Floor else -((-r).Floor)
  }

  lemma ToIntTruncates(r: real)
    ensures r >= 0.0 ==> 0.0 <= ToInt(r) as real <= r < ToInt(r) as real + 1.0
    ensures r <= 0.0 ==> ToInt(r) as real - 1.0 < r <= ToInt(r) as real <= 0.0
  {
  }

  lemma ToIntOfInt(i: int)
    ensures ToInt(i as real) == i
  {
    assert i < 0 ==> -(i as real) == (-i) as real;
  }
}
