/** Values that travel as bind arguments or sit in records and rows. */
module Values {

  /** A JavaScript value as far as the adapter sees it. Numbers are integers here. */
  datatype Value =
    | Str(s: string)
    | Num(n: int)
    | Bool(b: bool)
    | Null
    | Undefined
    | Arr(items: seq<Value>)

  /** Decimal digits of a natural number, most significant first. */
  function Digits(n: nat): (r: string)
    ensures |r| > 0
    ensures forall i :: 0 <= i < |r| ==> '0' <= r[i] <= '9'
  {
    var d := ['0' + (n % 10) as char];
    if n < 10 then d else Digits(n / 10) + d
  }

  /** `String(v)`, as a template literal `${v}` converts a value to text. */
  function ToStr(v: Value): string
    decreases v, 1
  {
    match v
    case Str(s) => s
    case Num(n) => if n < 0 then "-" + Digits(-n) else Digits(n)
    case Bool(b) => if b then "true" else "false"
    case Null => "null"
    case Undefined => "undefined"
    case Arr(items) => ItemsStr(v, items)
  }

  /** `Array.prototype.join(",")` over the elements of `whole`, where `null` and
      `undefined` elements print as the empty string. */
  function ItemsStr(whole: Value, items: seq<Value>): string
    requires whole.Arr? && items <= whole.items
    decreases whole, 0, |items|
  {
    if items == [] then ""
    else
      var last := items[|items| - 1];
      assert last in whole.items;
      var s := if last.Null? || last.Undefined? then "" else ToStr(last);
      if |items| == 1 then s else ItemsStr(whole, items[..|items| - 1]) + "," + s
  }
}
