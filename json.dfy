/**
 * Decoded JSON values as the HTTP handlers receive them from json.loads, with the
 * parts of Python the core applies to them: truth values, str() and key lookup.
 */
module Json {
  import opened Wrappers

  /**
   * A decoded JSON value (floating-point numbers and nested objects are not modelled).
   * Str is a unicode string, as json.loads decodes them; Bytes is a byte string, the
   * result of str() that a handler puts into a payload itself.
   */
  datatype Value = Null | Bool(b: bool) | Int(i: int) | Str(s: string) | Bytes(bytes: string) | List(items: seq<Value>)

  /** A decoded JSON object: its entries in the dictionary's iteration order. */
  type Object = seq<(string, Value)>

  /** Python's truth value of a decoded value: null, false, 0, "" and [] are false. */
  predicate Truthy(v: Value) {
    match v
    case Null => false
    case Bool(b) => b
    case Int(i) => i != 0
    case Str(s) => s != ""
    case Bytes(s) => s != ""
    case List(items) => items != []
  }

  function DigitChar(d: nat): char
    requires d < 10
  {
    "0123456789"[d]
  }

  /** The decimal digits of a natural number, most significant first. */
  function Digits(n: nat): (s: string)
    ensures |s| >= 1
    ensures forall k :: 0 <= k < |s| ==> '0' <= s[k] <= '9'
  {
    if n < 10 then [DigitChar(n)] else Digits(n / 10) + [DigitChar(n % 10)]
  }

  /** str() of an integer. */
  function IntText(i: int): string {
    if i < 0 then "-" + Digits(-i) else Digits(i)
  }

  /** str() of a value. */
  function Text(v: Value): string
    decreases v, 1
  {
    match v
    case Null => "None"
    case Bool(b) => if b then "True" else "False"
    case Int(i) => IntText(i)
    case Str(s) => s
    case Bytes(s) => s
    case List(items) => "[" + ReprItems(v, items) + "]"
  }

  /**
   * repr() of the items of a list, separated by ", ". A unicode string item shows as
   * u'...' and a byte string item as '...' (without escaping).
   */
  function ReprItems(ghost whole: Value, items: seq<Value>): string
    requires forall k :: 0 <= k < |items| ==> items[k] < whole
    decreases whole, 0, |items|
  {
    if items == [] then ""
    else
      var head := match items[0] case Str(s) => "u'" + s + "'" case Bytes(s) => "'" + s + "'" case _ => Text(items[0]);
      if |items| == 1 then head else head + ", " + ReprItems(whole, items[1..])
  }

  predicate HasKey(obj: Object, k: string) {
    exists i :: 0 <= i < |obj| && obj[i].0 == k
  }

  /** obj.get(k): the value of the first entry with key k. */
  function Get(obj: Object, k: string): (r: Option<Value>)
    ensures r.Some? <==> HasKey(obj, k)
    ensures r.Some? ==> (k, r.value) in obj
  {
    if obj == [] then None
    else if obj[0].0 == k then Some(obj[0].1)
    else Get(obj[1..], k)
  }

  /** The keys of an object, in iteration order. */
  function Keys(obj: Object): (ks: seq<string>)
    ensures |ks| == |obj|
    ensures forall i :: 0 <= i < |obj| ==> ks[i] == obj[i].0
  {
    seq(|obj|, i requires 0 <= i < |obj| => obj[i].0)
  }

  /** The object after obj.pop(k): every entry keyed k is gone, the rest keep their order. */
  function Remove(obj: Object, k: string): (r: Object)
    ensures forall key :: HasKey(r, key) <==> HasKey(obj, key) && key != k
    ensures forall key :: key != k ==> Get(r, key) == Get(obj, key)
  {
    if obj == [] then []
    else
      var rest := Remove(obj[1..], k);
      HasKeyCons(obj[0], obj[1..]);
      HasKeyCons(obj[0], rest);
      assert obj == [obj[0]] + obj[1..];
      if obj[0].0 == k then rest else [obj[0]] + rest
  }

  lemma HasKeyCons(e: (string, Value), rest: Object)
    ensures forall key :: HasKey([e] + rest, key) <==> e.0 == key || HasKey(rest, key)
  {
    forall key | HasKey(rest, key) ensures HasKey([e] + rest, key) {
      var i :| 0 <= i < |rest| && rest[i].0 == key;
      assert ([e] + rest)[i + 1].0 == key;
    }
    assert ([e] + rest)[0].0 == e.0;
    forall key | HasKey([e] + rest, key) && e.0 != key ensures HasKey(rest, key) {
      var i :| 0 <= i < |[e] + rest| && ([e] + rest)[i].0 == key;
      assert rest[i - 1].0 == key;
    }
  }
}
