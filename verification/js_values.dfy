/**
 * The JavaScript values the client handles: decoded response bodies,
 * request parameters and the session's account fields, with the three
 * operations the source applies to them (truthiness, string conversion,
 * property reads) and the plain-object `data` maps passed to the encoder.
 */
module JsValues {
  import opened Optional
  import opened JsStrings

  /** Numbers are integers here; objects are maps from property names. */
  datatype Value =
    | Undefined
    | Null
    | Bool(b: bool)
    | Num(n: int)
    | Str(s: string)
    | Arr(items: seq<Value>)
    | Obj(fields: map<string, Value>)

  /** `!!v` */
  predicate Truthy(v: Value)
  {
    match v
    case Undefined => false
    case Null => false
    case Bool(b) => b
    case Num(n) => n != 0
    case Str(s) => |s| > 0
    case Arr(_) => true
    case Obj(_) => true
  }

  /** `String(v)`: arrays join their elements with commas, writing `null` and `undefined` elements as empty text. */
  function ToString(v: Value): string
  {
    match v
    case Undefined => "undefined"
    case Null => "null"
    case Bool(b) => if b then "true" else "false"
    case Num(n) => IntToString(n)
    case Str(s) => s
    case Arr(items) => Join(ElementStrings(items), ',')
    case Obj(_) => "[object Object]"
  }

  /** Element texts of an array join: `undefined` and `null` elements become empty. */
  function ElementStrings(items: seq<Value>): (r: seq<string>)
    ensures |r| == |items|
    decreases items
  {
    if |items| == 0 then []
    else
      var first := if items[0].Undefined? || items[0].Null? then "" else ToString(items[0]);
      [first] + ElementStrings(items[1..])
  }

  /** The error a property read on `undefined` or `null` throws. */
  datatype JsError = TypeError(reading: string)

  /**
   * `v[key]` for a property name that is not an array index and not a
   * name defined on a built-in prototype (every name the client reads is of
   * this kind).
   */
  function GetProperty(v: Value, key: string): (r: Result<Value, JsError>)
    ensures r.Err? <==> v.Undefined? || v.Null?
    ensures r.Err? ==> r.error == TypeError(key)
    ensures v.Obj? ==> r == Ok(if key in v.fields then v.fields[key] else Undefined)
    ensures r.Ok? && r.value != Undefined ==> v.Obj? || key == "length"
  {
    match v
    case Undefined => Err(TypeError(key))
    case Null => Err(TypeError(key))
    case Obj(fields) => Ok(if key in fields then fields[key] else Undefined)
    case Str(s) => Ok(if key == "length" then Num(|s|) else Undefined)
    case Arr(items) => Ok(if key == "length" then Num(|items|) else Undefined)
    case _ => Ok(Undefined)
  }

  /** A JavaScript default parameter: the default replaces an `undefined` argument. */
  function WithDefault(v: Value, default: Value): (r: Value)
    ensures v.Undefined? ==> r == default
    ensures !v.Undefined? ==> r == v
  {
    if v.Undefined? then default else v
  }

  /** A plain object's own properties in insertion order, as the request `data` argument holds them. */
  type Entries = seq<(string, Value)>

  function KeySet(e: Entries): set<string>
    decreases |e|
  {
    if |e| == 0 then {} else {e[0].0} + KeySet(e[1..])
  }

  lemma {:induction false} KeySetMembers(e: Entries, x: string)
    ensures x in KeySet(e) <==> exists i :: 0 <= i < |e| && e[i].0 == x
    decreases |e|
  {
    if |e| > 0 {
      KeySetMembers(e[1..], x);
      if x in KeySet(e[1..]) {
        var i :| 0 <= i < |e[1..]| && e[1..][i].0 == x;
        assert e[i + 1].0 == x;
      }
      if exists i :: 0 <= i < |e| && e[i].0 == x {
        var i :| 0 <= i < |e| && e[i].0 == x;
        if i > 0 {
          assert e[1..][i - 1].0 == x;
        }
      }
    }
  }

  predicate DistinctKeys(e: Entries)
  {
    forall i, j :: 0 <= i < j < |e| ==> e[i].0 != e[j].0
  }

  /** `obj[key]` on such an object. */
  function Lookup(e: Entries, key: string): (v: Value)
    ensures key !in KeySet(e) ==> v == Undefined
    decreases |e|
  {
    if |e| == 0 then Undefined
    else if e[0].0 == key then e[0].1
    else Lookup(e[1..], key)
  }

  /**
   * `obj[key] = v`: an existing property keeps its place and takes the new
   * value; a new one is appended.
   */
  function SetProperty(e: Entries, key: string, v: Value): (r: Entries)
    requires DistinctKeys(e)
    ensures DistinctKeys(r)
    ensures KeySet(r) == KeySet(e) + {key}
    ensures Lookup(r, key) == v
    ensures forall k :: k != key ==> Lookup(r, k) == Lookup(e, k)
    ensures key in KeySet(e) ==> |r| == |e| && forall i :: 0 <= i < |e| ==> r[i].0 == e[i].0
    ensures key !in KeySet(e) ==> r == e + [(key, v)]
    decreases |e|
  {
    if |e| == 0 then
      [(key, v)]
    else
      if e[0].0 == key then
        forall i | 0 <= i < |e[1..]|
          ensures e[1..][i].0 != key
        {
          assert e[1..][i] == e[i + 1];
        }
        KeySetMembers(e[1..], key);
        [(key, v)] + e[1..]
      else
        var r := [e[0]] + SetProperty(e[1..], key, v);
        assert r[1..] == SetProperty(e[1..], key, v);
        assert key !in KeySet(e) ==> r == e + [(key, v)];
        r
  }
}
