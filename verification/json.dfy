/** The JSON values the application reads back from local storage or from
    fetched data files, together with the property reads the source performs
    on them (`obj.key`, `obj?.key`, `typeof`, `Array.isArray`). */
module Json {

  /** A value produced by `JSON.parse`. Numbers are integers here: every
      number the modelled code reads is a counter, a timestamp or an index. */
  datatype Value =
    | Null
    | Bool(b: bool)
    | Num(n: int)
    | Str(s: string)
    | Arr(items: seq<Value>)
    | Obj(fields: map<string, Value>)
    | Undefined  // what a missing property reads as

  /** `isObj` in main.js: truthy, of type "object" and not an array. */
  predicate IsObj(v: Value) {
    v.Obj?
  }

  /** `item && typeof item === "object"`: a non-null object, arrays included. */
  predicate IsObjectLike(v: Value) {
    v.Obj? || v.Arr?
  }

  /** Reading property `key`. Only objects carry named properties; the keys
      the modelled code reads are never `length` or an array index. */
  function Get(v: Value, key: string): (r: Value)
    ensures !v.Obj? ==> r == Undefined
    ensures v.Obj? && key in v.fields ==> r == v.fields[key]
  {
    if v.Obj? && key in v.fields then v.fields[key] else Undefined
  }

  /** Optional chaining `v?.k1?.k2`: Undefined once any step is missing. */
  function Path(v: Value, keys: seq<string>): Value
    decreases |keys|
  {
    if keys == [] then v else Path(Get(v, keys[0]), keys[1..])
  }

  /** JavaScript truthiness (`Boolean(v)`). */
  predicate Truthy(v: Value) {
    match v
    case Null => false
    case Undefined => false
    case Bool(b) => b
    case Num(n) => n != 0
    case Str(s) => s != []
    case Arr(_) => true
    case Obj(_) => true
  }

  /** `Number.isFinite(v) ? v : fallback` (`safeNumber` in main.js). */
  function SafeNumber(v: Value, fallback: int): (r: int)
    ensures v.Num? ==> r == v.n
    ensures !v.Num? ==> r == fallback
  {
    if v.Num? then v.n else fallback
  }

  /** `typeof v === "string" ? v : fallback`. */
  function StringOr(v: Value, fallback: string): (r: string)
    ensures v.Str? ==> r == v.s
    ensures !v.Str? ==> r == fallback
  {
    if v.Str? then v.s else fallback
  }

  /** `Array.isArray(v) ? v.filter((x) => typeof x === "string") : []`. */
  function Strings(v: Value): (r: seq<string>)
    ensures !v.Arr? ==> r == []
    ensures v.Arr? ==> |r| <= |v.items|
  {
    if v.Arr? then StringItems(v.items) else []
  }

  function StringItems(items: seq<Value>): (r: seq<string>)
    ensures |r| <= |items|
  {
    if items == [] then []
    else (if items[0].Str? then [items[0].s] else []) + StringItems(items[1..])
  }

  /** The JSON array holding the given strings. */
  function StringsValue(ss: seq<string>): (v: Value)
    ensures v.Arr? && |v.items| == |ss|
  {
    Arr(seq(|ss|, i requires 0 <= i < |ss| => Str(ss[i])))
  }

  lemma {:induction false} StringsRoundTrip(ss: seq<string>)
    ensures Strings(StringsValue(ss)) == ss
  {
    StringItemsRoundTrip(ss);
  }

  lemma {:induction false} StringItemsRoundTrip(ss: seq<string>)
    ensures StringItems(StringsValue(ss).items) == ss
  {
    if ss != [] {
      var items := StringsValue(ss).items;
      assert items[1..] == StringsValue(ss[1..]).items;
      StringItemsRoundTrip(ss[1..]);
    }
  }
}
