/**
 * The slice of JavaScript value semantics that the site's code relies on:
 * JSON values as JSON.parse produces them, `undefined` (as `None`), truthiness,
 * string conversion (template literals, `Array.prototype.join`), property
 * reads, iteration with `for ... of`, loose and strict equality, and the
 * property order of ordinary objects.
 *
 * Numbers are integers; fractions, exponents, NaN, -0 and the infinities of
 * JSON numbers are not modelled.
 */
module JsValues {

  datatype Option<+T> = None | Some(value: T)

  /** The exceptions the modelled code can raise. */
  datatype Exception =
    | TypeError
    | SyntaxError
    | Error(message: string)
    /** `new Error(e)`: an Error whose message is the string form of `e`. */
    | Wrapped(cause: Exception)
    | NotModelled(what: string)

  datatype Result<+T> = Ok(value: T) | Err(error: Exception)

  /**
   * A JSON value. An object lists its own properties in JavaScript property
   * order: array-index keys first in ascending order, then the other keys in
   * creation order (see WellFormed).
   */
  datatype Json =
    | JNull
    | JBool(b: bool)
    | JNum(n: int)
    | JStr(s: string)
    | JArr(items: seq<Json>)
    | JObj(fields: seq<Field>)

  datatype Field = Field(key: string, value: Json)

  /** A size that strictly decreases from a container to anything inside it. */
  function Size(v: Json): nat {
    match v
    case JArr(items) => 2 + SizeItems(items)
    case JObj(fields) => 2 + SizeFields(fields)
    case _ => 1
  }

  function SizeItems(items: seq<Json>): nat {
    if items == [] then 0 else Size(items[0]) + SizeItems(items[1..])
  }

  function SizeFields(fields: seq<Field>): nat {
    if fields == [] then 0 else Size(fields[0].value) + SizeFields(fields[1..])
  }

  function SizeOpt(v: Option<Json>): nat {
    if v.Some? then Size(v.value) else 0
  }

  lemma {:induction false} ItemSmaller(items: seq<Json>, i: nat)
    requires i < |items|
    ensures Size(items[i]) < Size(JArr(items))
    ensures Size(items[i]) <= SizeItems(items)
  {
    if i > 0 {
      ItemSmaller(items[1..], i - 1);
      assert items[1..][i - 1] == items[i];
    }
  }

  lemma {:induction false} FieldSmaller(fields: seq<Field>, i: nat)
    requires i < |fields|
    ensures Size(fields[i].value) < Size(JObj(fields))
    ensures Size(fields[i].value) <= SizeFields(fields)
  {
    if i > 0 {
      FieldSmaller(fields[1..], i - 1);
      assert fields[1..][i - 1] == fields[i];
    }
  }

  lemma ItemsSmaller(items: seq<Json>)
    ensures forall i :: 0 <= i < |items| ==> Size(items[i]) < Size(JArr(items))
  {
    forall i | 0 <= i < |items| { ItemSmaller(items, i); }
  }

  lemma FieldsSmaller(fields: seq<Field>)
    ensures forall i :: 0 <= i < |fields| ==> Size(fields[i].value) < Size(JObj(fields))
  {
    forall i | 0 <= i < |fields| { FieldSmaller(fields, i); }
  }

  // ---------------------------------------------------------------------
  // Own properties of objects

  predicate HasKey(fields: seq<Field>, key: string) {
    exists i :: 0 <= i < |fields| && fields[i].key == key
  }

  /** The own property `key` of an object, `None` when it has none. */
  function Get(fields: seq<Field>, key: string): (r: Option<Json>)
    ensures r.Some? <==> HasKey(fields, key)
    ensures r.Some? ==> Field(key, r.value) in fields
  {
    if fields == [] then None
    else if fields[0].key == key then Some(fields[0].value)
    else
      assert HasKey(fields, key) <==> HasKey(fields[1..], key) by {
        if HasKey(fields, key) {
          var i :| 0 <= i < |fields| && fields[i].key == key;
          assert fields[1..][i - 1] == fields[i];
        }
        if HasKey(fields[1..], key) {
          var i :| 0 <= i < |fields[1..]| && fields[1..][i].key == key;
          assert fields[i + 1] == fields[1..][i];
        }
      }
      Get(fields[1..], key)
  }

  function Keys(fields: seq<Field>): seq<string> {
    if fields == [] then [] else [fields[0].key] + Keys(fields[1..])
  }

  predicate DistinctKeys(fields: seq<Field>) {
    forall i, j :: 0 <= i < j < |fields| ==> fields[i].key != fields[j].key
  }

  /** Decimal value of a non-empty digit string. */
  function DigitsValue(s: string): nat
    requires forall i :: 0 <= i < |s| ==> '0' <= s[i] <= '9'
  {
    if s == [] then 0 else 10 * DigitsValue(s[..|s| - 1]) + (s[|s| - 1] as int - '0' as int)
  }

  predicate AllDigits(s: string) {
    forall i :: 0 <= i < |s| ==> '0' <= s[i] <= '9'
  }

  /** A canonical array index: "0", or digits without a leading zero, below 2^32 - 1. */
  predicate IsArrayIndex(k: string) {
    && |k| > 0 && AllDigits(k)
    && (k[0] == '0' ==> k == "0")
    && DigitsValue(k) < 0xFFFF_FFFF
  }

  function IndexOf(k: string): nat
    requires IsArrayIndex(k)
  {
    DigitsValue(k)
  }

  /**
   * The order ordinary objects keep their own properties in: distinct keys,
   * array indices first and ascending, then the other keys.
   */
  predicate PropertyOrder(fields: seq<Field>) {
    && DistinctKeys(fields)
    && forall i, j :: 0 <= i < j < |fields| && IsArrayIndex(fields[j].key) ==>
         IsArrayIndex(fields[i].key) && IndexOf(fields[i].key) < IndexOf(fields[j].key)
  }

  /** Every object inside `v` keeps its properties in property order. */
  predicate WellFormed(v: Json) decreases Size(v) {
    match v
    case JArr(items) =>
      forall i :: 0 <= i < |items| ==> (ItemSmaller(items, i); WellFormed(items[i]))
    case JObj(fields) =>
      PropertyOrder(fields) &&
      forall i :: 0 <= i < |fields| ==> (FieldSmaller(fields, i); WellFormed(fields[i].value))
    case _ => true
  }

  function Replace(fields: seq<Field>, key: string, value: Json): (r: seq<Field>)
    ensures |r| == |fields|
    ensures forall i :: 0 <= i < |r| ==> r[i].key == fields[i].key
  {
    if fields == [] then []
    else if fields[0].key == key then [Field(key, value)] + fields[1..]
    else [fields[0]] + Replace(fields[1..], key, value)
  }

  /** Inserts an array-index key before the first larger index or first non-index key. */
  function InsertIndex(fields: seq<Field>, key: string, value: Json): (r: seq<Field>)
    requires IsArrayIndex(key)
    ensures |r| == |fields| + 1
  {
    if fields == [] || !IsArrayIndex(fields[0].key) || IndexOf(fields[0].key) > IndexOf(key) then
      [Field(key, value)] + fields
    else
      [fields[0]] + InsertIndex(fields[1..], key, value)
  }

  /**
   * CreateDataProperty on an ordinary object: an existing key keeps its
   * place and takes the new value; a new array index goes among the indices
   * in ascending order; any other new key goes last.
   */
  function Define(fields: seq<Field>, key: string, value: Json): seq<Field> {
    if HasKey(fields, key) then Replace(fields, key, value)
    else if IsArrayIndex(key) then InsertIndex(fields, key, value)
    else fields + [Field(key, value)]
  }

  /** Object.fromEntries over a list of entries. */
  function FromEntries(entries: seq<Field>): seq<Field> {
    if entries == [] then []
    else Define(FromEntries(entries[..|entries| - 1]), entries[|entries| - 1].key, entries[|entries| - 1].value)
  }

  /** The value the last entry named `key` carries, if any. */
  function LastValue(entries: seq<Field>, key: string): (r: Option<Json>)
    ensures r.Some? <==> HasKey(entries, key)
  {
    if entries == [] then None
    else
      var init := entries[..|entries| - 1];
      assert HasKey(entries, key) <==> entries[|entries| - 1].key == key || HasKey(init, key) by {
        if HasKey(entries, key) && entries[|entries| - 1].key != key {
          var i :| 0 <= i < |entries| && entries[i].key == key;
          assert init[i] == entries[i];
        }
        if HasKey(init, key) {
          var i :| 0 <= i < |init| && init[i].key == key;
          assert entries[i] == init[i];
        }
      }
      if entries[|entries| - 1].key == key then Some(entries[|entries| - 1].value)
      else LastValue(init, key)
  }

  lemma HasKeyCons(fields: seq<Field>, key: string)
    requires fields != []
    ensures HasKey(fields, key) <==> fields[0].key == key || HasKey(fields[1..], key)
  {
    if HasKey(fields, key) && fields[0].key != key {
      var i :| 0 <= i < |fields| && fields[i].key == key;
      assert fields[1..][i - 1] == fields[i];
    }
    if HasKey(fields[1..], key) {
      var i :| 0 <= i < |fields[1..]| && fields[1..][i].key == key;
      assert fields[i + 1] == fields[1..][i];
    }
  }

  lemma GetCons(x: Field, rest: seq<Field>, k: string)
    ensures Get([x] + rest, k) == if x.key == k then Some(x.value) else Get(rest, k)
  {
    assert ([x] + rest)[0] == x;
    assert ([x] + rest)[1..] == rest;
  }

  lemma {:induction false} GetAppend(fields: seq<Field>, key: string, value: Json, k: string)
    requires !HasKey(fields, key)
    ensures Get(fields + [Field(key, value)], k) == if k == key then Some(value) else Get(fields, k)
  {
    if fields == [] {
      GetCons(Field(key, value), [], k);
    } else {
      HasKeyCons(fields, key);
      assert fields + [Field(key, value)] == [fields[0]] + (fields[1..] + [Field(key, value)]);
      GetCons(fields[0], fields[1..] + [Field(key, value)], k);
      GetAppend(fields[1..], key, value, k);
      assert fields == [fields[0]] + fields[1..];
      GetCons(fields[0], fields[1..], k);
    }
  }

  lemma {:induction false} GetReplace(fields: seq<Field>, key: string, value: Json, k: string)
    requires HasKey(fields, key)
    ensures Get(Replace(fields, key, value), k) == if k == key then Some(value) else Get(fields, k)
  {
    assert fields == [fields[0]] + fields[1..];
    GetCons(fields[0], fields[1..], k);
    if fields[0].key == key {
      GetCons(Field(key, value), fields[1..], k);
    } else {
      HasKeyCons(fields, key);
      GetCons(fields[0], Replace(fields[1..], key, value), k);
      GetReplace(fields[1..], key, value, k);
    }
  }

  lemma {:induction false} GetInsertIndex(fields: seq<Field>, key: string, value: Json, k: string)
    requires IsArrayIndex(key) && !HasKey(fields, key)
    ensures Get(InsertIndex(fields, key, value), k) == if k == key then Some(value) else Get(fields, k)
  {
    if fields == [] || !IsArrayIndex(fields[0].key) || IndexOf(fields[0].key) > IndexOf(key) {
      GetCons(Field(key, value), fields, k);
    } else {
      HasKeyCons(fields, key);
      assert fields == [fields[0]] + fields[1..];
      GetCons(fields[0], fields[1..], k);
      GetCons(fields[0], InsertIndex(fields[1..], key, value), k);
      GetInsertIndex(fields[1..], key, value, k);
    }
  }

  /** After CreateDataProperty, `key` reads the new value and every other key reads as before. */
  lemma GetDefine(fields: seq<Field>, key: string, value: Json, k: string)
    ensures Get(Define(fields, key, value), k) == if k == key then Some(value) else Get(fields, k)
  {
    if HasKey(fields, key) {
      GetReplace(fields, key, value, k);
    } else if IsArrayIndex(key) {
      GetInsertIndex(fields, key, value, k);
    } else {
      GetAppend(fields, key, value, k);
    }
  }

  /** Object.fromEntries: each key reads the value of the last entry with that key. */
  lemma {:induction false} GetFromEntries(entries: seq<Field>, k: string)
    ensures Get(FromEntries(entries), k) == LastValue(entries, k)
  {
    if entries != [] {
      var last := entries[|entries| - 1];
      GetDefine(FromEntries(entries[..|entries| - 1]), last.key, last.value, k);
      GetFromEntries(entries[..|entries| - 1], k);
    }
  }

  /** Every value in `fields` has size below `bound`. */
  predicate AllBelow(fields: seq<Field>, bound: nat) {
    forall i :: 0 <= i < |fields| ==> Size(fields[i].value) < bound
  }

  lemma GetBelow(fields: seq<Field>, key: string, bound: nat)
    requires AllBelow(fields, bound) && HasKey(fields, key)
    ensures Size(Get(fields, key).value) < bound
  {
    var i :| 0 <= i < |fields| && fields[i] == Field(key, Get(fields, key).value);
  }

  lemma {:induction false} DefineBelow(fields: seq<Field>, key: string, value: Json, bound: nat)
    requires AllBelow(fields, bound) && Size(value) < bound
    ensures AllBelow(Define(fields, key, value), bound)
  {
    if HasKey(fields, key) {
      ReplaceBelow(fields, key, value, bound);
    } else if IsArrayIndex(key) {
      InsertIndexBelow(fields, key, value, bound);
    }
  }

  lemma {:induction false} ReplaceBelow(fields: seq<Field>, key: string, value: Json, bound: nat)
    requires AllBelow(fields, bound) && Size(value) < bound
    ensures AllBelow(Replace(fields, key, value), bound)
  {
    if fields != [] && fields[0].key != key {
      ReplaceBelow(fields[1..], key, value, bound);
    }
  }

  lemma {:induction false} InsertIndexBelow(fields: seq<Field>, key: string, value: Json, bound: nat)
    requires IsArrayIndex(key) && AllBelow(fields, bound) && Size(value) < bound
    ensures AllBelow(InsertIndex(fields, key, value), bound)
  {
    if !(fields == [] || !IsArrayIndex(fields[0].key) || IndexOf(fields[0].key) > IndexOf(key)) {
      InsertIndexBelow(fields[1..], key, value, bound);
    }
  }

  lemma {:induction false} FromEntriesBelow(entries: seq<Field>, bound: nat)
    requires AllBelow(entries, bound)
    ensures AllBelow(FromEntries(entries), bound)
  {
    if entries != [] {
      var last := entries[|entries| - 1];
      FromEntriesBelow(entries[..|entries| - 1], bound);
      DefineBelow(FromEntries(entries[..|entries| - 1]), last.key, last.value, bound);
    }
  }

  /** Array.prototype.join over strings. */
  function Join(parts: seq<string>, sep: string): string {
    if parts == [] then ""
    else if |parts| == 1 then parts[0]
    else Join(parts[..|parts| - 1], sep) + sep + parts[|parts| - 1]
  }

  /** Names every ordinary object inherits from Object.prototype. */
  const ObjectPrototypeNames: set<string> := {
    "constructor", "__defineGetter__", "__defineSetter__", "hasOwnProperty",
    "__lookupGetter__", "__lookupSetter__", "isPrototypeOf",
    "propertyIsEnumerable", "toString", "valueOf", "__proto__", "toLocaleString"
  }

  // ---------------------------------------------------------------------
  // Truthiness, nullish coalescing and property reads

  predicate Truthy(v: Json) {
    match v
    case JNull => false
    case JBool(b) => b
    case JNum(n) => n != 0
    case JStr(s) => s != ""
    case _ => true
  }

  predicate TruthyOpt(v: Option<Json>) {
    v.Some? && Truthy(v.value)
  }

  predicate Nullish(v: Option<Json>) {
    v.None? || v.value.JNull?
  }

  /** `a ?? b` */
  function Coalesce(a: Option<Json>, b: Option<Json>): (r: Option<Json>)
    ensures !Nullish(a) ==> r == a
    ensures Nullish(a) ==> r == b
  {
    if Nullish(a) then b else a
  }

  /**
   * `v.key` for a key that no primitive wrapper, array or Object.prototype
   * provides (all keys the modelled code reads this way are such keys).
   */
  function Prop(v: Json, key: string): (r: Result<Option<Json>>)
    ensures v.JNull? <==> r.Err?
    ensures v.JObj? ==> r == Ok(Get(v.fields, key))
    ensures !v.JNull? && !v.JObj? ==> r == Ok(None)
  {
    match v
    case JNull => Err(TypeError)
    case JObj(fields) => Ok(Get(fields, key))
    case _ => Ok(None)
  }

  /** `v.key` on a possibly undefined value. */
  function PropOpt(v: Option<Json>, key: string): Result<Option<Json>> {
    if v.None? then Err(TypeError) else Prop(v.value, key)
  }

  /** The values `for (x of v)` visits: array items, or the characters of a string. */
  function Iterate(v: Json): (r: Result<seq<Json>>)
    ensures v.JArr? ==> r == Ok(v.items)
    ensures v.JStr? ==> r.Ok? && |r.value| == |v.s| &&
                        forall i :: 0 <= i < |v.s| ==> r.value[i] == JStr([v.s[i]])
    ensures !v.JArr? && !v.JStr? ==> r == Err(TypeError)
  {
    match v
    case JArr(items) => Ok(items)
    case JStr(s) => Ok(seq(|s|, i requires 0 <= i < |s| => JStr([s[i]])))
    case _ => Err(TypeError)
  }

  // ---------------------------------------------------------------------
  // Number and string conversion

  function DigitChar(d: nat): char
    requires d < 10
  {
    ('0' as int + d) as char
  }

  /** Decimal digits of a natural number, without leading zeros. */
  function NatToDecimal(n: nat): (r: string)
    ensures |r| >= 1 && AllDigits(r)
    ensures DigitsValue(r) == n
    ensures n < 10 <==> |r| == 1
    ensures r[0] == '0' ==> n == 0
  {
    if n < 10 then [DigitChar(n)]
    else
      var r := NatToDecimal(n / 10) + [DigitChar(n % 10)];
      assert r[..|r| - 1] == NatToDecimal(n / 10);
      r
  }

  /** Number.prototype.toString() for an integer. */
  function Decimal(n: int): string {
    if n < 0 then "-" + NatToDecimal(-n) else NatToDecimal(n)
  }

  /**
   * ToString(v) as a template literal or String(v) applies it. A parsed
   * object has no callable own `toString`; if it has such a key at all,
   * conversion finds nothing callable and throws.
   */
  function ToStr(v: Option<Json>): Result<string> {
    match v
    case None => Ok("undefined")
    case Some(j) => JsonToString(j)
  }

  function JsonToString(v: Json): (r: Result<string>)
    decreases Size(v), 1
    ensures v.JStr? ==> r == Ok(v.s)
    ensures v.JObj? ==> (r.Err? <==> HasKey(v.fields, "toString"))
  {
    match v
    case JNull => Ok("null")
    case JBool(b) => Ok(if b then "true" else "false")
    case JNum(n) => Ok(Decimal(n))
    case JStr(s) => Ok(s)
    case JArr(items) => ItemsSmaller(items); JoinItems(items, ",", v)
    case JObj(fields) => if HasKey(fields, "toString") then Err(TypeError) else Ok("[object Object]")
  }

  /** The string `join` makes of one element: "" for null, ToString otherwise. */
  function JoinPart(v: Json): Result<string>
    decreases Size(v), 2
  {
    if v.JNull? then Ok("") else JsonToString(v)
  }

  /** Array.prototype.join(sep) over `items`, items of `parent`. */
  function JoinItems(items: seq<Json>, sep: string, ghost parent: Json): Result<string>
    requires forall i :: 0 <= i < |items| ==> Size(items[i]) < Size(parent)
    decreases Size(parent), 0, |items|
  {
    if items == [] then Ok("")
    else
      match JoinPart(items[0])
      case Err(e) => Err(e)
      case Ok(head) =>
        if |items| == 1 then Ok(head)
        else
          match JoinItems(items[1..], sep, parent)
          case Err(e) => Err(e)
          case Ok(tail) => Ok(head + sep + tail)
  }

  /** Whitespace and line terminators that Number(string) trims. */
  predicate IsJsSpace(c: char) {
    var u := c as int;
    u == 0x20 || (0x09 <= u <= 0x0D) || u == 0xA0 || u == 0x1680 ||
    (0x2000 <= u <= 0x200A) || u == 0x2028 || u == 0x2029 || u == 0x202F ||
    u == 0x205F || u == 0x3000 || u == 0xFEFF
  }

  function TrimStart(s: string): (r: string)
    ensures |r| <= |s|
  {
    if s != [] && IsJsSpace(s[0]) then TrimStart(s[1..]) else s
  }

  function TrimEnd(s: string): (r: string)
    ensures |r| <= |s|
  {
    if s != [] && IsJsSpace(s[|s| - 1]) then TrimEnd(s[..|s| - 1]) else s
  }

  /**
   * Number(s) for the strings this model gives a value: surrounding white
   * space, then nothing (0) or an optionally signed run of decimal digits.
   * Every other string is taken as NaN (None).
   */
  function StringToNumber(s: string): Option<int> {
    var t := TrimEnd(TrimStart(s));
    if t == "" then Some(0)
    else if AllDigits(t) then Some(DigitsValue(t))
    else if |t| > 1 && (t[0] == '-' || t[0] == '+') && AllDigits(t[1..]) then
      var m: int := DigitsValue(t[1..]);
      Some(if t[0] == '-' then -m else m)
    else None
  }

  predicate IsObject(v: Json) {
    v.JArr? || v.JObj?
  }

  function BoolCount(v: Option<Json>): nat {
    if v.Some? && v.value.JBool? then 1 else 0
  }

  /**
   * `a == b`. Two object operands are never the same object here (they come
   * from different parses), so they compare unequal. An object against a
   * primitive is converted to its string first, which may throw.
   */
  function LooseEquals(a: Option<Json>, b: Option<Json>): Result<bool>
    decreases SizeOpt(a) + SizeOpt(b), BoolCount(a) + BoolCount(b)
  {
    if Nullish(a) || Nullish(b) then Ok(Nullish(a) && Nullish(b))
    else
      var x, y := a.value, b.value;
      if IsObject(x) && IsObject(y) then Ok(false)
      else if x.JBool? then LooseEquals(Some(JNum(if x.b then 1 else 0)), b)
      else if y.JBool? then LooseEquals(a, Some(JNum(if y.b then 1 else 0)))
      else if IsObject(x) then
        match JsonToString(x)
        case Err(e) => Err(e)
        case Ok(s) => LooseEquals(Some(JStr(s)), b)
      else if IsObject(y) then
        match JsonToString(y)
        case Err(e) => Err(e)
        case Ok(s) => LooseEquals(a, Some(JStr(s)))
      else if x.JNum? && y.JStr? then Ok(StringToNumber(y.s) == Some(x.n))
      else if x.JStr? && y.JNum? then Ok(StringToNumber(x.s) == Some(y.n))
      else Ok(x == y)
  }

  /** `a === b`; distinct objects are never identical. */
  predicate StrictEquals(a: Option<Json>, b: Option<Json>) {
    if a.None? || b.None? then a.None? && b.None?
    else !IsObject(a.value) && a.value == b.value
  }
}
