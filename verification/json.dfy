/** Parsed JSON values as Python holds them after `json.loads`, and the Python
    operations the modelled code applies to them: `d.get(k, default)`,
    truthiness, `<`, `+ 1`, `str()` and `repr()`. */
module PyJson {
  import opened Wrappers
  import opened Strs

  /** An object is the dict's key/value list in iteration (insertion) order.
      Floating-point numbers are not modelled. */
  datatype Json =
    | JNull
    | JBool(b: bool)
    | JNum(n: int)
    | JStr(s: string)
    | JArr(items: seq<Json>)
    | JObj(fields: seq<(string, Json)>)

  /** `d.get(key)`: the value stored under `key`, if any (first entry wins). */
  function Lookup(fields: seq<(string, Json)>, key: string): (r: Option<Json>)
    ensures r.Some? <==> exists i :: 0 <= i < |fields| && fields[i].0 == key
    ensures r.Some? ==> exists i :: 0 <= i < |fields| && fields[i] == (key, r.value)
  {
    if |fields| == 0 then None
    else if fields[0].0 == key then Some(fields[0].1)
    else
      var r := Lookup(fields[1..], key);
      assert forall i :: 0 <= i < |fields| - 1 ==> fields[1..][i] == fields[i + 1];
      r
  }

  /** `d.get(key, default)`. */
  function Get(fields: seq<(string, Json)>, key: string, default: Json): Json {
    Lookup(fields, key).GetOr(default)
  }

  function Keys(fields: seq<(string, Json)>): (ks: seq<string>)
    ensures |ks| == |fields|
    ensures forall i :: 0 <= i < |fields| ==> ks[i] == fields[i].0
  {
    if |fields| == 0 then [] else [fields[0].0] + Keys(fields[1..])
  }

  /** Python truthiness: None, False, 0, "" and empty containers are falsy. */
  predicate Truthy(v: Json) {
    match v
    case JNull => false
    case JBool(b) => b
    case JNum(n) => n != 0
    case JStr(s) => |s| > 0
    case JArr(items) => |items| > 0
    case JObj(fields) => |fields| > 0
  }

  /** bool is a subclass of int in Python: True == 1, False == 0. */
  predicate IsNumber(v: Json) {
    v.JNum? || v.JBool?
  }

  function NumberValue(v: Json): int
    requires IsNumber(v)
  {
    if v.JNum? then v.n else if v.b then 1 else 0
  }

  /** Code-point lexicographic order of Python strings. */
  predicate StrLess(a: string, b: string) {
    if |a| == 0 then |b| > 0
    else if |b| == 0 then false
    else if a[0] == b[0] then StrLess(a[1..], b[1..])
    else a[0] < b[0]
  }

  /** `a < b`; None stands for the TypeError Python raises on unorderable
      operands (None, containers, mixed numbers and strings). */
  function Less(a: Json, b: Json): (r: Option<bool>)
    ensures r.Some? <==> (IsNumber(a) && IsNumber(b)) || (a.JStr? && b.JStr?)
    ensures IsNumber(a) && IsNumber(b) ==> r == Some(NumberValue(a) < NumberValue(b))
  {
    if IsNumber(a) && IsNumber(b) then Some(NumberValue(a) < NumberValue(b))
    else if a.JStr? && b.JStr? then Some(StrLess(a.s, b.s))
    else None
  }

  /** `v + 1`; None stands for the TypeError raised for non-numbers. */
  function PlusOne(v: Json): (r: Option<Json>)
    ensures r.Some? <==> IsNumber(v)
    ensures r.Some? ==> r.value == JNum(NumberValue(v) + 1)
  {
    if IsNumber(v) then Some(JNum(NumberValue(v) + 1)) else None
  }

  /** `str(v)`: strings are themselves, everything else is its repr. */
  function Str(v: Json): (r: string)
    ensures v.JStr? ==> r == v.s
    ensures v.JNum? ==> r == IntStr(v.n)
  {
    if v.JStr? then v.s else Repr(v)
  }

  /** `<` on strings is a strict total order: irreflexive, asymmetric,
      transitive, and any two different strings are ordered one way. */
  lemma {:induction false} StrLessIsStrictTotalOrder(a: string, b: string, c: string)
    ensures !StrLess(a, a)
    ensures StrLess(a, b) ==> !StrLess(b, a)
    ensures a != b ==> StrLess(a, b) || StrLess(b, a)
    ensures StrLess(a, b) && StrLess(b, c) ==> StrLess(a, c)
  {
    if |a| > 0 {
      StrLessIsStrictTotalOrder(a[1..], a[1..], a[1..]);
    }
    if |a| > 0 && |b| > 0 {
      if a[0] == b[0] {
        StrLessIsStrictTotalOrder(a[1..], b[1..], b[1..]);
        if a != b {
          assert a == [a[0]] + a[1..] && b == [b[0]] + b[1..];
        }
      }
      if |c| > 0 && a[0] == b[0] && b[0] == c[0] {
        StrLessIsStrictTotalOrder(a[1..], b[1..], c[1..]);
      }
    }
  }

  /** `<` orders any operands of one comparable kind (all numbers, or all
      strings) strictly and totally: never `a < a`, never both `a < b` and
      `b < a`, `a < b < c` gives `a < c`, and operands ordered neither way
      are equal (numbers by value, so `True` and `1` are). */
  lemma LessIsStrictTotalOrder(a: Json, b: Json, c: Json)
    requires (IsNumber(a) && IsNumber(b) && IsNumber(c)) || (a.JStr? && b.JStr? && c.JStr?)
    ensures Less(a, a) == Some(false)
    ensures Less(a, b) == Some(true) ==> Less(b, a) == Some(false)
    ensures Less(a, b) == Some(true) && Less(b, c) == Some(true) ==> Less(a, c) == Some(true)
    ensures Less(a, b) == Some(false) && Less(b, a) == Some(false) ==>
      if IsNumber(a) then NumberValue(a) == NumberValue(b) else a == b
  {
    if a.JStr? {
      StrLessIsStrictTotalOrder(a.s, b.s, c.s);
    }
  }

  /** `str()` of a natural number is a digit string that `int()` reads back
      as the same number. */
  lemma StrNumeralReadsBack(n: nat)
    ensures IsDigits(Str(JNum(n)))
    ensures DigitsValue(Str(JNum(n))) == n
  {
    DigitsValueDecimal(n);
  }

  /** `repr(v)`, with strings always in single quotes (Python's choice of
      double quotes and its escapes are not modelled). */
  function Repr(v: Json): string
    decreases v, 1
  {
    match v
    case JNull => "None"
    case JBool(b) => if b then "True" else "False"
    case JNum(n) => IntStr(n)
    case JStr(s) => "'" + s + "'"
    case JArr(items) => "[" + ReprItems(items) + "]"
    case JObj(fields) => "{" + ReprFields(fields) + "}"
  }

  function ReprItems(items: seq<Json>): string
    decreases items, 0
  {
    if |items| == 0 then ""
    else if |items| == 1 then Repr(items[0])
    else Repr(items[0]) + ", " + ReprItems(items[1..])
  }

  function ReprFields(fields: seq<(string, Json)>): string
    decreases fields, 0
  {
    if |fields| == 0 then ""
    else
      var (key, value) := fields[0];
      assert value < fields[0];
      var entry := "'" + key + "': " + Repr(value);
      if |fields| == 1 then entry else entry + ", " + ReprFields(fields[1..])
  }
}
