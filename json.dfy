/** Decoded JSON values as Python sees them after `response.json()`, with the
    Python operations the request logic applies to them: truthiness, `dict.get`,
    `a or b or c`, iteration, slicing and `str()`. */
module Json {
  import opened Wrappers
  import opened Text

  /** A decoded JSON value. Objects keep their keys in insertion order, as a Python
      dict does; numbers are integers. */
  datatype Value =
    | Null
    | Bool(b: bool)
    | Int(i: int)
    | Str(s: string)
    | Arr(items: seq<Value>)
    | Obj(fields: seq<Field>)

  datatype Field = Field(key: string, val: Value)

  /** Python truthiness: `None`, `False`, `0`, `""`, `[]` and `{}` are false. */
  predicate Truthy(v: Value) {
    match v
    case Null => false
    case Bool(b) => b
    case Int(i) => i != 0
    case Str(s) => s != ""
    case Arr(items) => items != []
    case Obj(fields) => fields != []
  }

  /** `d.get(key)` on a dict: the value stored under `key`, or `None` when it is absent. */
  function Get(d: Value, key: string): Value
    requires d.Obj?
  {
    FieldValue(d.fields, key)
  }

  function FieldValue(fields: seq<Field>, key: string): Value {
    if fields == [] then Null
    else if fields[0].key == key then fields[0].val
    else FieldValue(fields[1..], key)
  }

  /** A value other than `None` is stored under `key`; when no field has the key the
      result is `None`. */
  lemma {:induction false} FieldValueFound(fields: seq<Field>, key: string)
    ensures FieldValue(fields, key) != Null ==>
              exists i :: 0 <= i < |fields| && fields[i] == Field(key, FieldValue(fields, key))
    ensures (forall i :: 0 <= i < |fields| ==> fields[i].key != key) ==> FieldValue(fields, key) == Null
  {
    if fields != [] && fields[0].key != key {
      FieldValueFound(fields[1..], key);
      assert forall i :: 0 <= i < |fields| - 1 ==> fields[1..][i] == fields[i + 1];
    }
  }

  /** The value under the first field whose key is `key`. */
  lemma {:induction false} FirstWithKey(fields: seq<Field>, n: nat, key: string)
    requires n < |fields| && fields[n].key == key
    requires forall i :: 0 <= i < n ==> fields[i].key != key
    ensures FieldValue(fields, key) == fields[n].val
  {
    if n > 0 {
      assert fields[1..][n - 1] == fields[n];
      assert forall i :: 0 <= i < n - 1 ==> fields[1..][i] == fields[i + 1];
      FirstWithKey(fields[1..], n - 1, key);
    }
  }

  /** Python's `vs[0] or vs[1] or ... or vs[n-1]`: the first truthy operand, or the
      last operand when none is truthy. */
  function FirstTruthy(vs: seq<Value>): (r: Value)
    requires |vs| > 0
    ensures exists i :: 0 <= i < |vs| && r == vs[i]
                        && (forall j :: 0 <= j < i ==> !Truthy(vs[j]))
                        && (Truthy(vs[i]) || i == |vs| - 1)
  {
    if |vs| == 1 || Truthy(vs[0]) then vs[0]
    else
      var r := FirstTruthy(vs[1..]);
      assert forall j :: 0 <= j < |vs| - 1 ==> vs[1..][j] == vs[j + 1];
      r
  }

  /** `d.get(k0) or d.get(k1) or ...` for the keys `ks`, in order. */
  function GetFirst(d: Value, ks: seq<string>): Value
    requires d.Obj? && |ks| > 0
  {
    FirstTruthy(seq(|ks|, i requires 0 <= i < |ks| => Get(d, ks[i])))
  }

  /** The chain stops at the first key whose value is truthy, and gives the last
      key's value when none is. */
  lemma GetFirstHit(d: Value, ks: seq<string>, n: nat)
    requires d.Obj? && n < |ks|
    requires forall j :: 0 <= j < n ==> !Truthy(Get(d, ks[j]))
    requires Truthy(Get(d, ks[n])) || n == |ks| - 1
    ensures GetFirst(d, ks) == Get(d, ks[n])
  {
    var vs := seq(|ks|, i requires 0 <= i < |ks| => Get(d, ks[i]));
    assert forall j :: 0 <= j < |ks| ==> vs[j] == Get(d, ks[j]);
    var i :| 0 <= i < |vs| && FirstTruthy(vs) == vs[i]
             && (forall j :: 0 <= j < i ==> !Truthy(vs[j])) && (Truthy(vs[i]) || i == |vs| - 1);
    assert i == n;
  }

  /** The elements a Python `for` loop visits: a list's items, a string's characters,
      a dict's keys; `None`, booleans and numbers are not iterable. */
  function Elements(v: Value): Option<seq<Value>> {
    match v
    case Arr(items) => Some(items)
    case Str(s) => Some(seq(|s|, i requires 0 <= i < |s| => Str([s[i]])))
    case Obj(fields) => Some(seq(|fields|, i requires 0 <= i < |fields| => Str(fields[i].key)))
    case _ => None
  }

  /** Iterating `v[:n]`: the first `n` items of a list or characters of a string.
      Slicing a dict, a number or a boolean raises. */
  function SliceElements(v: Value, n: nat): Option<seq<Value>> {
    match v
    case Arr(items) => Some(if |items| <= n then items else items[..n])
    case Str(s) =>
      var t := if |s| <= n then s else s[..n];
      Some(seq(|t|, i requires 0 <= i < |t| => Str([t[i]])))
    case _ => None
  }

  function HexDigit(d: nat): char
    requires d < 16
  {
    if d < 10 then DigitChar(d) else ('a' as int + d - 10) as char
  }

  /** One character of a string's `repr`, inside the quote `q`. */
  function EscapeChar(c: char, q: char): string {
    if c == '\\' then "\\\\"
    else if c == q then ['\\', q]
    else if c == '\t' then "\\t"
    else if c == '\n' then "\\n"
    else if c == '\r' then "\\r"
    else if c < ' ' || c == '\U{7F}' then ['\\', 'x', HexDigit(c as int / 16), HexDigit(c as int % 16)]
    else [c]
  }

  /** `repr(s)` for a string: double quotes only when `s` holds a single quote and
      no double quote, single quotes otherwise. */
  function QuoteString(s: string): string {
    var q := if '\'' in s && '"' !in s then '"' else '\'';
    [q] + Escaped(s, q) + [q]
  }

  function Escaped(s: string, q: char): string {
    if s == [] then "" else EscapeChar(s[0], q) + Escaped(s[1..], q)
  }

  /** Python's `str(v)`. */
  function Render(v: Value): string
    decreases v, 0
  {
    match v
    case Null => "None"
    case Bool(b) => if b then "True" else "False"
    case Int(i) => IntToString(i)
    case Str(s) => s
    case Arr(items) =>
      "[" + Join(", ", seq(|items|, i requires 0 <= i < |items| => Repr(items[i]))) + "]"
    case Obj(fields) =>
      "{" + Join(", ", seq(|fields|, i requires 0 <= i < |fields| =>
                             QuoteString(fields[i].key) + ": " + Repr(fields[i].val))) + "}"
  }

  /** Python's `repr(v)`, which differs from `str(v)` only on strings. */
  function Repr(v: Value): string
    decreases v, 1
  {
    if v.Str? then QuoteString(v.s) else Render(v)
  }
}
