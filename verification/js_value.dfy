/**
 * The JSON-like trees the runtime reads (a parsed YAML document, a plugin
 * definition), and the few JavaScript operations it applies to them:
 * truthiness, `typeof x === 'object'`, property lookup, `Object.keys`,
 * `String(x)`, `a || b` and `String.prototype.trim`.
 *
 * `Null` stands for both `null` and `undefined`: every place the runtime
 * tests `typeof x === 'object'` first tests `x` for truthiness, so the two
 * are never told apart. Numbers are integers (see README, "Left out").
 */
module JsValue {

  datatype Value =
    | Null
    | Bool(b: bool)
    | Int(n: int)
    | Str(s: string)
    | Arr(items: seq<Value>)
    | Obj(fields: seq<(string, Value)>)

  /** JavaScript truthiness: `null`, `false`, `0` and `''` are falsy. */
  predicate Truthy(v: Value) {
    match v
    case Null => false
    case Bool(b) => b
    case Int(n) => n != 0
    case Str(s) => s != ""
    case Arr(_) => true
    case Obj(_) => true
  }

  /** `typeof v === 'object'` for a value that is not null: arrays and plain objects. */
  predicate IsObject(v: Value) {
    v.Arr? || v.Obj?
  }

  /** `a || b` */
  function Or(a: Value, b: Value): (r: Value)
    ensures r == a || r == b
    ensures Truthy(a) ==> r == a
    ensures Truthy(b) ==> Truthy(r)
  {
    if Truthy(a) then a else b
  }

  /** First binding of `key` in an ordered field list, or `Null` (undefined). */
  function Lookup(fields: seq<(string, Value)>, key: string): (r: Value)
    ensures r != Null ==> exists i :: 0 <= i < |fields| && fields[i] == (key, r)
  {
    if |fields| == 0 then Null
    else if fields[0].0 == key then fields[0].1
    else Lookup(fields[1..], key)
  }

  /** The first field named `key` is the one found. */
  lemma {:induction false} LookupFirst(fields: seq<(string, Value)>, key: string, i: nat)
    requires i < |fields| && fields[i].0 == key
    requires forall j :: 0 <= j < i ==> fields[j].0 != key
    ensures Lookup(fields, key) == fields[i].1
  {
    if i > 0 {
      LookupFirst(fields[1..], key, i - 1);
    }
  }

  /** A key no field carries is undefined. */
  lemma {:induction false} LookupAbsent(fields: seq<(string, Value)>, key: string)
    requires forall j :: 0 <= j < |fields| ==> fields[j].0 != key
    ensures Lookup(fields, key) == Null
  {
    if |fields| > 0 {
      LookupAbsent(fields[1..], key);
    }
  }

  /** A field added after the others does not change the lookup of another key. */
  lemma {:induction false} LookupAppendOther(fields: seq<(string, Value)>, k: string, v: Value, key: string)
    requires k != key
    ensures Lookup(fields + [(k, v)], key) == Lookup(fields, key)
  {
    if |fields| == 0 {
      assert fields + [(k, v)] == [(k, v)];
      assert Lookup([(k, v)], key) == Lookup([(k, v)][1..], key);
    } else {
      assert (fields + [(k, v)])[1..] == fields[1..] + [(k, v)];
      LookupAppendOther(fields[1..], k, v, key);
    }
  }

  /**
   * `v[key]` for the named (non-index) keys the runtime queries. Arrays,
   * strings, numbers and booleans have none of these keys; the one inherited
   * member the runtime can observe, `String.prototype.bold`, is dealt with
   * where it is read (Render.RenderText).
   */
  function Get(v: Value, key: string): (r: Value)
    ensures r != Null ==> v.Obj?
  {
    if v.Obj? then Lookup(v.fields, key) else Null
  }

  /** The number a string of decimal digits denotes (a non-digit counts as 0). */
  function DigitsValue(s: string): nat {
    if |s| == 0 then 0
    else
      var c := s[|s| - 1];
      DigitsValue(s[..|s| - 1]) * 10 + (if '0' <= c <= '9' then c as int - '0' as int else 0)
  }

  /** `String(n)` for a natural number: its decimal digits, without leading zeros. */
  function NatToString(n: nat): (r: string)
    ensures |r| >= 1
    ensures forall i :: 0 <= i < |r| ==> '0' <= r[i] <= '9'
    ensures DigitsValue(r) == n
    ensures |r| == 1 || r[0] != '0'
  {
    if n < 10 then
      assert DigitsValue([Digit(n)]) == DigitsValue([]) * 10 + n;
      [Digit(n)]
    else
      var r := NatToString(n / 10) + [Digit(n % 10)];
      assert r[..|r| - 1] == NatToString(n / 10);
      r
  }

  /** The decimal digit character for `k`. */
  function Digit(k: nat): (c: char)
    requires k < 10
    ensures '0' <= c <= '9' && c as int - '0' as int == k
  {
    ('0' as int + k) as char
  }

  function IntToString(n: int): string {
    if n < 0 then "-" + NatToString(-n) else NatToString(n)
  }

  /**
   * `Object.keys(v)` paired with the values, for a value `typeof` calls
   * 'object': the fields of an object in their listed order, the indices of
   * an array as decimal strings.
   */
  function Entries(v: Value): (r: seq<(string, Value)>)
    ensures v.Obj? ==> r == v.fields
    ensures v.Arr? ==> |r| == |v.items| && forall i :: 0 <= i < |r| ==> r[i].1 == v.items[i]
    ensures v.Arr? ==> forall i :: 0 <= i < |r| ==> r[i].0 == NatToString(i)
    ensures !IsObject(v) ==> r == []
  {
    match v
    case Obj(fields) => fields
    case Arr(items) => seq(|items|, i requires 0 <= i < |items| => (NatToString(i), items[i]))
    case _ => []
  }

  function Join(parts: seq<string>, sep: string): string {
    if |parts| == 0 then ""
    else if |parts| == 1 then parts[0]
    else parts[0] + sep + Join(parts[1..], sep)
  }

  /**
   * `String(v)`. An array joins its elements with "," (a null element gives
   * ""), an object prints as "[object Object]". An object's own fields are
   * not consulted: an own `toString` or `valueOf` field, which makes
   * `String(v)` call or reject it, is outside this model (see README,
   * "Left out").
   */
  function ToStr(v: Value): (r: string)
    ensures v.Str? ==> r == v.s
    ensures v.Int? && v.n >= 0 ==> |r| >= 1 && forall i :: 0 <= i < |r| ==> '0' <= r[i] <= '9'
    ensures v.Int? && v.n >= 0 ==> DigitsValue(r) == v.n && (|r| == 1 || r[0] != '0')
    ensures v.Int? && v.n < 0 ==> |r| >= 2 && r[0] == '-' && forall i :: 1 <= i < |r| ==> '0' <= r[i] <= '9'
    ensures v.Int? && v.n < 0 ==> DigitsValue(r[1..]) == -v.n && (r[1] != '0')
    ensures v.Bool? ==> r == (if v.b then "true" else "false")
    ensures v.Arr? && |v.items| == 0 ==> r == ""
    ensures v.Null? ==> r == "null"
    ensures v.Obj? ==> r == "[object Object]"
  {
    match v
    case Null => "null"
    case Bool(b) => if b then "true" else "false"
    case Int(n) => IntToString(n)
    case Str(s) => s
    case Arr(items) =>
      Join(seq(|items|, i requires 0 <= i < |items| => if items[i].Null? then "" else ToStr(items[i])), ",")
    case Obj(_) => "[object Object]"
  }

  /** The string of an array element: `null` (and `undefined`) give the empty string. */
  function ElementString(v: Value): string {
    if v.Null? then "" else ToStr(v)
  }

  /** `String` of an array is its first element's string, a comma, then `String` of the rest. */
  lemma ArrayStringJoins(items: seq<Value>)
    requires |items| >= 1
    ensures |items| == 1 ==> ToStr(Arr(items)) == ElementString(items[0])
    ensures |items| >= 2 ==> ToStr(Arr(items)) == ElementString(items[0]) + "," + ToStr(Arr(items[1..]))
  {
    var parts := seq(|items|, i requires 0 <= i < |items| => if items[i].Null? then "" else ToStr(items[i]));
    if |items| >= 2 {
      var rest := items[1..];
      assert parts[1..] == seq(|rest|, i requires 0 <= i < |rest| => if rest[i].Null? then "" else ToStr(rest[i]));
    }
  }

  /** The characters `String.prototype.trim` removes: WhiteSpace and LineTerminator. */
  predicate IsJsSpace(c: char) {
    c == '\t' || c == '\n' || c == '\U{000B}' || c == '\U{000C}' || c == '\r' || c == ' '
    || c == '\U{00A0}' || c == '\U{1680}' || ('\U{2000}' <= c <= '\U{200A}')
    || c == '\U{2028}' || c == '\U{2029}' || c == '\U{202F}' || c == '\U{205F}'
    || c == '\U{3000}' || c == '\U{FEFF}'
  }

  function TrimStart(s: string): (r: string)
    ensures r == "" || !IsJsSpace(r[0])
    ensures |r| <= |s|
  {
    if |s| > 0 && IsJsSpace(s[0]) then TrimStart(s[1..]) else s
  }

  function TrimEnd(s: string): (r: string)
    ensures r == "" || !IsJsSpace(r[|r| - 1])
    ensures |r| <= |s|
  {
    if |s| > 0 && IsJsSpace(s[|s| - 1]) then TrimEnd(s[..|s| - 1]) else s
  }

  /** Trimming the start keeps the end, and removes white space only. */
  lemma {:induction false} TrimStartIsSuffix(s: string)
    ensures TrimStart(s) == s[|s| - |TrimStart(s)|..]
    ensures forall k :: 0 <= k < |s| - |TrimStart(s)| ==> IsJsSpace(s[k])
  {
    if |s| > 0 && IsJsSpace(s[0]) {
      TrimStartIsSuffix(s[1..]);
      assert s[1..][|s| - 1 - |TrimStart(s)|..] == s[|s| - |TrimStart(s)|..];
      forall k | 1 <= k < |s| - |TrimStart(s)|
        ensures IsJsSpace(s[k])
      {
        assert s[k] == s[1..][k - 1];
      }
    }
  }

  /** Trimming the end keeps the start, and removes white space only. */
  lemma {:induction false} TrimEndIsPrefix(s: string)
    ensures TrimEnd(s) == s[..|TrimEnd(s)|]
    ensures forall k :: |TrimEnd(s)| <= k < |s| ==> IsJsSpace(s[k])
  {
    if |s| > 0 && IsJsSpace(s[|s| - 1]) {
      TrimEndIsPrefix(s[..|s| - 1]);
    }
  }

  /**
   * `s.trim()`: what is left of `s` once the white space at both ends is
   * stripped, up to the first and last other characters.
   */
  function Trim(s: string): (r: string)
    ensures r == "" || (!IsJsSpace(r[0]) && !IsJsSpace(r[|r| - 1]))
    ensures |r| <= |s|
    ensures exists i, j :: 0 <= i <= j <= |s| && r == s[i..j]
              && (forall k :: 0 <= k < i ==> IsJsSpace(s[k]))
              && (forall k :: j <= k < |s| ==> IsJsSpace(s[k]))
  {
    var t := TrimStart(s);
    var r := TrimEnd(t);
    TrimStartIsSuffix(s);
    TrimEndIsPrefix(t);
    TrimWindow(s, t, r);
    r
  }

  /** A string cut down at the start and then at the end, over white space only, is a window of the original. */
  lemma TrimWindow(s: string, t: string, r: string)
    requires |t| <= |s| && t == s[|s| - |t|..] && forall k :: 0 <= k < |s| - |t| ==> IsJsSpace(s[k])
    requires |r| <= |t| && r == t[..|r|] && forall k :: |r| <= k < |t| ==> IsJsSpace(t[k])
    ensures exists i, j :: 0 <= i <= j <= |s| && r == s[i..j]
              && (forall k :: 0 <= k < i ==> IsJsSpace(s[k]))
              && (forall k :: j <= k < |s| ==> IsJsSpace(s[k]))
  {
    var i := |s| - |t|;
    var j := i + |r|;
    assert r == s[i..j];
    forall k | j <= k < |s|
      ensures IsJsSpace(s[k])
    {
      assert s[k] == t[k - i];
    }
  }

  /** A string with no space at either end is its own trim. */
  lemma TrimUnchanged(s: string)
    requires s == "" || (!IsJsSpace(s[0]) && !IsJsSpace(s[|s| - 1]))
    ensures Trim(s) == s
  {
  }

  /** Trimming twice is trimming once. */
  lemma TrimIdempotent(s: string)
    ensures Trim(Trim(s)) == Trim(s)
  {
    TrimUnchanged(Trim(s));
  }
}
