/** JSON values as JavaScript sees them after `JSON.parse`, with the few
    operators of the language the core relies on: truthiness, `typeof x ===
    "object"`, the `in` operator and property reads. Also the string helpers
    the core needs: `String.prototype.trim` emptiness and decimal rendering of
    naturals (for array indices in field paths and for generated ids). */
module Json {
  import opened Wrappers

  /** JSON numbers are IEEE doubles; they are modelled as reals (JSON text
      cannot express NaN or the infinities). An object is a map from keys to
      values, as `JSON.parse` keeps only the last value of a repeated key. */
  datatype Json =
    | JNull
    | JBool(b: bool)
    | JNum(n: real)
    | JStr(s: string)
    | JArr(items: seq<Json>)
    | JObj(fields: map<string, Json>)

  /** JavaScript truthiness: null, false, 0 and "" are falsy. */
  predicate Truthy(v: Json) {
    match v
    case JNull => false
    case JBool(b) => b
    case JNum(n) => n != 0.0
    case JStr(s) => s != ""
    case _ => true
  }

  /** `typeof v === "object" && v !== null`: objects and arrays. */
  predicate IsObjectLike(v: Json) {
    v.JObj? || v.JArr?
  }

  /** `key in v` for an object-like `v` (for a primitive or null, `in`
      throws a TypeError, which callers model separately). Arrays answer
      false: the core only ever asks for expression keys, none of which is
      an array index or "length". */
  predicate HasKey(v: Json, key: string) {
    v.JObj? && key in v.fields
  }

  /** `v[key]` on a non-null value: the property if present, otherwise
      undefined. */
  function Get(v: Json, key: string): (r: Option<Json>)
    ensures r.Some? <==> HasKey(v, key)
  {
    if HasKey(v, key) then Some(v.fields[key]) else None
  }

  /** Truthiness of a property read, where undefined is falsy. */
  predicate TruthyField(v: Json, key: string) {
    HasKey(v, key) && Truthy(v.fields[key])
  }

  /** The characters `String.prototype.trim` removes: WhiteSpace and
      LineTerminator of ECMAScript, including the Unicode space separators. */
  predicate IsJsWhitespace(c: char) {
    || c == '\U{0009}' || c == '\U{000A}' || c == '\U{000B}' || c == '\U{000C}'
    || c == '\U{000D}' || c == ' ' || c == '\U{00A0}' || c == '\U{1680}'
    || ('\U{2000}' <= c <= '\U{200A}')
    || c == '\U{2028}' || c == '\U{2029}' || c == '\U{202F}' || c == '\U{205F}'
    || c == '\U{3000}' || c == '\U{FEFF}'
  }

  /** `s.trim().length === 0`. */
  predicate IsBlank(s: string) {
    forall i :: 0 <= i < |s| ==> IsJsWhitespace(s[i])
  }

  function DigitChar(d: nat): (c: char)
    requires d < 10
    ensures '0' <= c <= '9'
  {
    "0123456789"[d]
  }

  /** Decimal rendering of a natural number, without leading zeros. */
  function NatToString(n: nat): (s: string)
    ensures |s| >= 1
    ensures forall i :: 0 <= i < |s| ==> '0' <= s[i] <= '9'
  {
    if n < 10 then [DigitChar(n)] else NatToString(n / 10) + [DigitChar(n % 10)]
  }

  lemma DigitCharInjective(a: nat, b: nat)
    requires a < 10 && b < 10 && DigitChar(a) == DigitChar(b)
    ensures a == b
  {
  }

  /** Distinct numbers render as distinct strings. */
  lemma {:induction false} NatToStringInjective(a: nat, b: nat)
    requires NatToString(a) == NatToString(b)
    ensures a == b
  {
    var sa, sb := NatToString(a), NatToString(b);
    if a < 10 && b < 10 {
      DigitCharInjective(a, b);
    } else if a >= 10 && b >= 10 {
      var pa, pb := NatToString(a / 10), NatToString(b / 10);
      assert sa == pa + [DigitChar(a % 10)];
      assert sb == pb + [DigitChar(b % 10)];
      assert sa[|sa| - 1] == DigitChar(a % 10) && sb[|sb| - 1] == DigitChar(b % 10);
      DigitCharInjective(a % 10, b % 10);
      assert pa == sa[..|sa| - 1] == sb[..|sb| - 1] == pb;
      NatToStringInjective(a / 10, b / 10);
    }
  }
}
