/** Values as the record loader hands them to the analysis core, and the few
    JavaScript coercions the core relies on (truthiness, `||`, `String(v)`,
    `parseFloat`, `trim`, ASCII case mapping and `Math.round`). */
module JsValues {

  datatype Option<T> = None | Some(value: T)

  /** One cell of a flat record: whatever JSON.parse or the CSV reader can put there. */
  datatype Scalar = Str(s: string) | Num(n: real) | Bool(b: bool) | Null

  /** A raw record. `keys` is the record's own key order (what Object.keys yields),
      `cells` its contents. The order matters: the candidate pool is built from it. */
  datatype Row = Row(keys: seq<string>, cells: map<string, Scalar>)

  /** `row[key]`; None stands for `undefined`. */
  function Get(row: Row, key: string): Option<Scalar>
  {
    if key in row.cells then Some(row.cells[key]) else None
  }

  /** `v == null`: true for both `undefined` and `null`. */
  predicate IsNullish(v: Option<Scalar>)
  {
    v == None || v == Some(Null)
  }

  /** JavaScript truthiness of a cell (numbers here are never NaN). */
  predicate Truthy(v: Option<Scalar>)
  {
    match v
    case None => false
    case Some(Null) => false
    case Some(Bool(b)) => b
    case Some(Num(n)) => n != 0.0
    case Some(Str(s)) => s != ""
  }

  /** `a || b`: the left operand when it is truthy, the right one otherwise. */
  function Or(a: Option<Scalar>, b: Option<Scalar>): Option<Scalar>
  {
    if Truthy(a) then a else b
  }

  /** The parts of the JavaScript runtime whose exact behaviour is not modelled.
      Each is a total function; `None` stands for NaN.
      - parseFloat:     `parseFloat(s)`
      - number:         `Number(s)`
      - dateParses:     `Date.parse(s)` is truthy (neither NaN nor 0)
      - validDate:      `new Date(s).getTime()` is not NaN
      - numberToString: `String(n)` */
  datatype JsRuntime = JsRuntime(
    parseFloat: string -> Option<real>,
    number: string -> Option<real>,
    dateParses: string -> bool,
    validDate: string -> bool,
    numberToString: real -> string)

  /** `parseFloat(v)` for a cell: parseFloat first converts its argument to a string,
      which gives a number back unchanged and "true", "false" or "null" otherwise. */
  function ParseFloat(rt: JsRuntime, v: Scalar): Option<real>
  {
    match v
    case Num(n) => Some(n)
    case Str(s) => rt.parseFloat(s)
    case _ => None
  }

  /** `String(v)` for a cell. */
  function ToJsString(rt: JsRuntime, v: Scalar): string
  {
    match v
    case Str(s) => s
    case Num(n) => rt.numberToString(n)
    case Bool(b) => if b then "true" else "false"
    case Null => "null"
  }

  /** The characters JavaScript's `\s` and `String.prototype.trim` treat as white space
      (WhiteSpace and LineTerminator of ECMA-262). */
  predicate IsJsWhitespace(c: char)
  {
    c == '\t' || c == '\n' || c == '\U{B}' || c == '\U{C}' || c == '\r' || c == ' ' ||
    c == '\U{A0}' || c == '\U{1680}' || ('\U{2000}' <= c <= '\U{200A}') ||
    c == '\U{2028}' || c == '\U{2029}' || c == '\U{202F}' || c == '\U{205F}' ||
    c == '\U{3000}' || c == '\U{FEFF}'
  }

  function TrimStart(s: string): (r: string)
    ensures |r| <= |s|
    ensures r == "" || !IsJsWhitespace(r[0])
  {
    if |s| > 0 && IsJsWhitespace(s[0]) then TrimStart(s[1..]) else s
  }

  function TrimEnd(s: string): (r: string)
    ensures |r| <= |s|
  {
    if |s| > 0 && IsJsWhitespace(s[|s| - 1]) then TrimEnd(s[..|s| - 1]) else s
  }

  /** `s.trim()` */
  function Trim(s: string): string
  {
    TrimEnd(TrimStart(s))
  }

  predicate IsBlank(s: string)
  {
    forall i :: 0 <= i < |s| ==> IsJsWhitespace(s[i])
  }

  /** Trimming leaves nothing exactly when every character is white space. */
  lemma {:induction false} TrimStartEmpty(s: string)
    ensures TrimStart(s) == "" <==> IsBlank(s)
    decreases |s|
  {
    if |s| > 0 && IsJsWhitespace(s[0]) {
      TrimStartEmpty(s[1..]);
      assert IsBlank(s[1..]) <==> IsBlank(s) by {
        if IsBlank(s[1..]) {
          forall i | 0 <= i < |s| ensures IsJsWhitespace(s[i]) {
            if i > 0 { assert s[i] == s[1..][i - 1]; }
          }
        }
        if IsBlank(s) {
          forall i | 0 <= i < |s| - 1 ensures IsJsWhitespace(s[1..][i]) {
            assert s[1..][i] == s[i + 1];
          }
        }
      }
    } else if |s| > 0 {
      assert !IsJsWhitespace(s[0]);
    }
  }

  lemma {:induction false} TrimEndKeepsNonBlank(s: string)
    requires !IsBlank(s)
    ensures TrimEnd(s) != ""
    decreases |s|
  {
    if |s| > 0 && IsJsWhitespace(s[|s| - 1]) {
      var k :| 0 <= k < |s| && !IsJsWhitespace(s[k]);
      assert k < |s| - 1;
      assert s[..|s| - 1][k] == s[k];
      TrimEndKeepsNonBlank(s[..|s| - 1]);
    }
  }

  /** `s.trim() === ''` exactly when `s` holds nothing but white space. */
  lemma TrimEmptyIffBlank(s: string)
    ensures Trim(s) == "" <==> IsBlank(s)
  {
    TrimStartEmpty(s);
    if !IsBlank(s) {
      assert !IsJsWhitespace(TrimStart(s)[0]);
      TrimEndKeepsNonBlank(TrimStart(s));
    }
  }

  predicate IsAsciiUpper(c: char)
  {
    'A' <= c <= 'Z'
  }

  predicate IsAsciiLower(c: char)
  {
    'a' <= c <= 'z'
  }

  function LowerChar(c: char): char
  {
    if IsAsciiUpper(c) then (c as int + 32) as char else c
  }

  function UpperChar(c: char): char
  {
    if IsAsciiLower(c) then (c as int - 32) as char else c
  }

  /** `s.toLowerCase()` on ASCII letters. */
  function ToLower(s: string): (r: string)
    ensures |r| == |s|
    ensures forall i :: 0 <= i < |r| ==> !IsAsciiUpper(r[i])
    ensures forall i :: 0 <= i < |s| && !IsAsciiUpper(s[i]) ==> r[i] == s[i]
    ensures forall i :: 0 <= i < |s| && IsAsciiUpper(s[i]) ==> IsAsciiLower(r[i]) && UpperChar(r[i]) == s[i]
  {
    seq(|s|, i requires 0 <= i < |s| => LowerChar(s[i]))
  }

  /** `s.toUpperCase()` on ASCII letters. */
  function ToUpper(s: string): (r: string)
    ensures |r| == |s|
    ensures forall i :: 0 <= i < |r| ==> !IsAsciiLower(r[i])
    ensures forall i :: 0 <= i < |s| && !IsAsciiLower(s[i]) ==> r[i] == s[i]
    ensures forall i :: 0 <= i < |s| && IsAsciiLower(s[i]) ==> IsAsciiUpper(r[i]) && LowerChar(r[i]) == s[i]
  {
    seq(|s|, i requires 0 <= i < |s| => UpperChar(s[i]))
  }

  /** Upper-casing keeps what lower-casing identifies: both spellings of a name
      lower-case alike. */
  lemma ToUpperKeepsLower(s: string)
    ensures ToLower(ToUpper(s)) == ToLower(s)
  {
    var u := ToUpper(s);
    forall i | 0 <= i < |s|
      ensures ToLower(u)[i] == ToLower(s)[i]
    {
      assert LowerChar(UpperChar(s[i])) == LowerChar(s[i]);
    }
  }

  /** Lower-casing keeps what upper-casing identifies. */
  lemma ToLowerKeepsUpper(s: string)
    ensures ToUpper(ToLower(s)) == ToUpper(s)
  {
    var l := ToLower(s);
    forall i | 0 <= i < |s|
      ensures ToUpper(l)[i] == ToUpper(s)[i]
    {
      assert UpperChar(LowerChar(s[i])) == UpperChar(s[i]);
    }
  }

  /** `/^\d{4}-\d{2}-\d{2}$/.test(s)`: `\d` is an ASCII digit, and `$` without the
      multiline flag matches only at the very end. */
  predicate IsIsoDateShape(s: string)
  {
    |s| == 10 && s[4] == '-' && s[7] == '-' &&
    forall i :: 0 <= i < 10 && i != 4 && i != 7 ==> '0' <= s[i] <= '9'
  }

  /** `Math.round(x)`: halves round towards +infinity. */
  function Round(x: real): int
  {
    (x + 0.5).Floor
  }

  /** `Math.round(x * 100) / 100` */
  function Round2(x: real): real
  {
    Round(x * 100.0) as real / 100.0
  }

  function Abs(x: real): real
  {
    if x < 0.0 then -x else x
  }

  function MaxReal(a: real, b: real): real
  {
    if a < b then b else a
  }

  function MinReal(a: real, b: real): real
  {
    if a < b then a else b
  }

  /** `Math.min(100, Math.max(0, x))` */
  function Clamp100(x: real): (r: real)
    ensures 0.0 <= r <= 100.0
  {
    MinReal(100.0, MaxReal(0.0, x))
  }

  lemma RoundMonotone(x: real, y: real)
    requires x <= y
    ensures Round(x) <= Round(y)
  {
  }

  lemma RoundOfInt(n: int)
    ensures Round(n as real) == n
  {
  }

  /** Rounding a value in [0, 100] stays in [0, 100]. */
  lemma RoundBounded(x: real)
    requires 0.0 <= x <= 100.0
    ensures 0 <= Round(x) <= 100
  {
    RoundMonotone(0.0, x);
    RoundMonotone(x, 100.0);
    RoundOfInt(0);
    RoundOfInt(100);
  }
}
