/** The JavaScript string and value semantics the handlers lean on:
    `String.prototype.trim`, `parseInt(s)` without a radix, `split('-')[0]`,
    and the `x || fallback` idiom. Whitespace is the ASCII part of the
    language's whitespace set. */
module JsText {
  import opened Optional

  predicate IsDigit(c: char) {
    '0' <= c <= '9'
  }

  predicate AllDigits(s: string) {
    forall i :: 0 <= i < |s| ==> IsDigit(s[i])
  }

  predicate IsHexDigit(c: char) {
    IsDigit(c) || 'a' <= c <= 'f' || 'A' <= c <= 'F'
  }

  /** Tab, line feed, vertical tab, form feed, carriage return, space. */
  predicate IsSpace(c: char) {
    c == ' ' || c == '\t' || c == '\n' || c == '\r' || c == '\U{B}' || c == '\U{C}'
  }

  function DigitValue(c: char): (d: nat)
    requires IsDigit(c)
    ensures d < 10
  {
    c as int - '0' as int
  }

  function HexDigitValue(c: char): (d: nat)
    requires IsHexDigit(c)
    ensures d < 16
  {
    if IsDigit(c) then DigitValue(c)
    else if 'a' <= c <= 'f' then c as int - 'a' as int + 10
    else c as int - 'A' as int + 10
  }

  /** The number a string of decimal digits denotes, most significant first. */
  function DecimalValue(s: string): nat
    requires AllDigits(s)
  {
    if |s| == 0 then 0 else DecimalValue(s[..|s| - 1]) * 10 + DigitValue(s[|s| - 1])
  }

  /** The number a string of hexadecimal digits denotes. */
  function HexValue(s: string): nat
    requires forall i :: 0 <= i < |s| ==> IsHexDigit(s[i])
  {
    if |s| == 0 then 0 else HexValue(s[..|s| - 1]) * 16 + HexDigitValue(s[|s| - 1])
  }

  /** The shortest decimal spelling of `n` (`String(n)`). */
  function DecimalString(n: nat): (s: string)
    ensures |s| > 0 && AllDigits(s)
    ensures DecimalValue(s) == n
  {
    var last := ['0' + (n % 10) as char];
    if n < 10 then last
    else
      var front := DecimalString(n / 10);
      assert (front + last)[..|front + last| - 1] == front;
      front + last
  }

  /** Length of the run of decimal digits that starts at `i`. */
  function DigitRun(s: string, i: nat): (n: nat)
    requires i <= |s|
    ensures i + n <= |s| && forall k :: i <= k < i + n ==> IsDigit(s[k])
    ensures i + n == |s| || !IsDigit(s[i + n])
    decreases |s| - i
  {
    if i < |s| && IsDigit(s[i]) then 1 + DigitRun(s, i + 1) else 0
  }

  /** Length of the run of hexadecimal digits that starts at `i`. */
  function HexRun(s: string, i: nat): (n: nat)
    requires i <= |s|
    ensures i + n <= |s| && forall k :: i <= k < i + n ==> IsHexDigit(s[k])
    ensures i + n == |s| || !IsHexDigit(s[i + n])
    decreases |s| - i
  {
    if i < |s| && IsHexDigit(s[i]) then 1 + HexRun(s, i + 1) else 0
  }

  /** Length of the run of whitespace that starts at `i`. */
  function SpaceRun(s: string, i: nat): (n: nat)
    requires i <= |s|
    ensures i + n <= |s| && forall k :: i <= k < i + n ==> IsSpace(s[k])
    ensures i + n == |s| || !IsSpace(s[i + n])
    decreases |s| - i
  {
    if i < |s| && IsSpace(s[i]) then 1 + SpaceRun(s, i + 1) else 0
  }

  /** Where the whitespace that ends at `j` begins, going no lower than `i`. */
  function SpaceStart(s: string, i: nat, j: nat): (e: nat)
    requires i <= j <= |s|
    ensures i <= e <= j && forall k :: e <= k < j ==> IsSpace(s[k])
    ensures e == i || !IsSpace(s[e - 1])
    decreases j - i
  {
    if i < j && IsSpace(s[j - 1]) then SpaceStart(s, i, j - 1) else j
  }

  /** `s` without its leading whitespace. */
  function TrimStart(s: string): (r: string)
    ensures |r| <= |s| && r == s[|s| - |r|..]
    ensures forall k :: 0 <= k < |s| - |r| ==> IsSpace(s[k])
    ensures r == [] || !IsSpace(r[0])
  {
    s[SpaceRun(s, 0)..]
  }

  /** `s.trim()`: the slice of `s` between its leading and trailing
      whitespace. It is empty exactly when `s` is all whitespace. */
  function Trim(s: string): (r: string)
    ensures exists i, j :: (0 <= i <= j <= |s| && r == s[i..j]
              && (forall k :: 0 <= k < i ==> IsSpace(s[k]))
              && (forall k :: j <= k < |s| ==> IsSpace(s[k])))
    ensures r == [] || (!IsSpace(r[0]) && !IsSpace(r[|r| - 1]))
    ensures r == [] <==> forall k :: 0 <= k < |s| ==> IsSpace(s[k])
  {
    var i := SpaceRun(s, 0);
    var j := SpaceStart(s, i, |s|);
    s[i..j]
  }

  /** Trimming is idempotent. */
  lemma TrimIdempotent(s: string)
    ensures Trim(Trim(s)) == Trim(s)
  {
    var r := Trim(s);
    TrimClean(r);
  }

  /** A string with no whitespace at either end is its own trim. */
  lemma TrimClean(s: string)
    requires s == [] || (!IsSpace(s[0]) && !IsSpace(s[|s| - 1]))
    ensures Trim(s) == s
  {
    if s != [] {
      assert SpaceRun(s, 0) == 0;
      assert SpaceStart(s, 0, |s|) == |s|;
    }
  }

  /** `s.split('-')[0]`: everything before the first `-`. */
  function BeforeDash(s: string): (r: string)
    ensures |r| <= |s| && r == s[..|r|]
    ensures '-' !in r
    ensures |r| == |s| || s[|r|] == '-'
  {
    if |s| == 0 || s[0] == '-' then [] else [s[0]] + BeforeDash(s[1..])
  }

  /** The digits `parseInt` reads after the sign: with a `0x`/`0X` prefix
      the longest run of hexadecimal digits, otherwise the longest run of
      decimal digits; `None` when that run is empty. */
  function Magnitude(u: string): (r: Option<int>)
    ensures r.Some? ==> |u| > 0 && IsDigit(u[0]) && r.value >= 0
  {
    if |u| >= 2 && u[0] == '0' && (u[1] == 'x' || u[1] == 'X') then
      var n := HexRun(u, 2);
      if n == 0 then None else Some(HexValue(u[2..2 + n]))
    else
      var n := DigitRun(u, 0);
      if n == 0 then None else Some(DecimalValue(u[..n]))
  }

  /** `parseInt(s)` with no radix; `None` is `NaN`. Leading whitespace is
      skipped, one `+` or `-` is read, then the magnitude. */
  function ParseInt(s: string): (r: Option<int>)
    ensures r.Some? ==> exists k :: 0 <= k < |s| && IsDigit(s[k])
    ensures (|s| > 0 && IsDigit(s[0])) ==> r == Magnitude(s)
    ensures |s| > 0 && s[0] == '+' ==> r == Magnitude(s[1..])
    ensures |s| > 0 && s[0] == '-' ==> r == if Magnitude(s[1..]).Some? then Some(-Magnitude(s[1..]).value) else None
    ensures |s| > 0 && !IsSpace(s[0]) && !IsDigit(s[0]) && s[0] != '+' && s[0] != '-' ==> r.None?
  {
    var t := TrimStart(s);
    var r := ReadSigned(t);
    assert r.Some? ==> t[0] == s[|s| - |t|];
    r
  }

  /** An optional `+` or `-` followed by the magnitude, in text whose
      leading whitespace is already gone. */
  function ReadSigned(t: string): (r: Option<int>)
    ensures r.Some? ==> |t| > 0 && (IsDigit(t[0]) || (|t| > 1 && IsDigit(t[1])))
  {
    var signed := |t| > 0 && (t[0] == '-' || t[0] == '+');
    var u := if signed then t[1..] else t;
    match Magnitude(u)
    case None => None
    case Some(m) => Some(if |t| > 0 && t[0] == '-' then -m else m)
  }

  /** `parseInt` skips any leading whitespace. */
  lemma {:induction false} ParseIntSkipsSpace(ws: string, s: string)
    requires forall k :: 0 <= k < |ws| ==> IsSpace(ws[k])
    ensures ParseInt(ws + s) == ParseInt(s)
  {
    TrimStartSkipsSpace(ws, s);
  }

  /** Leading whitespace is all that `TrimStart` removes. */
  lemma {:induction false} TrimStartSkipsSpace(ws: string, s: string)
    requires forall k :: 0 <= k < |ws| ==> IsSpace(ws[k])
    ensures TrimStart(ws + s) == TrimStart(s)
  {
    SpaceRunPrefix(ws, s, 0);
    var n := SpaceRun(s, 0);
    assert (ws + s)[|ws| + n..] == s[n..];
  }

  /** Whitespace in front of `s` lengthens the leading run by exactly its length. */
  lemma {:induction false} SpaceRunPrefix(ws: string, s: string, i: nat)
    requires i <= |ws| && forall k :: 0 <= k < |ws| ==> IsSpace(ws[k])
    ensures SpaceRun(ws + s, i) == |ws| - i + SpaceRun(s, 0)
    decreases |ws| - i
  {
    if i < |ws| {
      assert (ws + s)[i] == ws[i];
      SpaceRunPrefix(ws, s, i + 1);
    } else {
      SpaceRunShift(ws, s, 0);
    }
  }

  /** The run in `ws + s` past `ws` is the run in `s`. */
  lemma {:induction false} SpaceRunShift(ws: string, s: string, j: nat)
    requires j <= |s|
    ensures SpaceRun(ws + s, |ws| + j) == SpaceRun(s, j)
    decreases |s| - j
  {
    if j < |s| {
      assert (ws + s)[|ws| + j] == s[j];
      SpaceRunShift(ws, s, j + 1);
    }
  }

  /** `parseInt` reads back the decimal spelling of a number followed by any
      text that does not start with a digit or with `x` (after a lone `0`,
      an `x` would turn the prefix into a hexadecimal one). */
  lemma {:induction false} ParseIntDecimal(n: nat, rest: string)
    requires rest == [] || (!IsDigit(rest[0]) && rest[0] != 'x' && rest[0] != 'X')
    ensures ParseInt(DecimalString(n) + rest) == Some(n)
  {
    var d := DecimalString(n);
    MagnitudeDigits(d, rest);
    assert (d + rest)[0] == d[0];
  }

  /** `parseInt` of a plain digit string is its decimal value. */
  lemma {:induction false} ParseIntDigits(s: string)
    requires |s| > 0 && AllDigits(s)
    ensures ParseInt(s) == Some(DecimalValue(s))
  {
    MagnitudeDigits(s, []);
    assert s + [] == s;
  }

  /** The magnitude of a digit string followed by a non-digit is the value
      of the digit string. */
  lemma {:induction false} MagnitudeDigits(d: string, rest: string)
    requires |d| > 0 && AllDigits(d)
    requires rest == [] || (!IsDigit(rest[0]) && rest[0] != 'x' && rest[0] != 'X')
    ensures Magnitude(d + rest) == Some(DecimalValue(d))
  {
    var s := d + rest;
    assert |s| >= 2 ==> s[1] == (if |d| == 1 then rest[0] else d[1]);
    assert !(|s| >= 2 && (s[1] == 'x' || s[1] == 'X'));
    assert s[0] == d[0];
    DigitRunAll(d, rest, 0);
    assert s[..|d|] == d;
  }

  lemma DigitRunAll(d: string, rest: string, i: nat)
    requires AllDigits(d) && i <= |d|
    requires rest == [] || !IsDigit(rest[0])
    ensures DigitRun(d + rest, i) == |d| - i
  {
    DigitRunIs(d + rest, i, |d| - i);
  }

  /** A digit string placed after any prefix and before a non-digit is read
      as one whole run. */
  lemma DigitRunBetween(p: string, d: string, rest: string)
    requires AllDigits(d)
    requires rest == [] || !IsDigit(rest[0])
    ensures DigitRun(p + d + rest, |p|) == |d|
  {
    var s := p + d + rest;
    assert forall k :: |p| <= k < |p| + |d| ==> s[k] == d[k - |p|];
    assert |p| + |d| < |s| ==> s[|p| + |d|] == rest[0];
    DigitRunIs(s, |p|, |d|);
  }

  /** The digit run at `i` is exactly `n` long when `n` digits follow `i`
      and no further one. */
  lemma {:induction false} DigitRunIs(s: string, i: nat, n: nat)
    requires i + n <= |s|
    requires forall k :: i <= k < i + n ==> IsDigit(s[k])
    requires i + n == |s| || !IsDigit(s[i + n])
    ensures DigitRun(s, i) == n
    decreases n
  {
    if n > 0 {
      DigitRunIs(s, i + 1, n - 1);
    }
  }

  /** `x || fallback` for a number: zero is falsy. */
  function OrNumber(x: int, fallback: int): (r: int)
    ensures x != 0 ==> r == x
    ensures x == 0 ==> r == fallback
  {
    if x == 0 then fallback else x
  }

  /** `x || fallback` for a real number. */
  function OrReal(x: real, fallback: real): (r: real)
    ensures x != 0.0 ==> r == x
    ensures x == 0.0 ==> r == fallback
  {
    if x == 0.0 then fallback else x
  }

  /** `s || fallback` for a string: the empty string is falsy. */
  function OrText(s: string, fallback: string): (r: string)
    ensures s != [] ==> r == s
    ensures s == [] ==> r == fallback
  {
    if s == [] then fallback else s
  }

  /** `s || undefined`: the empty string becomes absent. */
  function NonEmpty(s: string): (r: Option<string>)
    ensures r.None? <==> s == []
    ensures r.Some? ==> r.value == s
  {
    if s == [] then None else Some(s)
  }
}
