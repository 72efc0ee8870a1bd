/** Shared vocabulary: optional values, the JavaScript notions of "truthy" text,
    `String.prototype.trim`, ASCII lower-casing, `Array.prototype.join`,
    `parseInt`, decimal rendering of counts, and the string form of a
    document id (`mongoose.Types.ObjectId.isValid`). */
module Common {

  datatype Option<T> = None | Some(value: T) {
    function GetOr(default: T): T {
      match this
      case Some(v) => v
      case None => default
    }
  }

  /** A request field the client may omit: JavaScript treats both a missing
      field and the empty string as falsy. */
  predicate Truthy(field: Option<string>) {
    field.Some? && field.value != ""
  }

  /** `field || fallback` for an optional text field. */
  function OrElse(field: Option<string>, fallback: string): (r: string)
    ensures Truthy(field) ==> r == field.value
    ensures !Truthy(field) ==> r == fallback
  {
    if Truthy(field) then field.value else fallback
  }

  // ---------------------------------------------------------------------
  // Whitespace and trimming

  /** The characters `String.prototype.trim` removes: the ECMAScript
      WhiteSpace and LineTerminator code points. */
  predicate IsJsSpace(c: char) {
    var n := c as int;
    n == 0x09 || n == 0x0A || n == 0x0B || n == 0x0C || n == 0x0D || n == 0x20
    || n == 0xA0 || n == 0x1680 || (0x2000 <= n <= 0x200A) || n == 0x2028
    || n == 0x2029 || n == 0x202F || n == 0x205F || n == 0x3000 || n == 0xFEFF
  }

  /** `s.trimStart()`: the longest suffix of `s` that does not start with whitespace. */
  function TrimStart(s: string): (r: string)
    ensures |r| <= |s| && r == s[|s| - |r|..]
    ensures r != [] ==> !IsJsSpace(r[0])
    ensures forall i :: 0 <= i < |s| - |r| ==> IsJsSpace(s[i])
  {
    if s != [] && IsJsSpace(s[0]) then TrimStart(s[1..]) else s
  }

  /** `s.trimEnd()`: the longest prefix of `s` that does not end with whitespace. */
  function TrimEnd(s: string): (r: string)
    ensures |r| <= |s| && r == s[..|r|]
    ensures r != [] ==> !IsJsSpace(r[|r| - 1])
    ensures forall i :: |r| <= i < |s| ==> IsJsSpace(s[i])
  {
    if s != [] && IsJsSpace(s[|s| - 1]) then TrimEnd(s[..|s| - 1]) else s
  }

  /** Text with no whitespace at either end. */
  predicate IsTrimmed(s: string) {
    s == [] || (!IsJsSpace(s[0]) && !IsJsSpace(s[|s| - 1]))
  }

  /** `s.trim()` */
  function Trim(s: string): (r: string)
    ensures |r| <= |s|
    ensures IsTrimmed(r)
  {
    TrimEnd(TrimStart(s))
  }

  /** Trimming leaves nothing exactly when the text is all whitespace. */
  lemma TrimEmptyIff(s: string)
    ensures Trim(s) == [] <==> forall i :: 0 <= i < |s| ==> IsJsSpace(s[i])
  {
    var t := TrimStart(s);
    if Trim(s) == [] {
      forall i | 0 <= i < |s| ensures IsJsSpace(s[i]) {
        if i >= |s| - |t| {
          assert s[i] == t[i - (|s| - |t|)];
        }
      }
    } else {
      var r := Trim(s);
      assert r[0] == t[0] == s[|s| - |t|];
    }
  }

  /** Trimming twice is trimming once. */
  lemma TrimIdempotent(s: string)
    ensures Trim(Trim(s)) == Trim(s)
  {
    TrimOfTrimmed(Trim(s));
  }

  /** Text without whitespace at either end is unchanged by trimming. */
  lemma TrimOfTrimmed(s: string)
    requires IsTrimmed(s)
    ensures Trim(s) == s
  {
    assert TrimStart(s) == s;
  }

  /** Whitespace added at both ends is trimmed away again. */
  lemma TrimPadded(s: string, pad: string)
    requires forall i :: 0 <= i < |pad| ==> IsJsSpace(pad[i])
    ensures Trim(pad + s + pad) == Trim(s)
  {
    assert pad + s + pad == pad + (s + pad);
    TrimStartPadded(s + pad, pad);
    assert TrimStart(pad + s + pad) == TrimStart(s + pad);
    TrimStartSuffix(s, pad);
  }

  lemma {:induction false} TrimStartPadded(s: string, pad: string)
    requires forall i :: 0 <= i < |pad| ==> IsJsSpace(pad[i])
    ensures TrimStart(pad + s) == TrimStart(s)
    decreases |pad|
  {
    if pad != [] {
      assert (pad + s)[0] == pad[0] && IsJsSpace(pad[0]);
      assert (pad + s)[1..] == pad[1..] + s;
      assert forall i :: 0 <= i < |pad[1..]| ==> IsJsSpace(pad[1..][i]) by {
        forall i | 0 <= i < |pad[1..]| ensures IsJsSpace(pad[1..][i]) {
          assert pad[1..][i] == pad[i + 1];
        }
      }
      TrimStartPadded(s, pad[1..]);
      assert TrimStart(pad + s) == TrimStart((pad + s)[1..]);
    } else {
      assert pad + s == s;
    }
  }

  lemma {:induction false} TrimEndPadded(s: string, pad: string)
    requires forall i :: 0 <= i < |pad| ==> IsJsSpace(pad[i])
    ensures TrimEnd(s + pad) == TrimEnd(s)
    decreases |pad|
  {
    if pad != [] {
      var p := pad[..|pad| - 1];
      assert (s + pad)[..|s + pad| - 1] == s + p;
      TrimEndPadded(s, p);
    } else {
      assert s + pad == s;
    }
  }

  /** Trimming the start of `s + pad` trims the start of `s`, unless `s` is all
      whitespace, in which case both sides trim to nothing in the end. */
  lemma {:induction false} TrimStartSuffix(s: string, pad: string)
    requires forall i :: 0 <= i < |pad| ==> IsJsSpace(pad[i])
    ensures TrimEnd(TrimStart(s + pad)) == TrimEnd(TrimStart(s))
    decreases |s|
  {
    if s == [] {
      assert s + pad == pad;
      TrimStartPadded([], pad);
      assert pad == pad + [];
    } else if IsJsSpace(s[0]) {
      assert (s + pad)[1..] == s[1..] + pad;
      TrimStartSuffix(s[1..], pad);
    } else {
      assert TrimStart(s + pad) == s + pad;
      TrimEndPadded(s, pad);
    }
  }

  // ---------------------------------------------------------------------
  // Case, prefixes, joining

  function LowerChar(c: char): char {
    if 'A' <= c <= 'Z' then (c as int + 32) as char else c
  }

  /** Lower-casing leaves no upper-case letter and never turns whitespace
      into something else or back. */
  lemma LowerCharFacts(c: char)
    ensures !('A' <= LowerChar(c) <= 'Z')
    ensures IsJsSpace(LowerChar(c)) == IsJsSpace(c)
  {
  }

  /** `s.toLowerCase()` restricted to ASCII letters. */
  function ToLowerAscii(s: string): (r: string)
    ensures |r| == |s|
    ensures forall i :: 0 <= i < |s| ==> r[i] == LowerChar(s[i])
  {
    if s == [] then [] else [LowerChar(s[0])] + ToLowerAscii(s[1..])
  }

  lemma {:induction false} ToLowerIdempotent(s: string)
    ensures ToLowerAscii(ToLowerAscii(s)) == ToLowerAscii(s)
  {
    var once := ToLowerAscii(s);
    var twice := ToLowerAscii(once);
    assert forall i :: 0 <= i < |s| ==> twice[i] == LowerChar(LowerChar(s[i])) == once[i];
  }

  /** `s.startsWith(prefix)` */
  predicate StartsWith(s: string, prefix: string) {
    |prefix| <= |s| && s[..|prefix|] == prefix
  }

  /** `parts.join(sep)` */
  function Join(parts: seq<string>, sep: string): (r: string)
    ensures parts == [] ==> r == ""
    ensures |parts| == 1 ==> r == parts[0]
    ensures |parts| > 1 ==> r == parts[0] + sep + Join(parts[1..], sep)
  {
    if parts == [] then ""
    else if |parts| == 1 then parts[0]
    else parts[0] + sep + Join(parts[1..], sep)
  }

  // ---------------------------------------------------------------------
  // Document ids

  predicate IsHexDigit(c: char) {
    ('0' <= c <= '9') || ('a' <= c <= 'f') || ('A' <= c <= 'F')
  }

  /** A path or body value mongoose accepts as an ObjectId: 24 hexadecimal digits. */
  predicate IsValidId(s: string) {
    |s| == 24 && forall i :: 0 <= i < |s| ==> IsHexDigit(s[i])
  }

  // ---------------------------------------------------------------------
  // Numbers as text

  function DigitChar(d: nat): char
    requires d < 10
  {
    ('0' as int + d) as char
  }

  predicate IsDecimalDigit(c: char) {
    '0' <= c <= '9'
  }

  /** The decimal rendering JavaScript gives a non-negative integer in a template literal. */
  function NatToString(n: nat): (r: string)
    ensures |r| >= 1
    ensures forall i :: 0 <= i < |r| ==> IsDecimalDigit(r[i])
    ensures r[0] == '0' ==> n == 0 && |r| == 1
    decreases n
  {
    if n < 10 then [DigitChar(n)] else NatToString(n / 10) + [DigitChar(n % 10)]
  }

  /** Value of a digit in base 16 (base 10 digits are the first ten). */
  function HexValue(c: char): (v: nat)
    requires IsHexDigit(c)
    ensures v < 16
    ensures IsDecimalDigit(c) ==> v < 10
  {
    if '0' <= c <= '9' then c as int - '0' as int
    else if 'a' <= c <= 'f' then c as int - 'a' as int + 10
    else c as int - 'A' as int + 10
  }

  predicate IsDigitIn(c: char, radix: nat) {
    if radix == 16 then IsHexDigit(c) else IsDecimalDigit(c)
  }

  /** Length of the longest prefix of `s` made of digits in `radix`. */
  function DigitRun(s: string, radix: nat): (n: nat)
    ensures n <= |s|
    ensures forall i :: 0 <= i < n ==> IsDigitIn(s[i], radix)
    ensures n < |s| ==> !IsDigitIn(s[n], radix)
  {
    if s != [] && IsDigitIn(s[0], radix) then 1 + DigitRun(s[1..], radix) else 0
  }

  /** The value of a run of digits, most significant first. */
  function DigitsValue(s: string, radix: nat): nat
    requires radix == 10 || radix == 16
    requires forall i :: 0 <= i < |s| ==> IsDigitIn(s[i], radix)
  {
    if s == [] then 0
    else
      assert IsDigitIn(s[|s| - 1], radix);
      DigitsValue(s[..|s| - 1], radix) * radix + HexValue(s[|s| - 1])
  }

  /** `parseInt(s)` with no radix, `None` standing for NaN: leading whitespace
      is skipped, one sign is allowed, a `0x`/`0X` prefix selects base 16,
      and the longest run of digits is read; no digits gives NaN. */
  function ParseIntJs(s: string): (r: Option<int>)
  {
    var t := TrimStart(s);
    var negative := t != [] && t[0] == '-';
    var u := if t != [] && (t[0] == '-' || t[0] == '+') then t[1..] else t;
    var hex := |u| >= 2 && u[0] == '0' && (u[1] == 'x' || u[1] == 'X');
    var radix := if hex then 16 else 10;
    var digits := if hex then u[2..] else u;
    match LeadingDigits(digits, radix)
    case None => None
    case Some(v) => Some(if negative then -(v as int) else v as int)
  }

  /** The value of the longest run of `radix` digits that starts `s`; none
      when `s` does not start with a digit. */
  function LeadingDigits(s: string, radix: nat): (r: Option<nat>)
    requires radix == 10 || radix == 16
    ensures r.None? <==> DigitRun(s, radix) == 0
  {
    var n := DigitRun(s, radix);
    if n == 0 then None else Some(DigitsValue(s[..n], radix))
  }

  lemma {:induction false} DigitsOfNatToString(n: nat)
    ensures DigitsValue(NatToString(n), 10) == n
    decreases n
  {
    var r := NatToString(n);
    if n >= 10 {
      DigitsOfNatToString(n / 10);
      assert r[..|r| - 1] == NatToString(n / 10);
    }
  }

  lemma DigitRunOfDigits(s: string)
    requires forall i :: 0 <= i < |s| ==> IsDecimalDigit(s[i])
    ensures DigitRun(s, 10) == |s|
  {
    if s != [] {
      DigitRunOfDigits(s[1..]);
    }
  }

  /** Rendering a count in decimal and reading it back with `parseInt` gives the count. */
  lemma ParseIntOfNatToString(n: nat)
    ensures ParseIntJs(NatToString(n)) == Some(n)
  {
    var s := NatToString(n);
    assert IsDecimalDigit(s[0]);
    assert TrimStart(s) == s;
    assert !(|s| >= 2 && s[0] == '0');
    LeadingDigitsOfNatToString(n);
  }

  lemma LeadingDigitsOfNatToString(n: nat)
    ensures LeadingDigits(NatToString(n), 10) == Some(n)
  {
    var s := NatToString(n);
    DigitRunOfDigits(s);
    assert s[..|s|] == s;
    DigitsOfNatToString(n);
  }
}
