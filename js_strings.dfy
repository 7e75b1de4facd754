/**
 * The JavaScript string built-ins the modelled handlers and components use:
 * `startsWith`, `includes`, `toLowerCase` (ASCII letters only), `split` and
 * `join` on a one-character separator, the global `parseInt` without a radix,
 * and the decimal rendering of an integer in a template literal.
 */
module JsStrings {
  import opened Wrappers

  /** JavaScript truthiness of a value that is a string or absent: present and not "". */
  predicate Truthy(f: Option<string>) {
    f.Some? && f.value != ""
  }

  /** `24 * 60 * 60 * 1000`: milliseconds in a day, the unit of JavaScript time values. */
  const MS_PER_DAY: nat := 24 * 60 * 60 * 1000

  /** `s.startsWith(prefix)`. */
  predicate StartsWith(s: string, prefix: string) {
    |prefix| <= |s| && s[..|prefix|] == prefix
  }

  /** `s.includes(sub)`: `sub` occurs in `s` at some offset. */
  predicate Includes(s: string, sub: string) {
    exists i :: 0 <= i <= |s| - |sub| && StartsWith(s[i..], sub)
  }

  // ---------------------------------------------------------------------------
  // toLowerCase (ASCII)

  function LowerChar(c: char): (d: char)
    ensures 'A' <= c <= 'Z' ==> 'a' <= d <= 'z' && d as int - 'a' as int == c as int - 'A' as int
    ensures !('A' <= c <= 'Z') ==> d == c
  {
    if 'A' <= c <= 'Z' then (c as int - 'A' as int + 'a' as int) as char else c
  }

  /** `s.toLowerCase()`, restricted to the ASCII letters `A`-`Z`. */
  function ToLower(s: string): (r: string)
    ensures |r| == |s|
    ensures forall i :: 0 <= i < |s| ==> r[i] == LowerChar(s[i])
  {
    seq(|s|, i requires 0 <= i < |s| => LowerChar(s[i]))
  }

  // ---------------------------------------------------------------------------
  // split and join on a one-character separator

  /**
   * `s.split(sep)` for a one-character separator: the pieces between the
   * occurrences of `sep`, in order. Like JavaScript, "" splits into [""] and
   * two adjacent separators produce an empty piece.
   */
  function Split(s: string, sep: char): (r: seq<string>)
    ensures |r| >= 1
    ensures forall k :: 0 <= k < |r| ==> sep !in r[k]
    decreases |s|
  {
    if |s| == 0 then [""]
    else
      var rest := Split(s[1..], sep);
      if s[0] == sep then [""] + rest
      else [[s[0]] + rest[0]] + rest[1..]
  }

  /** `parts.join(sep)`. */
  function Join(parts: seq<string>, sep: char): string
    decreases |parts|
  {
    if |parts| == 0 then ""
    else if |parts| == 1 then parts[0]
    else parts[0] + [sep] + Join(parts[1..], sep)
  }

  /** Joining the pieces of a split with the same separator gives back the string. */
  lemma {:induction false} JoinSplit(s: string, sep: char)
    ensures Join(Split(s, sep), sep) == s
    decreases |s|
  {
    if |s| > 0 {
      var rest := Split(s[1..], sep);
      JoinSplit(s[1..], sep);
      if s[0] == sep {
        assert ([""] + rest)[1..] == rest;
      } else {
        var first := [s[0]] + rest[0];
        var r := [first] + rest[1..];
        assert r[1..] == rest[1..];
        if |rest| == 1 {
          assert Join(r, sep) == first;
        } else {
          assert Join(r, sep) == first + [sep] + Join(rest[1..], sep);
          assert Join(rest, sep) == rest[0] + [sep] + Join(rest[1..], sep);
        }
        assert [s[0]] + s[1..] == s;
      }
    }
  }

  /** A string without the separator splits into itself alone. */
  lemma {:induction false} SplitWithoutSeparator(p: string, sep: char)
    requires sep !in p
    ensures Split(p, sep) == [p]
    decreases |p|
  {
    if |p| > 0 {
      assert sep !in p[1..];
      SplitWithoutSeparator(p[1..], sep);
      assert [p[0]] + p[1..] == p;
    }
  }

  /** A piece without the separator, then the separator, then `t`. */
  lemma {:induction false} SplitAfterPiece(p: string, sep: char, t: string)
    requires sep !in p
    ensures Split(p + [sep] + t, sep) == [p] + Split(t, sep)
    decreases |p|
  {
    if |p| == 0 {
      assert p + [sep] + t == [sep] + t;
      assert ([sep] + t)[1..] == t;
    } else {
      var s := p + [sep] + t;
      assert s[0] == p[0];
      assert s[1..] == p[1..] + [sep] + t;
      assert sep !in p[1..];
      SplitAfterPiece(p[1..], sep, t);
      assert [p[0]] + p[1..] == p;
    }
  }

  /**
   * Splitting a join gives back the pieces, provided there is at least one
   * piece and no piece contains the separator.
   */
  lemma {:induction false} SplitJoin(parts: seq<string>, sep: char)
    requires |parts| >= 1
    requires forall k :: 0 <= k < |parts| ==> sep !in parts[k]
    ensures Split(Join(parts, sep), sep) == parts
    decreases |parts|
  {
    if |parts| == 1 {
      SplitWithoutSeparator(parts[0], sep);
    } else {
      SplitJoin(parts[1..], sep);
      SplitAfterPiece(parts[0], sep, Join(parts[1..], sep));
      assert [parts[0]] + parts[1..] == parts;
    }
  }

  // ---------------------------------------------------------------------------
  // parseInt(string) with no radix argument

  /** The white space and line terminators that `parseInt` skips at the front. */
  predicate IsJsWhiteSpace(c: char) {
    c == '\t' || c == '\n' || c == '\r' || c == ' ' ||
    c == '\U{000B}' || c == '\U{000C}' || c == '\U{00A0}' || c == '\U{FEFF}' ||
    c == '\U{1680}' || ('\U{2000}' <= c <= '\U{200A}') ||
    c == '\U{2028}' || c == '\U{2029}' || c == '\U{202F}' || c == '\U{205F}' || c == '\U{3000}'
  }

  function TrimStart(s: string): (r: string)
    ensures |r| <= |s| && r == s[|s| - |r|..]
    ensures r == [] || !IsJsWhiteSpace(r[0])
    ensures forall i :: 0 <= i < |s| - |r| ==> IsJsWhiteSpace(s[i])
    decreases |s|
  {
    if |s| > 0 && IsJsWhiteSpace(s[0]) then TrimStart(s[1..]) else s
  }

  /** The value of a digit in radix 36; 36 for a character that is no digit. */
  function DigitValue(c: char): (v: nat)
    ensures v <= 36
  {
    if '0' <= c <= '9' then c as int - '0' as int
    else if 'a' <= c <= 'z' then c as int - 'a' as int + 10
    else if 'A' <= c <= 'Z' then c as int - 'A' as int + 10
    else 36
  }

  predicate IsDigitIn(c: char, radix: nat) {
    DigitValue(c) < radix
  }

  /** The longest prefix of `s` made of digits of the radix. */
  function DigitPrefix(s: string, radix: nat): (z: string)
    ensures |z| <= |s| && z == s[..|z|]
    ensures forall i :: 0 <= i < |z| ==> IsDigitIn(z[i], radix)
    ensures |z| < |s| ==> !IsDigitIn(s[|z|], radix)
    decreases |s|
  {
    if |s| > 0 && IsDigitIn(s[0], radix) then [s[0]] + DigitPrefix(s[1..], radix) else []
  }

  /** The value of a string of digits in the radix, most significant first. */
  function DigitsValue(z: string, radix: nat): nat
    decreases |z|
  {
    if |z| == 0 then 0 else DigitsValue(z[..|z| - 1], radix) * radix + DigitValue(z[|z| - 1])
  }

  /**
   * The digits after the sign: hexadecimal after a `0x`/`0X` prefix, decimal
   * otherwise, up to the first character that is not a digit; `None` when
   * there is no digit.
   */
  function ParseUnsigned(u: string): Option<nat> {
    var hex := |u| >= 2 && u[0] == '0' && (u[1] == 'x' || u[1] == 'X');
    var radix := if hex then 16 else 10;
    var z := DigitPrefix(if hex then u[2..] else u, radix);
    if |z| == 0 then None else Some(DigitsValue(z, radix))
  }

  /**
   * `parseInt(s)`: skip leading white space, take an optional sign, then read
   * the digits as `ParseUnsigned` does; `None` stands for `NaN`.
   */
  function ParseInt(s: string): (r: Option<int>)
    // nothing but white space is `NaN`
    ensures TrimStart(s) == [] ==> r.None?
  {
    ParseSigned(TrimStart(s))
  }

  /** A text that starts with no white space, no sign and no digit reads as `NaN`. */
  lemma ParseIntOfNonNumeric(s: string)
    requires |s| > 0 && !IsJsWhiteSpace(s[0]) && s[0] != '-' && s[0] != '+' && !IsDigitIn(s[0], 10)
    ensures ParseInt(s).None?
  {
    TrimStartOfNonSpace(s);
  }

  /** `parseInt` once the leading white space is gone. */
  function ParseSigned(t: string): Option<int> {
    if |t| > 0 && t[0] == '-' then Negate(ParseUnsigned(t[1..]))
    else if |t| > 0 && t[0] == '+' then Widen(ParseUnsigned(t[1..]))
    else Widen(ParseUnsigned(t))
  }

  function Negate(v: Option<nat>): Option<int> {
    match v
    case None => None
    case Some(k) => Some(0 - k)
  }

  function Widen(v: Option<nat>): Option<int> {
    match v
    case None => None
    case Some(k) => Some(k)
  }

  // ---------------------------------------------------------------------------
  // Rendering an integer, as `${n}` does

  function DecimalDigit(d: nat): (c: char)
    requires d < 10
    ensures IsDigitIn(c, 10) && DigitValue(c) == d
  {
    ('0' as int + d) as char
  }

  /** The decimal digits of `n`, without leading zeros. */
  function NatToString(n: nat): (s: string)
    ensures |s| >= 1
    ensures forall i :: 0 <= i < |s| ==> IsDigitIn(s[i], 10)
    decreases n
  {
    if n < 10 then [DecimalDigit(n)] else NatToString(n / 10) + [DecimalDigit(n % 10)]
  }

  /** `${n}` for an integer `n`: a minus sign before the digits of a negative number. */
  function IntToString(n: int): string {
    if n < 0 then "-" + NatToString(-n) else NatToString(n)
  }

  lemma {:induction false} NatToStringValue(n: nat)
    ensures DigitsValue(NatToString(n), 10) == n
    decreases n
  {
    var s := NatToString(n);
    if n >= 10 {
      NatToStringValue(n / 10);
      assert s[..|s| - 1] == NatToString(n / 10);
    } else {
      assert s[..0] == [];
    }
  }

  lemma {:induction false} NatToStringNoLeadingZero(n: nat)
    requires NatToString(n)[0] == '0'
    ensures n == 0
    decreases n
  {
    if n >= 10 {
      assert NatToString(n)[0] == NatToString(n / 10)[0];
      NatToStringNoLeadingZero(n / 10);
    }
  }

  /** The longest digit prefix of `z + rest` is `z` when `z` is all digits and `rest` starts with none. */
  lemma {:induction false} DigitPrefixOfDigits(z: string, rest: string, radix: nat)
    requires forall i :: 0 <= i < |z| ==> IsDigitIn(z[i], radix)
    requires rest == [] || !IsDigitIn(rest[0], radix)
    ensures DigitPrefix(z + rest, radix) == z
    decreases |z|
  {
    if |z| > 0 {
      assert (z + rest)[1..] == z[1..] + rest;
      DigitPrefixOfDigits(z[1..], rest, radix);
      assert [z[0]] + z[1..] == z;
    } else {
      assert z + rest == rest;
    }
  }

  lemma {:induction false} ParseUnsignedOfNatToString(m: nat, rest: string)
    requires rest == [] || !(IsDigitIn(rest[0], 10) || rest[0] == 'x' || rest[0] == 'X')
    ensures ParseUnsigned(NatToString(m) + rest) == Some(m)
  {
    var d := NatToString(m);
    var u := d + rest;
    if |u| >= 2 && u[0] == '0' && (u[1] == 'x' || u[1] == 'X') {
      NatToStringNoLeadingZero(m);
      assert false;
    }
    DigitPrefixOfDigits(d, rest, 10);
    NatToStringValue(m);
  }

  /**
   * `parseInt` reads back an integer rendered by `${n}`, whatever follows it,
   * as long as what follows does not start with a digit or an `x`.
   */
  lemma {:induction false} ParseIntOfIntToString(n: int, rest: string)
    requires rest == [] || !(IsDigitIn(rest[0], 10) || rest[0] == 'x' || rest[0] == 'X')
    ensures ParseInt(IntToString(n) + rest) == Some(n)
  {
    var m: nat := if n < 0 then -n else n;
    var u := NatToString(m) + rest;
    var s := IntToString(n) + rest;
    ParseUnsignedOfNatToString(m, rest);
    if n < 0 {
      assert s == "-" + u;
      ParseIntOfMinus(u, m);
    } else {
      assert s == u;
      assert IsDigitIn(u[0], 10);
      ParseIntOfLeadingDigit(u, m);
    }
  }

  lemma ParseIntOfMinus(u: string, v: nat)
    requires ParseUnsigned(u) == Some(v)
    ensures ParseInt("-" + u) == Some(-(v as int))
  {
    var s := "-" + u;
    assert s[0] == '-' && s[1..] == u;
    TrimStartOfNonSpace(s);
  }

  lemma ParseIntOfLeadingDigit(u: string, v: nat)
    requires |u| > 0 && IsDigitIn(u[0], 10) && ParseUnsigned(u) == Some(v)
    ensures ParseInt(u) == Some(v)
  {
    TrimStartOfNonSpace(u);
  }

  /** White-space trimming leaves a text alone when it starts with no white space. */
  lemma TrimStartOfNonSpace(s: string)
    requires |s| > 0 && !IsJsWhiteSpace(s[0])
    ensures TrimStart(s) == s
  {
  }
}
