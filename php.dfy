/** The handful of PHP runtime behaviours the plugin's decisions depend on:
    optional values (`false`/`null` in PHP), `empty()`, substring and prefix
    tests done with `strpos`, `trim`, `explode`, `intval` on 64-bit PHP, and
    the decimal text of a process id. */
module Php {

  /** A value PHP returns or `false`/`null` in its place. */
  datatype Option<+T> = None | Some(value: T)

  // ---------------------------------------------------------------------
  // empty()
  // ---------------------------------------------------------------------

  /** `empty($s)` on a string: true for "" and for "0". */
  predicate IsEmpty(s: string)
  {
    s == "" || s == "0"
  }

  /** `empty($x)` where `$x` is a string or `null` (e.g. the result of `shell_exec`). */
  predicate IsEmptyOutput(o: Option<string>)
  {
    o.None? || IsEmpty(o.value)
  }

  // ---------------------------------------------------------------------
  // strpos
  // ---------------------------------------------------------------------

  /** `strpos($s, $p) === 0`: a raw character prefix, no path semantics. */
  predicate StartsWith(s: string, p: string)
  {
    |p| <= |s| && s[..|p|] == p
  }

  /** `strpos($s, $sub) !== false`: `sub` occurs somewhere in `s`. */
  predicate Contains(s: string, sub: string)
    decreases |s|
  {
    StartsWith(s, sub) || (s != [] && Contains(s[1..], sub))
  }

  lemma {:induction false} ContainsAt(s: string, sub: string, i: nat)
    requires i <= |s| && StartsWith(s[i..], sub)
    ensures Contains(s, sub)
  {
    if i > 0 {
      assert s[1..][i - 1..] == s[i..];
      ContainsAt(s[1..], sub, i - 1);
    }
  }

  /** `sub` sits in `s` at index `i`. */
  predicate OccursAt(s: string, sub: string, i: nat)
  {
    i + |sub| <= |s| && s[i..i + |sub|] == sub
  }

  /** The recursive substring test agrees with the index-based reading of `strpos`. */
  lemma {:induction false} ContainsIff(s: string, sub: string)
    ensures Contains(s, sub) <==> exists i: nat :: OccursAt(s, sub, i)
    decreases |s|
  {
    if Contains(s, sub) {
      if StartsWith(s, sub) {
        assert OccursAt(s, sub, 0);
      } else {
        ContainsIff(s[1..], sub);
        var i: nat :| OccursAt(s[1..], sub, i);
        assert s[1..][i..i + |sub|] == s[i + 1..i + 1 + |sub|];
        assert OccursAt(s, sub, i + 1);
      }
    }
    if exists i: nat :: OccursAt(s, sub, i) {
      var i: nat :| OccursAt(s, sub, i);
      assert s[i..] [..|sub|] == sub;
      ContainsAt(s, sub, i);
    }
  }

  // ---------------------------------------------------------------------
  // trim
  // ---------------------------------------------------------------------

  /** The characters `trim()` strips by default: " \t\n\r\0\x0B". */
  predicate IsTrimChar(c: char)
  {
    c == ' ' || c == '\t' || c == '\n' || c == '\r' || c == '\0' || c == '\U{000B}'
  }

  function TrimLeft(s: string): (r: string)
    ensures |r| <= |s|
    ensures r == [] || !IsTrimChar(r[0])
    ensures forall i :: 0 <= i < |s| - |r| ==> IsTrimChar(s[i])
    decreases |s|
  {
    if s != [] && IsTrimChar(s[0]) then TrimLeft(s[1..]) else s
  }

  function TrimRight(s: string): (r: string)
    ensures |r| <= |s|
    ensures r == [] || !IsTrimChar(r[|r| - 1])
    ensures forall i :: |r| <= i < |s| ==> IsTrimChar(s[i])
    decreases |s|
  {
    if s != [] && IsTrimChar(s[|s| - 1]) then TrimRight(s[..|s| - 1]) else s
  }

  /** `trim($s)`: strips trim characters from both ends and nothing else. */
  function Trim(s: string): (r: string)
  {
    TrimRight(TrimLeft(s))
  }

  /** `ltrim` keeps a suffix of its input. */
  lemma {:induction false} TrimLeftSuffix(s: string)
    ensures TrimLeft(s) == s[|s| - |TrimLeft(s)|..]
    decreases |s|
  {
    if s != [] && IsTrimChar(s[0]) {
      TrimLeftSuffix(s[1..]);
      assert s[1..][|s| - 1 - |TrimLeft(s[1..])|..] == s[|s| - |TrimLeft(s[1..])|..];
    }
  }

  /** `rtrim` keeps a prefix of its input. */
  lemma {:induction false} TrimRightPrefix(s: string)
    ensures TrimRight(s) == s[..|TrimRight(s)|]
    decreases |s|
  {
    if s != [] && IsTrimChar(s[|s| - 1]) {
      TrimRightPrefix(s[..|s| - 1]);
      assert s[..|s| - 1][..|TrimRight(s[..|s| - 1])|] == s[..|TrimRight(s[..|s| - 1])|];
    }
  }

  /** What `trim` keeps is the middle of its input, with no trim character at either end,
      and everything cut off on either side is a trim character. */
  lemma TrimKeepsMiddle(s: string)
    ensures var r := Trim(s);
      (r == [] || (!IsTrimChar(r[0]) && !IsTrimChar(r[|r| - 1])))
      && exists a: nat :: OccursAt(s, r, a)
           && (forall i :: 0 <= i < a ==> IsTrimChar(s[i]))
           && (forall i :: a + |r| <= i < |s| ==> IsTrimChar(s[i]))
  {
    var l := TrimLeft(s);
    var r := TrimRight(l);
    TrimLeftSuffix(s);
    TrimRightPrefix(l);
    var a := |s| - |l|;
    assert s[a..a + |r|] == l[..|r|];
    assert OccursAt(s, r, a);
    if r != [] {
      assert r[0] == l[0];
    }
  }

  /** `trim` only removes characters: every character it keeps occurs in its input. */
  lemma TrimChars(s: string)
    ensures forall c :: c in Trim(s) ==> c in s
  {
    var l := TrimLeft(s);
    var r := TrimRight(l);
    TrimLeftSuffix(s);
    TrimRightPrefix(l);
    forall c | c in r
      ensures c in s
    {
      var k :| 0 <= k < |r| && r[k] == c;
      assert s[|s| - |l| + k] == c;
    }
  }

  /** Trimming twice is trimming once. */
  lemma TrimIdempotent(s: string)
    ensures Trim(Trim(s)) == Trim(s)
  {
    var r := Trim(s);
    TrimRightPrefix(TrimLeft(s));
    if r != [] {
      assert r[0] == TrimLeft(s)[0];
    }
  }

  /** `trim` of a string is empty exactly when the string consists of trim characters only. */
  lemma TrimEmptyIff(s: string)
    ensures Trim(s) == [] <==> forall i :: 0 <= i < |s| ==> IsTrimChar(s[i])
  {
    var l := TrimLeft(s);
    if Trim(s) == [] {
      assert l == [];
    } else {
      var r := Trim(s);
      TrimLeftSuffix(s);
      TrimRightPrefix(l);
      assert r[0] == l[0] == s[|s| - |l|];
    }
  }

  // ---------------------------------------------------------------------
  // explode
  // ---------------------------------------------------------------------

  /** `explode($sep, $s)`: the pieces between separators; always at least one piece. */
  function Split(s: string, sep: char): (parts: seq<string>)
    ensures |parts| >= 1
    ensures forall k :: 0 <= k < |parts| ==> sep !in parts[k]
    decreases |s|
  {
    if s == [] then [""]
    else if s[0] == sep then [""] + Split(s[1..], sep)
    else
      var rest := Split(s[1..], sep);
      [[s[0]] + rest[0]] + rest[1..]
  }

  /** `implode($sep, $parts)`. */
  function Join(parts: seq<string>, sep: char): string
    requires |parts| >= 1
    decreases |parts|
  {
    if |parts| == 1 then parts[0] else parts[0] + [sep] + Join(parts[1..], sep)
  }

  /** `explode` loses nothing: joining the pieces again gives back the input. */
  lemma {:induction false} JoinSplit(s: string, sep: char)
    ensures Join(Split(s, sep), sep) == s
    decreases |s|
  {
    if s == [] {
    } else if s[0] == sep {
      JoinSplit(s[1..], sep);
      var rest := Split(s[1..], sep);
      assert Split(s, sep) == [""] + rest;
      assert (([""] + rest)[1..]) == rest;
    } else {
      JoinSplit(s[1..], sep);
      var rest := Split(s[1..], sep);
      var parts := [[s[0]] + rest[0]] + rest[1..];
      assert Split(s, sep) == parts;
      if |rest| == 1 {
        assert Join(parts, sep) == [s[0]] + rest[0];
      } else {
        assert parts[1..] == rest[1..];
        assert Join(rest, sep) == rest[0] + [sep] + Join(rest[1..], sep);
        assert Join(parts, sep) == [s[0]] + rest[0] + [sep] + Join(rest[1..], sep);
      }
    }
  }

  /** Without a separator, `explode` gives the whole string as its one piece. */
  lemma {:induction false} SplitWithoutSeparator(s: string, sep: char)
    requires sep !in s
    ensures Split(s, sep) == [s]
    decreases |s|
  {
    if s != [] {
      assert sep !in s[1..] by {
        forall k | 0 <= k < |s| - 1
          ensures s[1..][k] != sep
        {
          assert s[1..][k] == s[k + 1];
        }
      }
      SplitWithoutSeparator(s[1..], sep);
      assert [s[0]] + s[1..] == s;
    }
  }

  /** `explode` cuts at the first separator: the text before it is the first piece and
      the rest is exploded in turn. */
  lemma {:induction false} SplitAtFirst(a: string, b: string, sep: char)
    requires sep !in a
    ensures Split(a + [sep] + b, sep) == [a] + Split(b, sep)
    decreases |a|
  {
    var s := a + [sep] + b;
    if a == [] {
      assert s == [sep] + b && s[1..] == b;
    } else {
      assert s[0] == a[0] && s[1..] == a[1..] + [sep] + b;
      assert sep !in a[1..] by {
        forall k | 0 <= k < |a| - 1
          ensures a[1..][k] != sep
        {
          assert a[1..][k] == a[k + 1];
        }
      }
      SplitAtFirst(a[1..], b, sep);
      assert [a[0]] + a[1..] == a;
    }
  }

  // ---------------------------------------------------------------------
  // intval and decimal text
  // ---------------------------------------------------------------------

  const PHP_INT_MAX: int := 0x7fff_ffff_ffff_ffff
  const PHP_INT_MIN: int := -0x8000_0000_0000_0000

  predicate IsDigit(c: char)
  {
    '0' <= c <= '9'
  }

  predicate AllDigits(s: string)
  {
    forall i :: 0 <= i < |s| ==> IsDigit(s[i])
  }

  function DigitValue(c: char): (d: nat)
    requires IsDigit(c)
    ensures d < 10
  {
    c as int - '0' as int
  }

  function DigitChar(d: nat): (c: char)
    requires d < 10
    ensures IsDigit(c) && DigitValue(c) == d
  {
    ('0' as int + d) as char
  }

  /** The value of a run of decimal digits, most significant first. */
  function DigitsValue(s: string): nat
    requires AllDigits(s)
    decreases |s|
  {
    if s == [] then 0 else DigitsValue(s[..|s| - 1]) * 10 + DigitValue(s[|s| - 1])
  }

  /** The number of decimal digits `s` starts with. */
  function LeadingDigits(s: string): (n: nat)
    ensures n <= |s| && AllDigits(s[..n])
    ensures n < |s| ==> !IsDigit(s[n])
    decreases |s|
  {
    if s == [] || !IsDigit(s[0]) then 0
    else
      var n := 1 + LeadingDigits(s[1..]);
      assert s[..n] == [s[0]] + s[1..][..n - 1];
      n
  }

  /** The white space PHP skips before a numeric string: " \t\n\r\v\f". */
  predicate IsNumericSpace(c: char)
  {
    c == ' ' || c == '\t' || c == '\n' || c == '\r' || c == '\U{000B}' || c == '\U{000C}'
  }

  function SkipNumericSpace(s: string): (r: string)
    ensures r == [] || !IsNumericSpace(r[0])
    decreases |s|
  {
    if s != [] && IsNumericSpace(s[0]) then SkipNumericSpace(s[1..]) else s
  }

  /** A PHP integer: out-of-range values saturate, as string-to-int conversion does. */
  function Saturate(v: int): (r: int)
    ensures PHP_INT_MIN <= r <= PHP_INT_MAX
    ensures PHP_INT_MIN <= v <= PHP_INT_MAX ==> r == v
  {
    if v > PHP_INT_MAX then PHP_INT_MAX else if v < PHP_INT_MIN then PHP_INT_MIN else v
  }

  /** `intval($s)` on 64-bit PHP: skip leading white space, an optional sign, then the
      leading decimal digits; no digits gives 0. */
  function IntVal(s: string): int
  {
    var t := SkipNumericSpace(s);
    var negative := t != [] && t[0] == '-';
    var u := if t != [] && (t[0] == '-' || t[0] == '+') then t[1..] else t;
    var magnitude: int := DigitsValue(u[..LeadingDigits(u)]);
    Saturate(if negative then -magnitude else magnitude)
  }

  /** `intval` never leaves the 64-bit range, and a string that does not start with a
      digit, a sign or white space reads as 0. */
  lemma IntValBounds(s: string)
    ensures PHP_INT_MIN <= IntVal(s) <= PHP_INT_MAX
    ensures (s == [] || (!IsDigit(s[0]) && !IsNumericSpace(s[0]) && s[0] != '-' && s[0] != '+'))
              ==> IntVal(s) == 0
  {
  }

  /** The decimal text of a natural number, as `(string)$n` writes it. */
  function DecimalString(n: nat): (s: string)
    ensures |s| >= 1 && AllDigits(s)
    decreases n
  {
    if n < 10 then [DigitChar(n)] else DecimalString(n / 10) + [DigitChar(n % 10)]
  }

  lemma {:induction false} DecimalStringValue(n: nat)
    ensures DigitsValue(DecimalString(n)) == n
    decreases n
  {
    var s := DecimalString(n);
    if n >= 10 {
      DecimalStringValue(n / 10);
      assert s[..|s| - 1] == DecimalString(n / 10);
    }
  }

  lemma {:induction false} LeadingDigitsOfPrefix(d: string, rest: string)
    requires AllDigits(d)
    requires rest == [] || !IsDigit(rest[0])
    ensures LeadingDigits(d + rest) == |d|
    decreases |d|
  {
    if d != [] {
      assert (d + rest)[1..] == d[1..] + rest;
      LeadingDigitsOfPrefix(d[1..], rest);
    }
  }

  /** Round trip: a process id written as decimal text, with anything after it that is
      not a digit (such as the line break the preload process writes), is read back by
      `intval` as that process id. */
  lemma IntValOfDecimal(n: nat, rest: string)
    requires n <= PHP_INT_MAX
    requires rest == [] || !IsDigit(rest[0])
    ensures IntVal(DecimalString(n) + rest) == n
  {
    var d := DecimalString(n);
    var s := d + rest;
    assert s[0] == d[0];
    assert SkipNumericSpace(s) == s;
    LeadingDigitsOfPrefix(d, rest);
    assert s[..LeadingDigits(s)] == d;
    DecimalStringValue(n);
  }
}
