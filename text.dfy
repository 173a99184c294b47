/**
  The JavaScript string built-ins the core relies on: `toLowerCase`, `trim`,
  `startsWith`, `Array.prototype.join`, the decimal rendering of an integer
  (`String(n)`, `n.toString()`, template interpolation) and `parseInt(s, 10)`.
  Case mapping covers ASCII letters only.
*/
module Text {
  import opened Base

  // ---------------------------------------------------------------- case

  predicate IsUpper(c: char) { 'A' <= c <= 'Z' }

  function LowerChar(c: char): char
  {
    if IsUpper(c) then (c as int + 32) as char else c
  }

  /** `s.toLowerCase()`, restricted to ASCII letters. */
  function Lower(s: string): string
  {
    seq(|s|, i requires 0 <= i < |s| => LowerChar(s[i]))
  }

  lemma LowerIdempotent(s: string)
    ensures Lower(Lower(s)) == Lower(s)
  {
  }

  // ---------------------------------------------------------------- trim

  /** ECMAScript WhiteSpace and LineTerminator code points, the set `trim` removes. */
  predicate IsJsWhitespace(c: char)
  {
    var n := c as int;
    n == 0x09 || n == 0x0A || n == 0x0B || n == 0x0C || n == 0x0D || n == 0x20 ||
    n == 0xA0 || n == 0x1680 || (0x2000 <= n <= 0x200A) || n == 0x2028 || n == 0x2029 ||
    n == 0x202F || n == 0x205F || n == 0x3000 || n == 0xFEFF
  }

  function TrimStart(s: string): (r: string)
    ensures |r| <= |s|
    ensures r == s[|s| - |r|..]
    ensures r == [] || !IsJsWhitespace(r[0])
    ensures AllWhitespace(s[..|s| - |r|])
  {
    if s != [] && IsJsWhitespace(s[0]) then
      var r := TrimStart(s[1..]);
      assert s[..|s| - |r|] == [s[0]] + s[1..][..|s| - 1 - |r|];
      r
    else s
  }

  function TrimEnd(s: string): (r: string)
    ensures |r| <= |s|
    ensures r == s[..|r|]
    ensures r == [] || !IsJsWhitespace(r[|r| - 1])
    ensures AllWhitespace(s[|r|..])
  {
    if s != [] && IsJsWhitespace(s[|s| - 1]) then
      var r := TrimEnd(s[..|s| - 1]);
      assert s[|r|..] == s[..|s| - 1][|r|..] + [s[|s| - 1]];
      r
    else s
  }

  /** `s.trim()`. */
  function Trim(s: string): string
  {
    TrimEnd(TrimStart(s))
  }

  predicate AllWhitespace(s: string)
  {
    forall i :: 0 <= i < |s| ==> IsJsWhitespace(s[i])
  }

  /** Leading white space is what `trimStart` removes. */
  lemma {:induction false} TrimStartPadded(w: string, s: string)
    requires AllWhitespace(w)
    ensures TrimStart(w + s) == TrimStart(s)
  {
    if w != [] {
      assert (w + s)[0] == w[0];
      assert (w + s)[1..] == w[1..] + s;
      TrimStartPadded(w[1..], s);
    } else {
      assert w + s == s;
    }
  }

  /** Trailing white space is what `trimEnd` removes. */
  lemma {:induction false} TrimEndPadded(s: string, w: string)
    requires AllWhitespace(w)
    ensures TrimEnd(s + w) == TrimEnd(s)
  {
    if w != [] {
      assert (s + w)[..|s + w| - 1] == s + w[..|w| - 1];
      TrimEndPadded(s, w[..|w| - 1]);
    } else {
      assert s + w == s;
    }
  }

  /** `trimStart` of a string that is not all white space stops inside it. */
  lemma {:induction false} TrimStartAppend(s: string, w: string)
    ensures TrimStart(s) != [] ==> TrimStart(s + w) == TrimStart(s) + w
    ensures TrimStart(s) == [] ==> AllWhitespace(s)
  {
    if s != [] && IsJsWhitespace(s[0]) {
      assert (s + w)[1..] == s[1..] + w;
      TrimStartAppend(s[1..], w);
    }
  }

  /** Surrounding white space, on either side and of any length, does not reach `trim`'s result. */
  lemma TrimPadded(pre: string, s: string, post: string)
    requires AllWhitespace(pre) && AllWhitespace(post)
    ensures Trim(pre + s + post) == Trim(s)
  {
    assert pre + s + post == pre + (s + post);
    TrimStartPadded(pre, s + post);
    TrimStartAppend(s, post);
    if TrimStart(s) != [] {
      TrimEndPadded(TrimStart(s), post);
    } else {
      TrimStartPadded(s, post);
      TrimStartPadded(post, []);
      assert post + [] == post;
    }
  }

  /** `trim` cuts white space from both ends and keeps the stretch between them as it is. */
  lemma TrimContents(s: string) returns (i: nat, j: nat)
    ensures i <= j <= |s| && AllWhitespace(s[..i]) && AllWhitespace(s[j..]) && Trim(s) == s[i..j]
  {
    var u := TrimStart(s);
    i := |s| - |u|;
    j := i + |Trim(s)|;
    assert s[j..] == u[|Trim(s)|..];
  }

  /** A string with no white space at either end is its own `trim`. */
  lemma TrimUnpadded(s: string)
    requires s == [] || (!IsJsWhitespace(s[0]) && !IsJsWhitespace(s[|s| - 1]))
    ensures Trim(s) == s
  {
  }

  lemma {:induction false} TrimEndKeepsStart(s: string)
    requires s == [] || !IsJsWhitespace(s[0])
    ensures TrimEnd(s) == [] || !IsJsWhitespace(TrimEnd(s)[0])
  {
    if s != [] && IsJsWhitespace(s[|s| - 1]) {
      TrimEndKeepsStart(s[..|s| - 1]);
    }
  }

  /** Trimming twice removes nothing more. */
  lemma TrimIdempotent(s: string)
    ensures Trim(Trim(s)) == Trim(s)
  {
    var t := Trim(s);
    TrimEndKeepsStart(TrimStart(s));
    assert TrimStart(t) == t;
  }

  lemma LowerKeepsWhitespace(c: char)
    ensures IsJsWhitespace(LowerChar(c)) == IsJsWhitespace(c)
  {
  }

  lemma {:induction false} TrimStartLower(s: string)
    ensures TrimStart(Lower(s)) == Lower(TrimStart(s))
  {
    if s != [] {
      LowerKeepsWhitespace(s[0]);
      if IsJsWhitespace(s[0]) {
        assert Lower(s)[1..] == Lower(s[1..]);
        TrimStartLower(s[1..]);
      }
    }
  }

  lemma {:induction false} TrimEndLower(s: string)
    ensures TrimEnd(Lower(s)) == Lower(TrimEnd(s))
  {
    if s != [] {
      LowerKeepsWhitespace(s[|s| - 1]);
      if IsJsWhitespace(s[|s| - 1]) {
        assert Lower(s)[..|s| - 1] == Lower(s[..|s| - 1]);
        TrimEndLower(s[..|s| - 1]);
      }
    }
  }

  /** Lower-casing does not change what `trim` removes. */
  lemma TrimLowerCommute(s: string)
    ensures Trim(Lower(s)) == Lower(Trim(s))
  {
    TrimStartLower(s);
    TrimEndLower(TrimStart(s));
  }

  // ---------------------------------------------------------------- search

  /** `s.startsWith(prefix)`. */
  predicate StartsWith(s: string, prefix: string)
  {
    |prefix| <= |s| && s[..|prefix|] == prefix
  }

  /** `s` occurs in `t` starting at index `i`. */
  predicate OccursAt(s: string, t: string, i: int)
  {
    0 <= i && i + |s| <= |t| && t[i..i + |s|] == s
  }

  /** `t.includes(s)`. */
  ghost predicate Contains(t: string, s: string)
  {
    exists i :: OccursAt(s, t, i)
  }

  // ---------------------------------------------------------------- join

  /** `names.join(sep)`. */
  function Join(names: seq<string>, sep: string): string
  {
    if |names| == 0 then ""
    else if |names| == 1 then names[0]
    else names[0] + sep + Join(names[1..], sep)
  }

  /** Joining a non-empty prefix of a list yields a prefix of joining the whole list. */
  lemma {:induction false} JoinPrefix(names: seq<string>, sep: string, k: nat)
    requires 1 <= k <= |names|
    ensures StartsWith(Join(names, sep), Join(names[..k], sep))
  {
    if k == 1 {
      assert names[..1][0] == names[0];
      if |names| > 1 {
        assert Join(names, sep) == names[0] + (sep + Join(names[1..], sep));
      }
    } else {
      JoinPrefix(names[1..], sep, k - 1);
      assert names[..k][1..] == names[1..][..k - 1];
      var rest := Join(names[1..], sep);
      var restPrefix := Join(names[1..][..k - 1], sep);
      assert Join(names[..k], sep) == names[0] + sep + restPrefix;
      assert Join(names, sep) == names[0] + sep + rest;
      assert rest[..|restPrefix|] == restPrefix;
      assert (names[0] + sep + rest)[..|names[0] + sep| + |restPrefix|]
          == names[0] + sep + rest[..|restPrefix|];
    }
  }

  /** Every joined name appears in the joined string. */
  lemma {:induction false} JoinContains(names: seq<string>, sep: string, j: nat)
    requires j < |names|
    ensures Contains(Join(names, sep), names[j])
  {
    if |names| == 1 {
      assert OccursAt(names[0], Join(names, sep), 0);
    } else if j == 0 {
      assert Join(names, sep) == names[0] + (sep + Join(names[1..], sep));
      assert OccursAt(names[0], Join(names, sep), 0);
    } else {
      JoinContains(names[1..], sep, j - 1);
      var i :| OccursAt(names[1..][j - 1], Join(names[1..], sep), i);
      var head := names[0] + sep;
      assert Join(names, sep) == head + Join(names[1..], sep);
      OccursInSuffix(names[j], head, Join(names[1..], sep), i);
      assert OccursAt(names[j], Join(names, sep), |head| + i);
    }
  }

  lemma OccursInSuffix(s: string, head: string, t: string, i: int)
    requires OccursAt(s, t, i)
    ensures OccursAt(s, head + t, |head| + i)
  {
    assert (head + t)[|head| + i..|head| + i + |s|] == t[i..i + |s|];
  }

  lemma OccursInPrefix(s: string, t: string, tail: string, i: int)
    requires OccursAt(s, t, i)
    ensures OccursAt(s, t + tail, i)
  {
    assert (t + tail)[i..i + |s|] == t[i..i + |s|];
  }

  /** What `t` contains, `head + t + tail` contains too. */
  lemma ContainsInMiddle(s: string, head: string, t: string, tail: string)
    requires Contains(t, s)
    ensures Contains(head + (t + tail), s)
  {
    var i :| OccursAt(s, t, i);
    OccursInPrefix(s, t, tail, i);
    OccursInSuffix(s, head, t + tail, i);
    assert OccursAt(s, head + (t + tail), |head| + i);
  }

  // ---------------------------------------------------------------- numbers

  predicate IsDigit(c: char) { '0' <= c <= '9' }

  predicate AllDigits(s: string) { forall i :: 0 <= i < |s| ==> IsDigit(s[i]) }

  function DigitChar(d: int): char
    requires 0 <= d <= 9
  {
    ('0' as int + d) as char
  }

  function DigitValue(c: char): int
    requires IsDigit(c)
  {
    c as int - '0' as int
  }

  function Pow10(k: nat): (p: nat)
    ensures p >= 1
  {
    if k == 0 then 1 else 10 * Pow10(k - 1)
  }

  /** Decimal rendering of a natural number, without leading zeros. */
  function NatToString(n: nat): (r: string)
    ensures |r| >= 1 && AllDigits(r)
    ensures n >= 1 ==> r[0] != '0'
  {
    if n < 10 then [DigitChar(n)] else NatToString(n / 10) + [DigitChar(n % 10)]
  }

  /** `String(n)` for an integer `n`. */
  function IntToString(n: int): string
  {
    if n < 0 then "-" + NatToString(-n) else NatToString(n)
  }

  /** The value of a string of decimal digits, most significant first. */
  function DigitsValue(s: string): (v: nat)
    requires AllDigits(s)
    ensures v < Pow10(|s|)
  {
    if s == [] then 0 else DigitsValue(s[..|s| - 1]) * 10 + DigitValue(s[|s| - 1])
  }

  /** The first index at or after `i` that does not hold white space. */
  function SkipWhitespace(s: string, i: nat): (r: nat)
    requires i <= |s|
    ensures i <= r <= |s|
    decreases |s| - i
  {
    if i < |s| && IsJsWhitespace(s[i]) then SkipWhitespace(s, i + 1) else i
  }

  /** The end of the run of decimal digits that starts at `i`. */
  function DigitsEnd(s: string, i: nat): (r: nat)
    requires i <= |s|
    ensures i <= r <= |s|
    decreases |s| - i
  {
    if i < |s| && IsDigit(s[i]) then DigitsEnd(s, i + 1) else i
  }

  /**
    `parseInt(s, 10)`: leading white space is skipped, one sign is allowed, then
    the longest run of digits is read; `None` stands for `NaN`, when that run is empty.
  */
  function ParseInt(s: string): Option<int>
  {
    var i := SkipWhitespace(s, 0);
    var negative := i < |s| && s[i] == '-';
    var j := if i < |s| && (s[i] == '-' || s[i] == '+') then i + 1 else i;
    var k := DigitsEnd(s, j);
    if k == j then None
    else
      DigitRun(s, j);
      var magnitude: int := DigitsValue(s[j..k]);
      Some(if negative then -magnitude else magnitude)
  }

  /** The run `DigitsEnd` finds is made of digits. */
  lemma {:induction false} DigitRun(s: string, i: nat)
    requires i <= |s|
    ensures AllDigits(s[i..DigitsEnd(s, i)])
    decreases |s| - i
  {
    if i < |s| && IsDigit(s[i]) {
      DigitRun(s, i + 1);
      assert s[i..DigitsEnd(s, i)] == [s[i]] + s[i + 1..DigitsEnd(s, i + 1)];
    }
  }

  lemma {:induction false} DigitsValueAppend(s: string, t: string)
    requires AllDigits(s) && AllDigits(t)
    ensures AllDigits(s + t)
    ensures DigitsValue(s + t) == DigitsValue(s) * Pow10(|t|) + DigitsValue(t)
    decreases |t|
  {
    if t == [] {
      assert s + t == s;
    } else {
      var u := t[..|t| - 1];
      assert (s + t)[..|s + t| - 1] == s + u;
      DigitsValueAppend(s, u);
      assert (s + t)[|s + t| - 1] == t[|t| - 1];
      assert t[..|t| - 1] == u;
      ShiftDigit(DigitsValue(s), Pow10(|u|), DigitsValue(u), DigitValue(t[|t| - 1]));
    }
  }

  lemma ShiftDigit(a: int, p: int, b: int, d: int)
    ensures (a * p + b) * 10 + d == a * (10 * p) + (b * 10 + d)
  {
  }

  /** Reading back the rendering of a natural number gives the number. */
  lemma {:induction false} DigitsValueOfNatToString(n: nat)
    ensures DigitsValue(NatToString(n)) == n
  {
    if n >= 10 {
      DigitsValueOfNatToString(n / 10);
      var s := NatToString(n);
      assert s[..|s| - 1] == NatToString(n / 10);
    }
  }

  /** A digits-only string is parsed by `parseInt` to its value. */
  lemma ParseIntOfDigits(s: string)
    requires s != [] && AllDigits(s)
    ensures ParseInt(s) == Some(DigitsValue(s))
  {
    DigitsEndOfDigits(s, 0);
    assert s[0..|s|] == s;
  }

  /** In a digits-only string the run starting at `i` reaches the end. */
  lemma {:induction false} DigitsEndOfDigits(s: string, i: nat)
    requires i <= |s|
    requires forall k :: i <= k < |s| ==> IsDigit(s[k])
    ensures DigitsEnd(s, i) == |s|
    decreases |s| - i
  {
    if i < |s| {
      DigitsEndOfDigits(s, i + 1);
    }
  }

  /** `parseInt(String(n), 10) == n` for every integer. */
  lemma ParseIntOfIntToString(n: int)
    ensures ParseInt(IntToString(n)) == Some(n)
  {
    if n < 0 {
      var d := NatToString(-n);
      var s := "-" + d;
      assert SkipWhitespace(s, 0) == 0;
      DigitsEndOfDigits(s, 1);
      assert s[1..|s|] == d;
      DigitsValueOfNatToString(-n);
    } else {
      ParseIntOfDigits(NatToString(n));
      DigitsValueOfNatToString(n);
    }
  }
}
