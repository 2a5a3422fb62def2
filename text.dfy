/** The string operations of Python's `str` that the tool relies on:
    `split` on a one-character separator, `int()` on a decimal string,
    `str()` of an int, and `<` between strings. */
module Text {
  import opened Outcomes

  /** Number of occurrences of `c` in `s` (`s.count(c)`). */
  function Occurrences(s: string, c: char): (n: nat)
    ensures n > 0 <==> c in s
  {
    if s == [] then 0 else (if s[0] == c then 1 else 0) + Occurrences(s[1..], c)
  }

  /** `s.split(sep)`: the pieces between the separators, always one more
      piece than there are separators, none containing the separator. */
  function Split(s: string, sep: char): (r: seq<string>)
    ensures |r| == Occurrences(s, sep) + 1
    ensures forall i :: 0 <= i < |r| ==> sep !in r[i]
  {
    if s == [] then [""]
    else
      var rest := Split(s[1..], sep);
      if s[0] == sep then [""] + rest
      else [[s[0]] + rest[0]] + rest[1..]
  }

  /** `sep.join(pieces)` */
  function Join(pieces: seq<string>, sep: char): string {
    if pieces == [] then ""
    else if |pieces| == 1 then pieces[0]
    else pieces[0] + [sep] + Join(pieces[1..], sep)
  }

  /** Splitting and joining back on the same separator gives the string back. */
  lemma {:induction false} JoinSplit(s: string, sep: char)
    ensures Join(Split(s, sep), sep) == s
  {
    if s != [] {
      var rest := Split(s[1..], sep);
      assert Join(rest, sep) == s[1..] by {
        JoinSplit(s[1..], sep);
      }
      if s[0] == sep {
        JoinAfterEmpty(rest, sep);
      } else {
        JoinExtendFirst(s[0], rest, sep);
      }
      assert s == [s[0]] + s[1..];
    }
  }

  /** An empty first piece contributes just the separator. */
  lemma JoinAfterEmpty(pieces: seq<string>, sep: char)
    requires |pieces| >= 1
    ensures Join([""] + pieces, sep) == [sep] + Join(pieces, sep)
  {
    assert ([""] + pieces)[1..] == pieces;
  }

  /** Prepending a character to the first piece prepends it to the join. */
  lemma JoinExtendFirst(c: char, pieces: seq<string>, sep: char)
    requires |pieces| >= 1
    ensures Join([[c] + pieces[0]] + pieces[1..], sep) == [c] + Join(pieces, sep)
  {
    var p := [[c] + pieces[0]] + pieces[1..];
    assert p[0] == [c] + pieces[0] && p[1..] == pieces[1..];
  }

  /** A string without the separator splits into itself. */
  lemma {:induction false} SplitNone(s: string, sep: char)
    requires sep !in s
    ensures Split(s, sep) == [s]
  {
    if s != [] {
      SplitNone(s[1..], sep);
      assert s == [s[0]] + s[1..];
    }
  }

  /** Joining pieces that do not contain the separator and splitting again
      gives the pieces back. */
  lemma {:induction false} SplitJoin(pieces: seq<string>, sep: char)
    requires |pieces| >= 1
    requires forall i :: 0 <= i < |pieces| ==> sep !in pieces[i]
    ensures Split(Join(pieces, sep), sep) == pieces
  {
    if |pieces| == 1 {
      SplitNone(pieces[0], sep);
    } else {
      SplitJoin(pieces[1..], sep);
      SplitAround(pieces[0], Join(pieces[1..], sep), sep);
      assert pieces == [pieces[0]] + pieces[1..];
    }
  }

  /** Splitting `a + sep + b` when `a` has no separator: `a`, then the pieces of `b`. */
  lemma {:induction false} SplitAround(a: string, b: string, sep: char)
    requires sep !in a
    ensures Split(a + [sep] + b, sep) == [a] + Split(b, sep)
  {
    if a == [] {
      assert a + [sep] + b == [sep] + b;
      assert ([sep] + b)[1..] == b;
    } else {
      var s := a + [sep] + b;
      assert s[0] == a[0] && s[1..] == a[1..] + [sep] + b;
      SplitAround(a[1..], b, sep);
      var rest := Split(s[1..], sep);
      assert rest[0] == a[1..] && rest[1..] == Split(b, sep);
      assert Split(s, sep) == [[a[0]] + rest[0]] + rest[1..];
      assert [a[0]] + a[1..] == a;
    }
  }

  /** Splitting `a + sep + b` when neither part has a separator gives exactly [a, b]. */
  lemma SplitTwo(a: string, b: string, sep: char)
    requires sep !in a && sep !in b
    ensures Split(a + [sep] + b, sep) == [a, b]
  {
    SplitAround(a, b, sep);
    SplitNone(b, sep);
  }

  predicate IsDigit(c: char) {
    '0' <= c <= '9'
  }

  /** A non-empty run of ASCII decimal digits. */
  predicate IsDigits(s: string) {
    |s| > 0 && forall i :: 0 <= i < |s| ==> IsDigit(s[i])
  }

  /** Value of a run of decimal digits, leading zeros allowed. */
  function DigitsValue(s: string): nat
    requires forall i :: 0 <= i < |s| ==> IsDigit(s[i])
  {
    if s == [] then 0
    else
      assert IsDigit(s[|s| - 1]);
      10 * DigitsValue(s[..|s| - 1]) + (s[|s| - 1] as int - '0' as int)
  }

  /** Python's `int(s)` on ASCII text: an optional sign then decimal digits;
      anything else is a ValueError. */
  function ParseInt(s: string): (r: Result<int>)
    ensures r.Err? ==> r.error == ValueError
  {
    if |s| > 0 && (s[0] == '-' || s[0] == '+') then
      if IsDigits(s[1..]) then
        var magnitude: int := DigitsValue(s[1..]);
        Ok(if s[0] == '-' then -magnitude else magnitude)
      else Err(ValueError)
    else if IsDigits(s) then Ok(DigitsValue(s))
    else Err(ValueError)
  }

  function DigitChar(d: nat): (c: char)
    requires d < 10
    ensures IsDigit(c) && c as int - '0' as int == d
  {
    '0' + d as char
  }

  /** `str(n)` for n >= 0: decimal digits without leading zeros. */
  function FormatNat(n: nat): (s: string)
    ensures IsDigits(s)
    ensures DigitsValue(s) == n
  {
    if n < 10 then [DigitChar(n)]
    else
      var s := FormatNat(n / 10) + [DigitChar(n % 10)];
      assert s[..|s| - 1] == FormatNat(n / 10);
      s
  }

  /** `str(n)`: a '-' for negative numbers, then the digits. */
  function FormatInt(n: int): (s: string)
    ensures forall i :: 0 <= i < |s| ==> s[i] == '-' || IsDigit(s[i])
  {
    if n < 0 then "-" + FormatNat(-n) else FormatNat(n)
  }

  /** `int(str(n)) == n` */
  lemma ParseFormatInt(n: int)
    ensures ParseInt(FormatInt(n)) == Ok(n)
  {
    if n < 0 {
      assert FormatInt(n)[1..] == FormatNat(-n);
    }
  }

  /** Python's `a <= b` on strings: code-point lexicographic order. */
  predicate LexLe(a: string, b: string) {
    if a == [] then true
    else if b == [] then false
    else if a[0] != b[0] then a[0] < b[0]
    else LexLe(a[1..], b[1..])
  }

  /** Python's `a < b` on strings. */
  predicate LexLt(a: string, b: string) {
    !LexLe(b, a)
  }

  /** Any two strings are ordered one way or the other. */
  lemma {:induction false} LexLeTotal(a: string, b: string)
    ensures LexLe(a, b) || LexLe(b, a)
  {
    if a != [] && b != [] && a[0] == b[0] {
      LexLeTotal(a[1..], b[1..]);
    }
  }

  lemma {:induction false} LexLeTransitive(a: string, b: string, c: string)
    requires LexLe(a, b) && LexLe(b, c)
    ensures LexLe(a, c)
  {
    if a != [] && b != [] && c != [] && a[0] == b[0] && b[0] == c[0] {
      LexLeTransitive(a[1..], b[1..], c[1..]);
    }
  }

  lemma {:induction false} LexLeAntisymmetric(a: string, b: string)
    requires LexLe(a, b) && LexLe(b, a)
    ensures a == b
  {
    if a != [] && b != [] {
      LexLeAntisymmetric(a[1..], b[1..]);
      assert a == [a[0]] + a[1..] && b == [b[0]] + b[1..];
    }
  }
}
