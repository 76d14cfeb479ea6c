/**
 * The pieces of Go's standard library that the exporter relies on: `strings.Split`,
 * `strings.Join` and `strings.TrimSpace` in its configuration, and the `%d` verb of `fmt` in
 * its status error.
 * Strings are sequences of Unicode scalar values.
 */
module GoStrings {

  // ---------------------------------------------------------------------------------------
  // strings.Split and strings.Join
  // ---------------------------------------------------------------------------------------

  /** True when `sep` occurs in `t` starting at index `i`. */
  predicate SepAt(t: string, sep: string, i: nat)
  {
    i + |sep| <= |t| && t[i..i + |sep|] == sep
  }

  /** True when `sep` occurs anywhere in `t`. */
  ghost predicate ContainsSep(t: string, sep: string)
  {
    exists i: nat :: SepAt(t, sep, i)
  }

  /**
   * Scans `s` left to right; `cur` is the piece collected so far. At every position where
   * `sep` starts, the current piece is closed and the scan resumes after the separator.
   */
  function SplitFrom(s: string, sep: string, cur: string): (pieces: seq<string>)
    requires |sep| > 0
    ensures |pieces| >= 1
    decreases |s|
  {
    if |s| < |sep| then [cur + s]
    else if s[..|sep|] == sep then [cur] + SplitFrom(s[|sep|..], sep, "")
    else SplitFrom(s[1..], sep, cur + [s[0]])
  }

  /**
   * Go's `strings.Split(s, sep)` for a non-empty separator: `s` is cut at every
   * non-overlapping occurrence of `sep`, scanning from the left, and empty pieces are kept,
   * so `k` separators give `k + 1` pieces and the empty string gives `[""]`.
   */
  function Split(s: string, sep: string): (pieces: seq<string>)
    requires |sep| > 0
    ensures |pieces| >= 1
    ensures s == "" ==> pieces == [""]
  {
    assert "" + s == s;
    SplitFrom(s, sep, "")
  }

  /** The summed lengths of `pieces`. */
  function TotalLength(pieces: seq<string>): nat
  {
    if pieces == [] then 0 else |pieces[0]| + TotalLength(pieces[1..])
  }

  /** Go's `strings.Join`: the pieces with `sep` between consecutive ones. */
  function Join(pieces: seq<string>, sep: string): (r: string)
    ensures pieces != [] ==> pieces[0] <= r
    ensures |r| == TotalLength(pieces) + (if pieces == [] then 0 else (|pieces| - 1) * |sep|)
  {
    if |pieces| == 0 then ""
    else if |pieces| == 1 then pieces[0]
    else pieces[0] + sep + Join(pieces[1..], sep)
  }

  lemma {:induction false} SplitFromJoin(s: string, sep: string, cur: string)
    requires |sep| > 0
    ensures Join(SplitFrom(s, sep, cur), sep) == cur + s
    decreases |s|
  {
    if |s| < |sep| {
    } else if s[..|sep|] == sep {
      var rest := SplitFrom(s[|sep|..], sep, "");
      SplitFromJoin(s[|sep|..], sep, "");
      assert ([cur] + rest)[1..] == rest;
      assert s == sep + s[|sep|..];
    } else {
      SplitFromJoin(s[1..], sep, cur + [s[0]]);
      assert cur + [s[0]] + s[1..] == cur + s;
    }
  }

  /** Joining the pieces of a split with the same separator gives back the input. */
  lemma SplitJoin(s: string, sep: string)
    requires |sep| > 0
    ensures Join(Split(s, sep), sep) == s
  {
    SplitFromJoin(s, sep, "");
  }

  lemma {:induction false} SplitFromSepFree(s: string, sep: string, cur: string)
    requires |sep| > 0
    requires forall i: nat :: i < |cur| ==> !SepAt(cur + s, sep, i)
    ensures forall p :: p in SplitFrom(s, sep, cur) ==> !ContainsSep(p, sep)
    decreases |s|
  {
    if |s| < |sep| {
      forall i: nat
        ensures !SepAt(cur + s, sep, i)
      {
        if i < |cur| {
          assert !SepAt(cur + s, sep, i);
        }
      }
    } else if s[..|sep|] == sep {
      forall i: nat
        ensures !SepAt(cur, sep, i)
      {
        if i + |sep| <= |cur| {
          assert !SepAt(cur + s, sep, i);
          assert (cur + s)[i..i + |sep|] == cur[i..i + |sep|];
        }
      }
      SplitFromSepFree(s[|sep|..], sep, "");
    } else {
      var cur' := cur + [s[0]];
      assert cur' + s[1..] == cur + s;
      forall i: nat | i < |cur'|
        ensures !SepAt(cur' + s[1..], sep, i)
      {
        if i == |cur| {
          assert (cur + s)[i..i + |sep|] == s[..|sep|];
        }
      }
      SplitFromSepFree(s[1..], sep, cur');
    }
  }

  /** No piece of a split contains the separator. */
  lemma SplitPiecesSepFree(s: string, sep: string)
    requires |sep| > 0
    ensures forall p :: p in Split(s, sep) ==> !ContainsSep(p, sep)
  {
    SplitFromSepFree(s, sep, "");
  }

  lemma {:induction false} SplitFromCount(s: string, c: char, cur: string)
    ensures |SplitFrom(s, [c], cur)| == 1 + multiset(s)[c]
    decreases |s|
  {
    if |s| >= 1 {
      assert s == [s[0]] + s[1..];
      assert multiset(s) == multiset{s[0]} + multiset(s[1..]);
      if s[..1] == [c] {
        SplitFromCount(s[1..], c, "");
      } else {
        SplitFromCount(s[1..], c, cur + [s[0]]);
      }
    }
  }

  /** With a one-character separator, `k` occurrences of it give exactly `k + 1` pieces. */
  lemma SplitCount(s: string, c: char)
    ensures |Split(s, [c])| == 1 + multiset(s)[c]
  {
    SplitFromCount(s, c, "");
  }

  // ---------------------------------------------------------------------------------------
  // strings.TrimSpace
  // ---------------------------------------------------------------------------------------

  /** Go's `unicode.IsSpace`: the characters with the Unicode White_Space property. */
  predicate IsSpace(c: char)
  {
    || ('\t' <= c <= '\r')
    || c == ' '
    || c == '\U{0085}'
    || c == '\U{00A0}'
    || c == '\U{1680}'
    || ('\U{2000}' <= c <= '\U{200A}')
    || c == '\U{2028}'
    || c == '\U{2029}'
    || c == '\U{202F}'
    || c == '\U{205F}'
    || c == '\U{3000}'
  }

  predicate AllSpace(s: string)
  {
    forall i :: 0 <= i < |s| ==> IsSpace(s[i])
  }

  /** `s` with its leading white space removed. */
  function TrimLeft(s: string): (r: string)
    ensures |r| <= |s| && r == s[|s| - |r|..]
    ensures r == [] || !IsSpace(r[0])
    ensures AllSpace(s[..|s| - |r|])
  {
    if s != [] && IsSpace(s[0]) then TrimLeft(s[1..]) else s
  }

  /** `s` with its trailing white space removed. */
  function TrimRight(s: string): (r: string)
    ensures |r| <= |s| && r == s[..|r|]
    ensures r == [] || !IsSpace(r[|r| - 1])
    ensures AllSpace(s[|r|..])
  {
    if s != [] && IsSpace(s[|s| - 1]) then
      var r := TrimRight(s[..|s| - 1]);
      assert s[|r|..] == s[..|s| - 1][|r|..] + [s[|s| - 1]];
      r
    else
      s
  }

  /** `r` is what remains of `s` once the white space run `s[..i]` and the run after `r` are cut. */
  predicate TrimmedAt(s: string, r: string, i: nat)
  {
    i + |r| <= |s| && s[i..i + |r|] == r && AllSpace(s[..i]) && AllSpace(s[i + |r|..])
  }

  /**
   * Go's `strings.TrimSpace`: the slice of `s` left once all leading and trailing white
   * space is cut; it neither starts nor ends with white space.
   */
  function TrimSpace(s: string): (r: string)
    ensures r == [] || (!IsSpace(r[0]) && !IsSpace(r[|r| - 1]))
    ensures exists i: nat :: TrimmedAt(s, r, i)
  {
    var left := TrimLeft(s);
    var r := TrimRight(left);
    var i := |s| - |left|;
    assert s[i..i + |r|] == r;
    assert s[i + |r|..] == left[|r|..];
    assert TrimmedAt(s, r, i);
    r
  }

  /** Trimming twice is trimming once, and text that is all white space trims to "". */
  lemma TrimSpaceIdempotent(s: string)
    ensures TrimSpace(TrimSpace(s)) == TrimSpace(s)
    ensures AllSpace(s) ==> TrimSpace(s) == ""
  {
    var r := TrimSpace(s);
    assert TrimLeft(r) == r;
    assert TrimRight(r) == r;
  }

  // ---------------------------------------------------------------------------------------
  // The `%d` verb of fmt
  // ---------------------------------------------------------------------------------------

  predicate IsDigit(c: char)
  {
    '0' <= c <= '9'
  }

  function DigitChar(d: nat): (c: char)
    requires d < 10
    ensures IsDigit(c) && c as int - '0' as int == d
  {
    ('0' as int + d) as char
  }

  /** The decimal digits of `n`, most significant first, without leading zeros. */
  function NatToDecimal(n: nat): (r: string)
    ensures |r| >= 1 && forall i :: 0 <= i < |r| ==> IsDigit(r[i])
    ensures |r| > 1 ==> r[0] != '0'
  {
    if n < 10 then [DigitChar(n)] else NatToDecimal(n / 10) + [DigitChar(n % 10)]
  }

  /**
   * How `%d` renders an integer: a minus sign exactly when it is negative, then decimal
   * digits that read back as its magnitude.
   */
  function FormatInt(n: int): (r: string)
    ensures |r| >= 1 && (r[0] == '-' <==> n < 0)
    ensures var digits := if n < 0 then r[1..] else r;
      && (forall i :: 0 <= i < |digits| ==> IsDigit(digits[i]))
      && DecimalValue(digits) == if n < 0 then -n else n
  {
    if n < 0 then
      NatToDecimalRoundTrip(-n);
      assert ("-" + NatToDecimal(-n))[1..] == NatToDecimal(-n);
      "-" + NatToDecimal(-n)
    else
      NatToDecimalRoundTrip(n);
      NatToDecimal(n)
  }

  /** The number a string of decimal digits denotes. */
  function DecimalValue(s: string): nat
    requires forall i :: 0 <= i < |s| ==> IsDigit(s[i])
  {
    if s == [] then 0
    else
      var last := s[|s| - 1];
      assert IsDigit(last);
      10 * DecimalValue(s[..|s| - 1]) + (last as int - '0' as int)
  }

  /** The decimal rendering of a number can be read back as that number. */
  lemma {:induction false} NatToDecimalRoundTrip(n: nat)
    ensures DecimalValue(NatToDecimal(n)) == n
  {
    if n >= 10 {
      var r := NatToDecimal(n);
      assert r[..|r| - 1] == NatToDecimal(n / 10);
      NatToDecimalRoundTrip(n / 10);
    }
  }

  /** Different integers render differently, so a message can name a status code unambiguously. */
  lemma FormatIntInjective(m: int, n: int)
    requires FormatInt(m) == FormatInt(n)
    ensures m == n
  {
    if m < 0 {
      assert FormatInt(m)[0] == '-';
      assert n < 0;
      assert NatToDecimal(-m) == FormatInt(m)[1..];
      NatToDecimalRoundTrip(-m);
      NatToDecimalRoundTrip(-n);
    } else {
      assert !IsDigit('-');
      assert n >= 0;
      NatToDecimalRoundTrip(m);
      NatToDecimalRoundTrip(n);
    }
  }
}
