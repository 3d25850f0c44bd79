/**
  Decimal digits as Python reads and writes them: `int()` on a stripped string,
  `str()` of an integer, `"%06d"` zero padding, and the regular expressions
  `<marker>(\d+)` (first match) and `\d+` (all matches). Only the ASCII digits
  0-9 are treated as digits.
*/
module Numbers {
  import opened Wrappers
  import opened Strings

  predicate IsDigit(c: char)
  {
    '0' <= c <= '9'
  }

  predicate AllDigits(s: string)
  {
    forall i :: 0 <= i < |s| ==> IsDigit(s[i])
  }

  function DigitValue(c: char): nat
    requires IsDigit(c)
  {
    (c as int) - ('0' as int)
  }

  function DigitChar(d: nat): (c: char)
    requires d < 10
    ensures IsDigit(c) && DigitValue(c) == d
  {
    ('0' as int + d) as char
  }

  /** The value of a run of decimal digits, most significant first. */
  function DecimalValue(ds: string): nat
    requires AllDigits(ds)
    decreases |ds|
  {
    if ds == [] then 0 else DecimalValue(ds[..|ds| - 1]) * 10 + DigitValue(ds[|ds| - 1])
  }

  /** `str(n)` for a natural number: the shortest decimal numeral of `n`. */
  function NatToString(n: nat): (s: string)
    ensures |s| >= 1 && AllDigits(s) && DecimalValue(s) == n
    ensures s[0] == '0' ==> s == "0"
    decreases n
  {
    if n < 10 then [DigitChar(n)]
    else
      var p := NatToString(n / 10);
      var s := p + [DigitChar(n % 10)];
      assert s[..|s| - 1] == p;
      s
  }

  /** `str(i)` for any integer. */
  function IntToString(i: int): (s: string)
    ensures |s| >= 1
    ensures i < 0 <==> s[0] == '-'
  {
    if i < 0 then "-" + NatToString(-i) else NatToString(i)
  }

  function Zeros(n: nat): (z: string)
    ensures |z| == n && forall i :: 0 <= i < n ==> z[i] == '0'
  {
    if n == 0 then "" else Zeros(n - 1) + "0"
  }

  /** Leading zeros do not change the value of a numeral. */
  lemma {:induction false} LeadingZeros(z: string, ds: string)
    requires forall i :: 0 <= i < |z| ==> z[i] == '0'
    requires AllDigits(ds)
    ensures AllDigits(z + ds) && DecimalValue(z + ds) == DecimalValue(ds)
    decreases |ds| + |z|
  {
    assert AllDigits(z + ds);
    if ds == [] {
      assert z + ds == z;
      if z != [] {
        LeadingZeros(z[..|z| - 1], []);
        assert (z + ds)[..|z| - 1] == z[..|z| - 1] + [];
      }
    } else {
      var last := |ds| - 1;
      assert (z + ds)[..|z + ds| - 1] == z + ds[..last];
      LeadingZeros(z, ds[..last]);
    }
  }

  /** `"%0*d" % (width, n)` for a natural number: the numeral of `n`, left-padded with zeros to `width`. */
  function ZeroPad(n: nat, width: nat): (s: string)
    ensures AllDigits(s) && DecimalValue(s) == n
    ensures |s| == if |NatToString(n)| < width then width else |NatToString(n)|
  {
    var ds := NatToString(n);
    var z := Zeros(if |ds| < width then width - |ds| else 0);
    LeadingZeros(z, ds);
    z + ds
  }

  /** The body of an integer literal as `int()` accepts it: ASCII digits, with single
      underscores allowed between two digits. */
  predicate IsDigitBody(b: string)
  {
    && |b| > 0 && IsDigit(b[0]) && IsDigit(b[|b| - 1])
    && (forall i :: 0 <= i < |b| ==> IsDigit(b[i]) || b[i] == '_')
    && (forall i :: 0 <= i < |b| - 1 ==> b[i] != '_' || b[i + 1] != '_')
  }

  /** The digits of a literal body with its underscores removed. */
  function DropUnderscores(b: string): (d: string)
    requires forall i :: 0 <= i < |b| ==> IsDigit(b[i]) || b[i] == '_'
    ensures AllDigits(d) && |d| <= |b|
    ensures AllDigits(b) ==> d == b
  {
    if b == [] then []
    else if b[0] == '_' then DropUnderscores(b[1..])
    else [b[0]] + DropUnderscores(b[1..])
  }

  /** A string that `int()` accepts once stripped: an optional sign and a digit body. */
  predicate IsIntLiteral(t: string)
  {
    if |t| > 0 && (t[0] == '-' || t[0] == '+') then IsDigitBody(t[1..]) else IsDigitBody(t)
  }

  /** `int(s)` on a string, or None where Python raises ValueError. */
  function ParseInt(s: string): (r: Option<int>)
    ensures r.Some? <==> IsIntLiteral(Strip(s))
  {
    var t := Strip(s);
    if |t| > 0 && (t[0] == '-' || t[0] == '+') then
      if IsDigitBody(t[1..]) then
        var v: int := DecimalValue(DropUnderscores(t[1..]));
        Some(if t[0] == '-' then -v else v)
      else None
    else if IsDigitBody(t) then Some(DecimalValue(DropUnderscores(t)))
    else None
  }

  /** A numeral has no whitespace at either end, so stripping leaves it unchanged. */
  lemma StripNumeral(s: string)
    requires |s| > 0 && (s[0] == '-' || IsDigit(s[0])) && IsDigit(s[|s| - 1])
    ensures Strip(s) == s
  {
    StripCore("", s, "");
    assert "" + s + "" == s;
  }

  /** `int(str(i)) == i` */
  lemma ParseIntToString(i: int)
    ensures ParseInt(IntToString(i)) == Some(i)
  {
    var s := IntToString(i);
    var ds := NatToString(if i < 0 then -i else i);
    assert IsDigitBody(ds) && DropUnderscores(ds) == ds;
    if i < 0 {
      assert s == "-" + ds;
      StripNumeral(s);
      assert s[1..] == ds;
    } else {
      assert s == ds;
      StripNumeral(s);
    }
  }

  /** Length of the run of digits that starts at index `j`. */
  function DigitRun(s: string, j: nat): (k: nat)
    requires j <= |s|
    ensures j + k <= |s|
    ensures forall i :: j <= i < j + k ==> IsDigit(s[i])
    ensures j + k == |s| || !IsDigit(s[j + k])
    decreases |s| - j
  {
    if j < |s| && IsDigit(s[j]) then 1 + DigitRun(s, j + 1) else 0
  }

  /** The value of the digit run that starts at index `j`. */
  function RunValue(s: string, j: nat): nat
    requires j <= |s|
  {
    var k := DigitRun(s, j);
    assert AllDigits(s[j..j + k]);
    DecimalValue(s[j..j + k])
  }

  /** The regular expression `<marker>\d` matches at index `i`. */
  predicate NumberAt(s: string, marker: string, i: int)
  {
    OccursAt(s, marker, i) && i + |marker| < |s| && IsDigit(s[i + |marker|])
  }

  /** The first index at or after `from` where `<marker>\d` matches, or -1. */
  function SearchNumber(s: string, marker: string, from: nat): (r: int)
    ensures r == -1 || (from <= r && NumberAt(s, marker, r))
    ensures r == -1 ==> forall i {:trigger NumberAt(s, marker, i)} :: from <= i ==> !NumberAt(s, marker, i)
    ensures r >= 0 ==> forall i {:trigger NumberAt(s, marker, i)} :: from <= i < r ==> !NumberAt(s, marker, i)
    decreases |s| - from
  {
    if from >= |s| then -1
    else if NumberAt(s, marker, from) then from
    else SearchNumber(s, marker, from + 1)
  }

  /** `re.search(marker + r"(\d+)", s)` followed by `int(match.group(1))`: the value of
      the greedy digit run after the leftmost `marker` that is followed by a digit. */
  function FirstNumberAfter(s: string, marker: string): (r: Option<nat>)
    ensures r.None? <==> forall i {:trigger NumberAt(s, marker, i)} :: !NumberAt(s, marker, i)
    ensures r.Some? ==> exists i {:trigger NumberAt(s, marker, i)} ::
              NumberAt(s, marker, i) && r.value == RunValue(s, i + |marker|)
              && forall j {:trigger NumberAt(s, marker, j)} :: j < i ==> !NumberAt(s, marker, j)
  {
    var i := SearchNumber(s, marker, 0);
    if i < 0 then None else Some(RunValue(s, i + |marker|))
  }

  /** `[int(m) for m in re.findall(r"\d+", s)]`: the values of the maximal digit runs, left to right. */
  function DigitRuns(s: string): (r: seq<nat>)
    ensures r == [] <==> AllNonDigits(s)
    decreases |s|
  {
    if s == [] then []
    else if IsDigit(s[0]) then
      var k := DigitRun(s, 0);
      [RunValue(s, 0)] + DigitRuns(s[k..])
    else
      assert AllNonDigits(s) <==> AllNonDigits(s[1..]) by {
        assert forall i :: 1 <= i < |s| ==> s[i] == s[1..][i - 1];
      }
      DigitRuns(s[1..])
  }

  /** A maximal digit run starts at index `j`. */
  predicate RunStart(s: string, j: int)
  {
    0 <= j < |s| && IsDigit(s[j]) && (j == 0 || !IsDigit(s[j - 1]))
  }

  /** Digit runs are the same when read from a suffix of the string. */
  lemma {:induction false} DigitRunShift(s: string, d: nat, j: nat)
    requires d + j <= |s|
    ensures DigitRun(s[d..], j) == DigitRun(s, d + j)
    decreases |s| - d - j
  {
    if d + j < |s| {
      assert s[d..][j] == s[d + j];
      if IsDigit(s[d + j]) {
        DigitRunShift(s, d, j + 1);
      }
    }
  }

  lemma RunValueShift(s: string, d: nat, j: nat)
    requires d + j <= |s|
    ensures RunValue(s[d..], j) == RunValue(s, d + j)
  {
    DigitRunShift(s, d, j);
    var k := DigitRun(s, d + j);
    assert s[d..][j..j + k] == s[d + j..d + j + k];
  }

  /** A run start in a suffix is one in the string, as long as it is not at the cut. */
  lemma RunStartShift(s: string, d: nat, j: nat)
    requires 0 < d <= |s| && (d == |s| || !IsDigit(s[d]) || !IsDigit(s[d - 1]))
    ensures RunStart(s[d..], j) <==> RunStart(s, d + j)
  {
    if j < |s| - d {
      assert s[d..][j] == s[d + j];
      if j > 0 {
        assert s[d..][j - 1] == s[d + j - 1];
      }
    }
  }

  /** `n` is among the numbers `re.findall(r"\d+", s)` returns exactly when some maximal digit
      run of `s` has the value `n`. */
  lemma {:induction false} InDigitRuns(s: string, n: nat)
    ensures n in DigitRuns(s) <==> exists j :: RunStart(s, j) && RunValue(s, j) == n
    decreases |s|
  {
    if s == [] {
    } else if IsDigit(s[0]) {
      InDigitRuns(s[DigitRun(s, 0)..], n);
      RunsAfterFirst(s, n);
    } else {
      InDigitRuns(s[1..], n);
      RunsAfterSkip(s, n);
    }
  }

  /** The induction step when the string starts with a digit run: the first value, then
      the runs of the rest. */
  lemma RunsAfterFirst(s: string, n: nat)
    requires s != [] && IsDigit(s[0])
    requires var k := DigitRun(s, 0);
             n in DigitRuns(s[k..]) <==> exists j :: RunStart(s[k..], j) && RunValue(s[k..], j) == n
    ensures n in DigitRuns(s) <==> exists j :: RunStart(s, j) && RunValue(s, j) == n
  {
    var k := DigitRun(s, 0);
    assert DigitRuns(s) == [RunValue(s, 0)] + DigitRuns(s[k..]);
    if n in DigitRuns(s[k..]) {
      var j :| RunStart(s[k..], j) && RunValue(s[k..], j) == n;
      RunFromSuffix(s, k, j, n);
    }
    if j :| RunStart(s, j) && RunValue(s, j) == n && j != 0 {
      RunToSuffix(s, k, j, n);
    } else {
      assert RunStart(s, 0);
    }
  }

  /** The induction step when the string starts with a non-digit. */
  lemma RunsAfterSkip(s: string, n: nat)
    requires s != [] && !IsDigit(s[0])
    requires n in DigitRuns(s[1..]) <==> exists j :: RunStart(s[1..], j) && RunValue(s[1..], j) == n
    ensures n in DigitRuns(s) <==> exists j :: RunStart(s, j) && RunValue(s, j) == n
  {
    assert DigitRuns(s) == DigitRuns(s[1..]);
    if n in DigitRuns(s[1..]) {
      var j :| RunStart(s[1..], j) && RunValue(s[1..], j) == n;
      RunFromSuffix(s, 1, j, n);
    }
    if j :| RunStart(s, j) && RunValue(s, j) == n {
      RunToSuffix(s, 1, j, n);
    }
  }

  /** A run of value `n` in a suffix cut where no run is split is one in the string. */
  lemma RunFromSuffix(s: string, d: nat, j: nat, n: nat)
    requires 0 < d <= |s| && (d == |s| || !IsDigit(s[d]) || !IsDigit(s[d - 1]))
    requires RunStart(s[d..], j) && RunValue(s[d..], j) == n
    ensures RunStart(s, d + j) && RunValue(s, d + j) == n
  {
    RunStartShift(s, d, j);
    RunValueShift(s, d, j);
  }

  /** A run of value `n` past such a cut is one in the suffix. */
  lemma RunToSuffix(s: string, d: nat, j: nat, n: nat)
    requires 0 < d <= j && d <= |s| && (d == |s| || !IsDigit(s[d]) || !IsDigit(s[d - 1]))
    requires RunStart(s, j) && RunValue(s, j) == n
    ensures RunStart(s[d..], j - d) && RunValue(s[d..], j - d) == n
  {
    RunStartShift(s, d, j - d);
    RunValueShift(s, d, j - d);
  }

  predicate AllNonDigits(s: string)
  {
    forall i :: 0 <= i < |s| ==> !IsDigit(s[i])
  }

  /** The decimal text of an integer holds only digits and a leading minus sign. */
  lemma IntToStringChars(i: int)
    ensures forall k :: 0 <= k < |IntToString(i)| ==> IsDigit(IntToString(i)[k]) || IntToString(i)[k] == '-'
    ensures Trimmed(IntToString(i))
  {
    var s := IntToString(i);
    var ds := NatToString(if i < 0 then -i else i);
    assert forall k :: 0 <= k < |ds| ==> IsDigit(ds[k]);
  }

  /** A digit run of length `d` that is followed by a non-digit (or the end) is the run at `j`. */
  lemma {:induction false} DigitRunIs(s: string, j: nat, d: nat)
    requires j + d <= |s| && forall i :: j <= i < j + d ==> IsDigit(s[i])
    requires j + d == |s| || !IsDigit(s[j + d])
    ensures DigitRun(s, j) == d
    decreases d
  {
    if d > 0 {
      DigitRunIs(s, j + 1, d - 1);
    }
  }

  /** A text that starts with `marker` and a digit run yields that run's value. */
  lemma NumberAfterMarker(marker: string, ds: string, rest: string)
    requires ds != [] && AllDigits(ds)
    requires rest == [] || !IsDigit(rest[0])
    ensures FirstNumberAfter(marker + ds + rest, marker) == Some(DecimalValue(ds))
  {
    var s := marker + ds + rest;
    assert s[..|marker|] == marker;
    assert s[|marker|] == ds[0];
    assert NumberAt(s, marker, 0);
    DigitRunIs(s, |marker|, |ds|);
    assert s[|marker|..|marker| + |ds|] == ds;
  }

  /** The number after a leading `marker` is the value of the digits that follow it, however
      many leading zeros they carry. */
  lemma PaddedNumberAfter(marker: string, zeros: nat, n: nat, rest: string)
    requires rest == [] || !IsDigit(rest[0])
    ensures FirstNumberAfter(marker + Zeros(zeros) + NatToString(n) + rest, marker) == Some(n)
  {
    var ds := Zeros(zeros) + NatToString(n);
    LeadingZeros(Zeros(zeros), NatToString(n));
    Regroup(marker, Zeros(zeros), NatToString(n), rest);
    NumberAfterMarker(marker, ds, rest);
  }

  lemma Regroup(a: string, b: string, c: string, d: string)
    ensures a + b + c + d == a + (b + c) + d
  {
  }
}
