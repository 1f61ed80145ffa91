/** Shared helpers: optional values, results for the source's exceptions,
    Python's string ordering and its `float()` of a decimal string. */
module Common {

  datatype Option<+T> = None | Some(value: T)

  /** An operation that either returns a value or raises (`Err` carries the message). */
  datatype Result<+T> = Ok(value: T) | Err(msg: string)

  // ---------------------------------------------------------------------------
  // Python compares strings code point by code point; a proper prefix is smaller.

  predicate LexLess(a: string, b: string)
    decreases |a|
  {
    if |a| == 0 then |b| > 0
    else if |b| == 0 then false
    else if a[0] != b[0] then a[0] < b[0]
    else LexLess(a[1..], b[1..])
  }

  lemma {:induction false} LexLessIrreflexive(a: string)
    ensures !LexLess(a, a)
    decreases |a|
  {
    if |a| > 0 { LexLessIrreflexive(a[1..]); }
  }

  lemma {:induction false} LexLessTransitive(a: string, b: string, c: string)
    requires LexLess(a, b) && LexLess(b, c)
    ensures LexLess(a, c)
    decreases |a|
  {
    if |a| > 0 && |b| > 0 && |c| > 0 && a[0] == b[0] && b[0] == c[0] {
      LexLessTransitive(a[1..], b[1..], c[1..]);
    }
  }

  /** Any two different strings are ordered one way or the other. */
  lemma {:induction false} LexLessTotal(a: string, b: string)
    requires a != b
    ensures LexLess(a, b) || LexLess(b, a)
    decreases |a|
  {
    if |a| > 0 && |b| > 0 && a[0] == b[0] {
      assert a == [a[0]] + a[1..] && b == [b[0]] + b[1..];
      LexLessTotal(a[1..], b[1..]);
    }
  }

  // ---------------------------------------------------------------------------
  // Python's float() on a plain decimal string: an optional sign, digits and at
  // most one '.', with at least one digit.

  predicate IsDigit(c: char) { '0' <= c <= '9' }

  predicate AllDigits(s: string) { forall i :: 0 <= i < |s| ==> IsDigit(s[i]) }

  function DigitValue(c: char): nat
    requires IsDigit(c)
  {
    (c as int - '0' as int) as nat
  }

  /** The number a string of decimal digits denotes. */
  function DigitsValue(s: string): nat
    requires AllDigits(s)
    decreases |s|
  {
    if |s| == 0 then 0 else 10 * DigitsValue(s[..|s| - 1]) + DigitValue(s[|s| - 1])
  }

  function Pow10(n: nat): (r: nat)
    ensures r >= 1
  {
    if n == 0 then 1 else 10 * Pow10(n - 1)
  }

  /** Index of the first occurrence of `c` in `s`, or |s| when there is none. */
  function IndexOf(s: string, c: char): (k: nat)
    ensures k <= |s|
    ensures k < |s| ==> s[k] == c
    ensures forall i :: 0 <= i < k ==> s[i] != c
  {
    if |s| == 0 then 0
    else if s[0] == c then 0
    else 1 + IndexOf(s[1..], c)
  }

  /** The unsigned part: `digits`, `digits.`, `.digits` or `digits.digits`. */
  function ParseUnsigned(s: string): Option<real>
  {
    var k := IndexOf(s, '.');
    var whole := s[..k];
    var frac := if k < |s| then s[k + 1..] else "";
    if |whole| + |frac| == 0 || !AllDigits(whole) || !AllDigits(frac) then None
    else Some(DigitsValue(whole) as real + DigitsValue(frac) as real / Pow10(|frac|) as real)
  }

  function ParseReal(s: string): Option<real>
  {
    if |s| > 0 && s[0] == '-' then
      match ParseUnsigned(s[1..])
      case Some(v) => Some(-v)
      case None => None
    else if |s| > 0 && s[0] == '+' then ParseUnsigned(s[1..])
    else ParseUnsigned(s)
  }

  /** Decimal rendering of a natural number, most significant digit first. */
  function ShowNat(n: nat): (s: string)
    ensures |s| > 0 && AllDigits(s)
  {
    if n < 10 then [('0' as int + n) as char]
    else ShowNat(n / 10) + [('0' as int + n % 10) as char]
  }

  lemma {:induction false} ShowNatValue(n: nat)
    ensures DigitsValue(ShowNat(n)) == n
  {
    var s := ShowNat(n);
    if n >= 10 {
      ShowNatValue(n / 10);
      assert s[..|s| - 1] == ShowNat(n / 10);
    }
  }

  lemma ShownNatHasNoDot(n: nat)
    ensures IndexOf(ShowNat(n), '.') == |ShowNat(n)|
  {
  }

  /** float() reads back every rendered whole number. */
  lemma ParseShownNat(n: nat)
    ensures ParseReal(ShowNat(n)) == Some(n as real)
  {
    var s := ShowNat(n);
    ShowNatValue(n);
    ShownNatHasNoDot(n);
    assert s[..|s|] == s;
    assert s[0] != '-' && s[0] != '+' by { assert IsDigit(s[0]); }
    assert ParseUnsigned(s) == Some(n as real) by {
      assert DigitsValue("") == 0;
    }
  }

  /** `str(i)` of a Python int. */
  function ShowInt(i: int): (s: string)
    ensures |s| > 0 && NoSpace(s) && ',' !in s
    ensures !IsSpace(s[0]) && !IsSpace(s[|s| - 1])
  {
    var s := if i < 0 then "-" + ShowNat(-i) else ShowNat(i);
    assert forall k :: 0 <= k < |s| ==> s[k] == '-' || IsDigit(s[k]);
    s
  }

  /** Python's `int(s)` on a decimal string: surrounding whitespace, an optional
      sign and at least one digit. */
  function ParseInt(s: string): Option<int>
  {
    var t := Strip(s);
    if |t| > 0 && (t[0] == '-' || t[0] == '+') then
      var digits := t[1..];
      if |digits| > 0 && AllDigits(digits) then
        Some(if t[0] == '-' then -(DigitsValue(digits) as int) else DigitsValue(digits) as int)
      else None
    else if |t| > 0 && AllDigits(t) then Some(DigitsValue(t) as int)
    else None
  }

  /** A string with no whitespace at either end strips to itself. */
  lemma StripTrimmed(s: string)
    requires |s| > 0 && !IsSpace(s[0]) && !IsSpace(s[|s| - 1])
    ensures Strip(s) == s
  {
  }

  /** Stripping ignores a trailing newline. */
  lemma StripNewline(s: string)
    requires |s| > 0 && !IsSpace(s[0]) && !IsSpace(s[|s| - 1])
    ensures Strip(s + "\n") == s
  {
    var t := s + "\n";
    assert TrailingSpaces(t[..|t| - 1]) == 0 by { assert t[..|t| - 1] == s; }
    assert TrailingSpaces(t) == 1;
    assert t[..|t| - 1] == s;
  }

  /** `int(str(i)) == i`. */
  lemma ParseShowInt(i: int)
    ensures ParseInt(ShowInt(i)) == Some(i)
  {
    var s := ShowInt(i);
    StripTrimmed(s);
    if i < 0 {
      ShowNatValue(-i);
      assert s[1..] == ShowNat(-i);
    } else {
      ShowNatValue(i);
      assert IsDigit(s[0]);
    }
  }

  /** Python's `int(x)` on a float: truncation toward zero. */
  function Trunc(x: real): (r: int)
    ensures 0.0 <= x ==> 0 <= r && r as real <= x < r as real + 1.0
    ensures x < 0.0 ==> r <= 0 && r as real - 1.0 < x <= r as real
  {
    if x >= 0.0 then x.Floor else -((-x).Floor)
  }

  lemma IndexOfFirst(s: string, c: char, k: nat)
    requires k < |s| && s[k] == c
    requires forall i :: 0 <= i < k ==> s[i] != c
    ensures IndexOf(s, c) == k
  {
  }

  // ---------------------------------------------------------------------------
  // Small numeric helpers.

  function MinReal(a: real, b: real): (r: real)
    ensures r <= a && r <= b && (r == a || r == b)
  {
    if a <= b then a else b
  }

  function MaxReal(a: real, b: real): (r: real)
    ensures r >= a && r >= b && (r == a || r == b)
  {
    if a >= b then a else b
  }

  function MaxInt(a: int, b: int): (r: int)
    ensures r >= a && r >= b && (r == a || r == b)
  {
    if a >= b then a else b
  }

  function MinInt(a: int, b: int): (r: int)
    ensures r <= a && r <= b && (r == a || r == b)
  {
    if a <= b then a else b
  }

  function SumReals(s: seq<real>): real
  {
    if |s| == 0 then 0.0 else SumReals(s[..|s| - 1]) + s[|s| - 1]
  }

  /** Prefix view used by loops that add one element at a time. */
  lemma SumRealsPrefix(s: seq<real>, i: nat)
    requires i < |s|
    ensures SumReals(s[..i + 1]) == SumReals(s[..i]) + s[i]
  {
    assert s[..i + 1][..i] == s[..i];
  }

  /** A total between `n * lo` and `n * hi` has its average between `lo` and `hi`. */
  lemma QuotientBetween(total: real, n: real, lo: real, hi: real)
    requires n > 0.0 && n * lo <= total <= n * hi
    ensures lo <= total / n <= hi
  {
    var q := total / n;
    assert q * n == total;
    assert (q - lo) * n == total - n * lo;
    assert (hi - q) * n == n * hi - total;
  }

  // ---------------------------------------------------------------------------
  // Sequences.

  predicate Distinct<T(==)>(s: seq<T>)
  {
    forall i, j :: 0 <= i < j < |s| ==> s[i] != s[j]
  }

  /** The position of `x` in `s` (|s| when absent). */
  function Position(s: seq<string>, x: string): (k: nat)
    ensures k <= |s|
    ensures k < |s| <==> x in s
    ensures k < |s| ==> s[k] == x && forall i :: 0 <= i < k ==> s[i] != x
  {
    if |s| == 0 then 0
    else if s[0] == x then 0
    else 1 + Position(s[1..], x)
  }

  /** Without repetitions, the tail has none either and lacks the head. */
  lemma DistinctTail(s: seq<string>)
    requires |s| > 0
    ensures Distinct(s) ==> Distinct(s[1..]) && s[0] !in s[1..]
  {
    if Distinct(s) {
      forall k | 0 <= k < |s[1..]| ensures s[1..][k] != s[0] {
        assert s[1..][k] == s[1 + k];
      }
    }
  }

  /** Without repetitions, the front has none either and lacks the last element. */
  lemma DistinctLast<T>(s: seq<T>)
    requires |s| > 0
    ensures Distinct(s) ==> Distinct(s[..|s| - 1]) && s[|s| - 1] !in s[..|s| - 1]
  {
  }

  /** The elements of a non-empty sequence are those of its front and its last one. */
  lemma MultisetSnoc<T>(s: seq<T>)
    requires |s| > 0
    ensures multiset(s) == multiset(s[..|s| - 1]) + multiset{s[|s| - 1]}
  {
    assert s == s[..|s| - 1] + [s[|s| - 1]];
  }

  /** Moving the head of `b` to the end of `a` leaves the concatenation as it was. */
  lemma ShiftHead<T>(a: seq<T>, b: seq<T>)
    requires |b| > 0
    ensures (a + [b[0]]) + b[1..] == a + b
  {
    assert b == [b[0]] + b[1..];
  }

  lemma FullPrefix<T>(s: seq<T>, k: nat)
    requires k == |s|
    ensures s[..k] == s
  {
  }

  /** One element more of a prefix, cut back, is the prefix again. */
  lemma PrefixOfPrefix<T>(s: seq<T>, j: nat)
    requires j < |s|
    ensures s[..j + 1][..j] == s[..j]
  {
  }

  /** Two adjacent slices from the start join into the longer prefix. */
  lemma PrefixJoin<T>(s: seq<T>, a: nat, b: nat)
    requires a <= b <= |s|
    ensures s[..a] + s[a..b] == s[..b]
  {
  }

  /** A prefix and the rest join into the whole. */
  lemma PrefixRest<T>(s: seq<T>, a: nat)
    requires a <= |s|
    ensures s[..a] + s[a..] == s
  {
  }

  lemma FullSuffix<T>(s: seq<T>)
    ensures s[0..] == s
  {
  }

  lemma EmptySuffix<T>(s: seq<T>)
    ensures s[|s|..] == []
  {
  }

  lemma AppendEmpty<T>(s: seq<T>)
    ensures s + [] == s
  {
  }

  lemma AppendAssociates<T>(a: seq<T>, b: seq<T>, c: seq<T>)
    ensures (a + b) + c == a + (b + c)
  {
  }

  /** A sequence without repetitions has as many elements as the set of them. */
  lemma {:induction false} DistinctCard<T>(s: seq<T>)
    requires Distinct(s)
    ensures |set x | x in s| == |s|
  {
    if |s| > 0 {
      var init := s[..|s| - 1];
      DistinctCard(init);
      assert (set x | x in s) == (set x | x in init) + {s[|s| - 1]};
      assert s[|s| - 1] !in (set x | x in init);
    }
  }

  /** Python's `s[start:]`: a negative start counts from the end, and both ends are
      clamped to the sequence. */
  function SliceFrom<T>(s: seq<T>, start: int): (r: seq<T>)
    ensures |r| <= |s|
    ensures 0 <= start ==> |r| == |s| - MinInt(start, |s|)
    ensures start < 0 ==> |r| == MinInt(-start, |s|)
    ensures r == s[|s| - |r|..]
  {
    if start >= 0 then s[MinInt(start, |s|)..]
    else if |s| + start < 0 then s
    else s[|s| + start..]
  }

  /** Python's `s[:stop]`: a negative stop counts from the end, and both ends are
      clamped to the sequence. */
  function SliceTo<T>(s: seq<T>, stop: int): (r: seq<T>)
    ensures 0 <= stop ==> |r| == MinInt(stop, |s|)
    ensures stop < 0 ==> |r| == |s| - MinInt(-stop, |s|)
    ensures r == s[..|r|]
  {
    if stop >= 0 then s[..MinInt(stop, |s|)]
    else if |s| + stop < 0 then []
    else s[..|s| + stop]
  }

  /** A Python slice bound: a negative bound counts from the end, and the result
      is clamped to [0, n]. */
  function SliceBound(i: int, n: nat): (r: nat)
    ensures r <= n
    ensures 0 <= i <= n ==> r == i
  {
    if i < 0 then (if i + n < 0 then 0 else i + n) else if i > n then n else i
  }

  /** Python's `s[a:b]`. */
  function Slice<T>(s: seq<T>, a: int, b: int): (r: seq<T>)
    ensures |r| <= |s|
    ensures 0 <= a <= b <= |s| ==> r == s[a..b]
  {
    var lo, hi := SliceBound(a, |s|), SliceBound(b, |s|);
    if lo < hi then s[lo..hi] else []
  }

  /** The lists one after another (`sum(lists, [])`). */
  function Concat<T>(ss: seq<seq<T>>): seq<T>
  {
    if |ss| == 0 then [] else ss[0] + Concat(ss[1..])
  }

  predicate StartsWith<T(==)>(s: seq<T>, prefix: seq<T>)
  {
    |prefix| <= |s| && s[..|prefix|] == prefix
  }

  /** Python's `sub in s` on strings. */
  predicate Contains<T(==)>(s: seq<T>, sub: seq<T>)
  {
    exists i :: 0 <= i <= |s| && StartsWith(s[i..], sub)
  }

  // ---------------------------------------------------------------------------
  // Python's whitespace handling: `str.split()`, `" ".join` and `str.strip()`
  // over ASCII whitespace.

  predicate IsSpace(c: char)
  {
    c == ' ' || '\t' <= c <= '\r'
  }

  predicate NoSpace(w: string)
  {
    forall k :: 0 <= k < |w| ==> !IsSpace(w[k])
  }

  /** The length of the word `s` starts with. */
  function WordLength(s: string): (n: nat)
    ensures n <= |s| && NoSpace(s[..n])
    ensures n < |s| ==> IsSpace(s[n])
    ensures |s| > 0 && !IsSpace(s[0]) ==> n > 0
  {
    if |s| == 0 || IsSpace(s[0]) then 0
    else
      var n := 1 + WordLength(s[1..]);
      assert forall k :: 1 <= k < n ==> s[..n][k] == s[1..][..n - 1][k - 1];
      n
  }

  /** `s.split()`: the maximal runs of non-whitespace, in order. */
  function Words(s: string): (r: seq<string>)
    ensures forall i :: 0 <= i < |r| ==> |r[i]| > 0 && NoSpace(r[i])
    decreases |s|
  {
    if |s| == 0 then []
    else if IsSpace(s[0]) then Words(s[1..])
    else
      var n := WordLength(s);
      var rest := Words(s[n..]);
      var r := [s[..n]] + rest;
      assert forall i :: 1 <= i < |r| ==> r[i] == rest[i - 1];
      r
  }

  /** `" ".join(ws)`. */
  function JoinWords(ws: seq<string>): (s: string)
  {
    if |ws| == 0 then "" else if |ws| == 1 then ws[0] else ws[0] + " " + JoinWords(ws[1..])
  }

  /** Splitting a join of words gives the words back. */
  lemma {:induction false} WordsOfJoin(ws: seq<string>)
    requires forall i :: 0 <= i < |ws| ==> |ws[i]| > 0 && NoSpace(ws[i])
    ensures Words(JoinWords(ws)) == ws
  {
    if |ws| > 0 {
      var w := ws[0];
      var s := JoinWords(ws);
      WordLengthOf(w, if |ws| == 1 then "" else " " + JoinWords(ws[1..]));
      if |ws| == 1 {
        assert s == w + "";
        assert s[|w|..] == "";
      } else {
        WordsOfJoin(ws[1..]);
        var tail := " " + JoinWords(ws[1..]);
        assert s == w + tail;
        assert s[|w|..] == tail;
        assert Words(tail) == Words(tail[1..]);
        assert tail[1..] == JoinWords(ws[1..]);
      }
    }
  }

  lemma {:induction false} WordLengthOf(w: string, rest: string)
    requires NoSpace(w)
    requires |rest| == 0 || IsSpace(rest[0])
    ensures WordLength(w + rest) == |w|
    ensures (w + rest)[..|w|] == w
  {
    if |w| > 0 {
      assert (w + rest)[1..] == w[1..] + rest;
      WordLengthOf(w[1..], rest);
    }
  }

  /** The number of whitespace characters `s` starts with. */
  function LeadingSpaces(s: string): (n: nat)
    ensures n <= |s|
    ensures forall k :: 0 <= k < n ==> IsSpace(s[k])
    ensures n < |s| ==> !IsSpace(s[n])
  {
    if |s| == 0 || !IsSpace(s[0]) then 0 else 1 + LeadingSpaces(s[1..])
  }

  /** The number of whitespace characters `s` ends with. */
  function TrailingSpaces(s: string): (n: nat)
    ensures n <= |s|
    ensures forall k :: |s| - n <= k < |s| ==> IsSpace(s[k])
    ensures n < |s| ==> !IsSpace(s[|s| - n - 1])
  {
    if |s| == 0 || !IsSpace(s[|s| - 1]) then 0 else 1 + TrailingSpaces(s[..|s| - 1])
  }

  /** `s.strip()`: the text between the leading and the trailing whitespace, which
      is empty when `s` is all whitespace. */
  function Strip(s: string): (r: string)
    ensures LeadingSpaces(s) + |r| <= |s|
    ensures |r| > 0 ==> !IsSpace(r[0]) && !IsSpace(r[|r| - 1])
    ensures r == s[LeadingSpaces(s)..LeadingSpaces(s) + |r|]
    ensures forall k :: 0 <= k < |s| && (k < LeadingSpaces(s) || k >= LeadingSpaces(s) + |r|) ==> IsSpace(s[k])
  {
    var a := LeadingSpaces(s);
    if a == |s| then ""
    else
      var b := TrailingSpaces(s);
      assert b < |s| - a by {
        assert !IsSpace(s[a]);
      }
      s[a..|s| - b]
  }
}
