/**
 * String primitives the application relies on, stated the way JavaScript
 * defines them: decimal rendering of numbers, `padStart`, `trim`,
 * `toLowerCase`, `includes`, `replace` with a string pattern, `split` on one
 * character and `join`.  Strings are sequences of characters.
 */
module Text {
  import opened Wrappers

  // ---------------------------------------------------------------------
  // Decimal digits

  predicate IsDigit(c: char) { '0' <= c <= '9' }

  predicate AllDigits(s: string) { forall i :: 0 <= i < |s| ==> IsDigit(s[i]) }

  function DigitValue(c: char): nat
    requires IsDigit(c)
  {
    (c as int) - ('0' as int)
  }

  function DigitChar(d: nat): (c: char)
    requires d < 10
    ensures IsDigit(c) && DigitValue(c) == d
  {
    (('0' as int) + d) as char
  }

  /** The decimal rendering of a non-negative integer, as a template literal prints it. */
  function NatToString(n: nat): (s: string)
    ensures 1 <= |s| && AllDigits(s)
    ensures n < 10 ==> |s| == 1
    ensures n < 100 ==> |s| <= 2
    decreases n
  {
    if n < 10 then [DigitChar(n)] else NatToString(n / 10) + [DigitChar(n % 10)]
  }

  /** The number a string of digits denotes (leading zeros allowed). */
  function DigitsValue(s: string): nat
    requires AllDigits(s)
  {
    if s == [] then 0 else DigitsValue(s[..|s| - 1]) * 10 + DigitValue(s[|s| - 1])
  }

  /** Reading back a rendered number gives the number. */
  lemma {:induction false} NatToStringValue(n: nat)
    ensures DigitsValue(NatToString(n)) == n
    decreases n
  {
    if n >= 10 {
      NatToStringValue(n / 10);
      var s := NatToString(n);
      assert s[..|s| - 1] == NatToString(n / 10);
    }
  }

  function Repeat(c: char, n: nat): (s: string)
    ensures |s| == n && forall i :: 0 <= i < n ==> s[i] == c
  {
    seq(n, _ => c)
  }

  lemma {:induction false} ZerosValue(n: nat)
    ensures AllDigits(Repeat('0', n)) && DigitsValue(Repeat('0', n)) == 0
  {
    if n > 0 {
      ZerosValue(n - 1);
      assert Repeat('0', n)[..n - 1] == Repeat('0', n - 1);
    }
  }

  /** Leading zeros do not change the value of a digit string. */
  lemma {:induction false} LeadingZerosValue(k: nat, ds: string)
    requires AllDigits(ds)
    ensures AllDigits(Repeat('0', k) + ds)
    ensures DigitsValue(Repeat('0', k) + ds) == DigitsValue(ds)
    decreases |ds|
  {
    var z := Repeat('0', k);
    if ds == [] {
      ZerosValue(k);
      assert z + ds == z;
    } else {
      var init := ds[..|ds| - 1];
      LeadingZerosValue(k, init);
      assert (z + ds)[..|z + ds| - 1] == z + init;
    }
  }

  /** JavaScript `s.padStart(width, c)`. */
  function PadStart(s: string, width: nat, c: char): (r: string)
    ensures |r| == if |s| >= width then |s| else width
    ensures r == Repeat(c, |r| - |s|) + s
  {
    if |s| >= width then (assert s == Repeat(c, 0) + s; s) else Repeat(c, width - |s|) + s
  }

  /** A number rendered with `toString().padStart(2, "0")`. */
  function TwoDigits(n: nat): (s: string)
    ensures AllDigits(s) && 2 <= |s|
    ensures n < 100 ==> |s| == 2
  {
    LeadingZerosValue(if |NatToString(n)| >= 2 then 0 else 2 - |NatToString(n)|, NatToString(n));
    PadStart(NatToString(n), 2, '0')
  }

  /** Length of the run of digits a string starts with. */
  function DigitRun(s: string): (k: nat)
    ensures k <= |s| && AllDigits(s[..k]) && (k == |s| || !IsDigit(s[k]))
  {
    if s == [] || !IsDigit(s[0]) then 0
    else
      var k := 1 + DigitRun(s[1..]);
      assert s[..k] == [s[0]] + s[1..][..k - 1];
      k
  }

  /** Reads the number a string starts with and returns it with the rest of the string. */
  function ReadNumber(s: string): Option<(nat, string)>
  {
    var k := DigitRun(s);
    if k == 0 then None else Some((DigitsValue(s[..k]), s[k..]))
  }

  /** The character that may follow a number without being read as part of it. */
  predicate StopsNumber(t: string) { t == [] || !IsDigit(t[0]) }

  lemma {:induction false} DigitRunOf(ds: string, t: string)
    requires AllDigits(ds) && StopsNumber(t)
    ensures DigitRun(ds + t) == |ds|
    decreases |ds|
  {
    if ds != [] {
      assert (ds + t)[1..] == ds[1..] + t;
      DigitRunOf(ds[1..], t);
    } else {
      assert ds + t == t;
    }
  }

  lemma ReadDigits(ds: string, t: string)
    requires 1 <= |ds| && AllDigits(ds) && StopsNumber(t)
    ensures ReadNumber(ds + t) == Some((DigitsValue(ds), t))
  {
    DigitRunOf(ds, t);
    assert (ds + t)[..|ds|] == ds;
    assert (ds + t)[|ds|..] == t;
  }

  /** A rendered number followed by a non-digit reads back as that number. */
  lemma ReadNatToString(n: nat, t: string)
    requires StopsNumber(t)
    ensures ReadNumber(NatToString(n) + t) == Some((n, t))
  {
    ReadDigits(NatToString(n), t);
    NatToStringValue(n);
  }

  /** The same for a number rendered with leading zeros. */
  lemma ReadPadded(n: nat, width: nat, t: string)
    requires StopsNumber(t)
    ensures ReadNumber(PadStart(NatToString(n), width, '0') + t) == Some((n, t))
  {
    var ds := NatToString(n);
    var p := PadStart(ds, width, '0');
    LeadingZerosValue(|p| - |ds|, ds);
    NatToStringValue(n);
    ReadDigits(p, t);
  }

  // ---------------------------------------------------------------------
  // Whitespace and trim

  /**
   * The characters JavaScript treats as white space for `trim` and for the
   * regular-expression class `\s`: the WhiteSpace and LineTerminator code
   * points of ECMA-262.
   */
  predicate IsWhitespace(c: char)
  {
    c == '\t' || c == '\n' || c == '\U{000B}' || c == '\U{000C}' || c == '\r' || c == ' '
    || c == '\U{00A0}' || c == '\U{1680}' || ('\U{2000}' <= c <= '\U{200A}')
    || c == '\U{2028}' || c == '\U{2029}' || c == '\U{202F}' || c == '\U{205F}'
    || c == '\U{3000}' || c == '\U{FEFF}'
  }

  /** Neither end of the string is white space. */
  predicate IsTrimmed(s: string) { s == [] || (!IsWhitespace(s[0]) && !IsWhitespace(s[|s| - 1])) }

  /** The number of white-space characters the string starts with. */
  function LeadingSpace(s: string): (k: nat)
    ensures k <= |s| && (k < |s| ==> !IsWhitespace(s[k]))
  {
    if s == [] || !IsWhitespace(s[0]) then 0 else 1 + LeadingSpace(s[1..])
  }

  lemma {:induction false} LeadingAllSpace(s: string)
    ensures forall j :: 0 <= j < LeadingSpace(s) ==> IsWhitespace(s[j])
  {
    if s != [] && IsWhitespace(s[0]) {
      LeadingAllSpace(s[1..]);
      forall j | 1 <= j < LeadingSpace(s) ensures IsWhitespace(s[j]) {
        assert s[j] == s[1..][j - 1];
      }
    }
  }

  /** The number of white-space characters the string ends with. */
  function TrailingSpace(s: string): (k: nat)
    ensures k <= |s| && (k < |s| ==> !IsWhitespace(s[|s| - 1 - k]))
  {
    if s == [] || !IsWhitespace(s[|s| - 1]) then 0 else 1 + TrailingSpace(s[..|s| - 1])
  }

  lemma {:induction false} TrailingAllSpace(s: string)
    ensures forall j :: |s| - TrailingSpace(s) <= j < |s| ==> IsWhitespace(s[j])
  {
    if s != [] && IsWhitespace(s[|s| - 1]) {
      TrailingAllSpace(s[..|s| - 1]);
      forall j | |s| - TrailingSpace(s) <= j < |s| - 1 ensures IsWhitespace(s[j]) {
        assert s[j] == s[..|s| - 1][j];
      }
    }
  }

  /**
   * JavaScript `s.trim()`: the result is the slice of `s` left after cutting
   * the white space from both ends, and has no white space at either end.
   */
  function Trim(s: string): (r: string)
    ensures IsTrimmed(r)
    ensures LeadingSpace(s) + |r| <= |s| && r == s[LeadingSpace(s)..LeadingSpace(s) + |r|]
    ensures r == [] ==> LeadingSpace(s) == |s|
    ensures r != [] ==> LeadingSpace(s) + |r| + TrailingSpace(s) == |s|
  {
    var i := LeadingSpace(s);
    if i == |s| then []
    else
      var t := TrailingSpace(s);
      assert t < |s| - i by {
        TrailingAllSpace(s);
      }
      s[i..|s| - t]
  }

  /** Trimming cuts white space only: every character outside the kept slice is white space. */
  lemma TrimDropsOnlyWhitespace(s: string)
    ensures forall j :: 0 <= j < |s| && !(LeadingSpace(s) <= j < LeadingSpace(s) + |Trim(s)|) ==> IsWhitespace(s[j])
  {
    LeadingAllSpace(s);
    TrailingAllSpace(s);
  }

  /** A trimmed string is its own trim; in particular trimming is idempotent. */
  lemma TrimOfTrimmed(s: string)
    requires IsTrimmed(s)
    ensures Trim(s) == s
  {
  }

  lemma TrimIdempotent(s: string)
    ensures Trim(Trim(s)) == Trim(s)
  {
    TrimOfTrimmed(Trim(s));
  }

  // ---------------------------------------------------------------------
  // Case

  /** `toLowerCase` on one character; only the ASCII letters are mapped. */
  function LowerChar(c: char): char
  {
    if 'A' <= c <= 'Z' then ((c as int) + 32) as char else c
  }

  function ToLower(s: string): (r: string)
    ensures |r| == |s| && forall i :: 0 <= i < |s| ==> r[i] == LowerChar(s[i])
  {
    seq(|s|, i requires 0 <= i < |s| => LowerChar(s[i]))
  }

  predicate HasNoUpper(s: string) { forall i :: 0 <= i < |s| ==> !('A' <= s[i] <= 'Z') }

  lemma ToLowerOfLower(s: string)
    requires HasNoUpper(s)
    ensures ToLower(s) == s
  {
  }

  /** Case folding works character by character, so it distributes over concatenation. */
  lemma ToLowerAppend(a: string, b: string)
    ensures ToLower(a + b) == ToLower(a) + ToLower(b)
  {
  }

  // ---------------------------------------------------------------------
  // Searching

  /** `p` occurs in `s` starting at index `k`. */
  predicate OccursAt(s: string, p: string, k: int)
  {
    0 <= k && k + |p| <= |s| && s[k..k + |p|] == p
  }

  /** JavaScript `s.indexOf(p)`: the first position where `p` occurs, if any. */
  function IndexOf(s: string, p: string): (r: Option<nat>)
    ensures r.Some? ==> OccursAt(s, p, r.value)
    ensures r.Some? ==> forall k :: 0 <= k < r.value ==> !OccursAt(s, p, k)
    ensures r.None? ==> forall k :: !OccursAt(s, p, k)
    decreases |s|
  {
    if |p| <= |s| && s[..|p|] == p then Some(0)
    else if |s| <= |p| then None
    else
      assert forall k :: 1 <= k ==> OccursAt(s, p, k) == OccursAt(s[1..], p, k - 1) by {
        forall k | 1 <= k ensures OccursAt(s, p, k) == OccursAt(s[1..], p, k - 1) {
          OccursShift(s, p, k);
        }
      }
      match IndexOf(s[1..], p)
      case None => None
      case Some(i) => Some(i + 1)
  }

  lemma OccursShift(s: string, p: string, k: int)
    requires 1 <= k && s != []
    ensures OccursAt(s, p, k) == OccursAt(s[1..], p, k - 1)
  {
    if k + |p| <= |s| {
      var a, b := s[k..k + |p|], s[1..][k - 1..k - 1 + |p|];
      assert |a| == |b|;
      forall i | 0 <= i < |a| ensures a[i] == b[i] {
        assert a[i] == s[k + i];
        assert b[i] == s[1..][k - 1 + i];
      }
      assert a == b;
    }
  }

  /** JavaScript `s.includes(p)`. */
  predicate Contains(s: string, p: string) { IndexOf(s, p).Some? }

  lemma ContainsIff(s: string, p: string)
    ensures Contains(s, p) <==> exists k :: OccursAt(s, p, k)
  {
  }

  /** The first occurrence is unique: an occurrence with none before it is what `IndexOf` finds. */
  lemma IndexOfIs(s: string, p: string, k: nat)
    requires OccursAt(s, p, k)
    requires forall j :: 0 <= j < k ==> !OccursAt(s, p, j)
    ensures IndexOf(s, p) == Some(k)
  {
  }

  /**
   * A pattern cannot occur where one of its characters, `p[j]`, does not:
   * if every occurrence of `p[j]` in `s` sits before index `j`, `p` is absent.
   */
  lemma AbsentByCharacter(s: string, p: string, j: nat)
    requires j < |p|
    requires forall i :: 0 <= i < |s| && s[i] == p[j] ==> i < j
    ensures !Contains(s, p)
  {
    forall k | 0 <= k && k + |p| <= |s| ensures !OccursAt(s, p, k) {
      assert s[k..k + |p|][j] == s[k + j];
      assert s[k + j] != p[j];
    }
  }

  /** A pattern longer than the string never occurs in it. */
  lemma AbsentByLength(s: string, p: string)
    requires |p| > |s|
    ensures !Contains(s, p)
  {
  }

  /** Some pattern of the list occurs in `s` (JavaScript `ps.some(p => s.includes(p))`). */
  predicate ContainsAny(s: string, ps: seq<string>)
  {
    exists i :: 0 <= i < |ps| && Contains(s, ps[i])
  }

  /** JavaScript `s.replace(p, q)` with a string pattern: only the first occurrence is replaced. */
  function ReplaceFirst(s: string, p: string, q: string): (r: string)
    ensures !Contains(s, p) ==> r == s
    ensures Contains(s, p) ==>
              var i := IndexOf(s, p).value; r == s[..i] + q + s[i + |p|..]
  {
    match IndexOf(s, p)
    case None => s
    case Some(i) => s[..i] + q + s[i + |p|..]
  }

  /** Replacing a pattern by itself leaves the string as it was. */
  lemma ReplaceBySelf(s: string, p: string)
    ensures ReplaceFirst(s, p, p) == s
  {
    if Contains(s, p) {
      var i := IndexOf(s, p).value;
      assert s == s[..i] + s[i..i + |p|] + s[i + |p|..];
    }
  }

  // ---------------------------------------------------------------------
  // Split and join

  /** JavaScript `s.split(c)` for a one-character separator. */
  function SplitOn(s: string, c: char): (parts: seq<string>)
    ensures 1 <= |parts|
    decreases |s|
  {
    match IndexOf(s, [c])
    case None => [s]
    case Some(i) => [s[..i]] + SplitOn(s[i + 1..], c)
  }

  predicate Lacks(s: string, c: char) { forall i :: 0 <= i < |s| ==> s[i] != c }

  /** A concatenation lacks a character exactly when both parts do. */
  lemma LacksAppend(x: string, y: string, c: char)
    ensures Lacks(x + y, c) <==> Lacks(x, c) && Lacks(y, c)
  {
    if Lacks(x + y, c) {
      forall k | 0 <= k < |x| ensures x[k] != c {
        assert x[k] == (x + y)[k];
      }
      forall k | 0 <= k < |y| ensures y[k] != c {
        assert y[k] == (x + y)[|x| + k];
      }
    }
    if Lacks(x, c) && Lacks(y, c) {
      forall k | 0 <= k < |x + y| ensures (x + y)[k] != c {
        if k < |x| {
          assert (x + y)[k] == x[k];
        } else {
          assert (x + y)[k] == y[k - |x|];
        }
      }
    }
  }

  lemma SplitNone(s: string, c: char)
    requires Lacks(s, c)
    ensures SplitOn(s, c) == [s]
  {
    forall k | 0 <= k && k + 1 <= |s| ensures !OccursAt(s, [c], k) {
      assert s[k..k + 1][0] == s[k];
    }
  }

  /** The first separator cuts off the first part; the rest is split on its own. */
  lemma SplitHead(a: string, c: char, b: string)
    requires Lacks(a, c)
    ensures SplitOn(a + [c] + b, c) == [a] + SplitOn(b, c)
  {
    var s := a + [c] + b;
    assert OccursAt(s, [c], |a|);
    forall j | 0 <= j < |a| ensures !OccursAt(s, [c], j) {
      assert s[j..j + 1][0] == a[j];
    }
    IndexOfIs(s, [c], |a|);
    assert s[..|a|] == a;
    assert s[|a| + 1..] == b;
  }

  /** Splitting at the only separator gives the parts on either side of it. */
  lemma SplitOnce(a: string, c: char, b: string)
    requires Lacks(a, c) && Lacks(b, c)
    ensures SplitOn(a + [c] + b, c) == [a, b]
  {
    SplitHead(a, c, b);
    SplitNone(b, c);
  }

  /** A string that splits into two parts is the first part, the separator and the second. */
  lemma SplitTwo(s: string, c: char)
    requires |SplitOn(s, c)| == 2
    ensures var parts := SplitOn(s, c);
      s == parts[0] + [c] + parts[1] && Lacks(parts[0], c) && Lacks(parts[1], c)
  {
    var i := IndexOf(s, [c]).value;
    var rest := s[i + 1..];
    assert IndexOf(rest, [c]).None?;
    forall k | 0 <= k < i ensures s[k] != c {
      assert !OccursAt(s, [c], k);
      assert s[k..k + 1][0] == s[k];
    }
    forall k | 0 <= k < |rest| ensures rest[k] != c {
      assert !OccursAt(rest, [c], k);
      assert rest[k..k + 1][0] == rest[k];
    }
    assert s[i..i + 1][0] == s[i];
    assert s == s[..i] + [c] + rest;
  }

  /** JavaScript `xs.join(sep)`. */
  function Join(xs: seq<string>, sep: string): (r: string)
    ensures |xs| == 1 ==> r == xs[0]
    ensures |xs| >= 1 ==> |r| >= |xs[0]| && r[..|xs[0]|] == xs[0]
  {
    if xs == [] then ""
    else if |xs| == 1 then xs[0]
    else xs[0] + sep + Join(xs[1..], sep)
  }

  /** Joining with a separator the parts do not contain splits back into the parts. */
  lemma {:induction false} SplitJoin(xs: seq<string>, c: char)
    requires 1 <= |xs|
    requires forall i :: 0 <= i < |xs| ==> Lacks(xs[i], c)
    ensures SplitOn(Join(xs, [c]), c) == xs
  {
    if |xs| == 1 {
      SplitNone(xs[0], c);
    } else {
      SplitHead(xs[0], c, Join(xs[1..], [c]));
      SplitJoin(xs[1..], c);
      assert xs == [xs[0]] + xs[1..];
    }
  }

  /** Each of `ys` with `tail` put in front of it. */
  function Led(ys: seq<string>, tail: string): (r: seq<string>)
    ensures |r| == |ys| && forall i :: 0 <= i < |ys| ==> r[i] == tail + ys[i]
  {
    seq(|ys|, i requires 0 <= i < |ys| => tail + ys[i])
  }

  /**
   * Joining with a separator that starts with a character none of the parts
   * holds: splitting at that character gives back the first part and each
   * other part with the rest of the separator in front of it.
   */
  lemma SplitJoinLed(xs: seq<string>, c: char, tail: string)
    requires 1 <= |xs| && Lacks(tail, c)
    requires forall i :: 0 <= i < |xs| ==> Lacks(xs[i], c)
    ensures SplitOn(Join(xs, [c] + tail), c) == [xs[0]] + Led(xs[1..], tail)
  {
    var sep := [c] + tail;
    if |xs| == 1 {
      SplitNone(xs[0], c);
      assert Led(xs[1..], tail) == [];
    } else {
      var rest := Join(xs[1..], sep);
      assert Join(xs, sep) == xs[0] + [c] + (tail + rest);
      SplitHead(xs[0], c, tail + rest);
      SplitLed(xs[1..], c, tail);
    }
  }

  lemma {:induction false} SplitLed(ys: seq<string>, c: char, tail: string)
    requires 1 <= |ys| && Lacks(tail, c)
    requires forall i :: 0 <= i < |ys| ==> Lacks(ys[i], c)
    ensures SplitOn(tail + Join(ys, [c] + tail), c) == Led(ys, tail)
  {
    var sep := [c] + tail;
    LacksAppend(tail, ys[0], c);
    if |ys| == 1 {
      SplitNone(tail + ys[0], c);
    } else {
      var rest := Join(ys[1..], sep);
      assert tail + Join(ys, sep) == (tail + ys[0]) + [c] + (tail + rest);
      SplitHead(tail + ys[0], c, tail + rest);
      SplitLed(ys[1..], c, tail);
      assert Led(ys, tail) == [tail + ys[0]] + Led(ys[1..], tail);
    }
  }
}
