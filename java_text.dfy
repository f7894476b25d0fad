/**
 * The java.lang.String operations the modelled code relies on:
 * trim, decimal toString of integers, literal replaceAll/replaceFirst,
 * replace with a one-character target and replacement, toUpperCase and
 * equalsIgnoreCase.
 */
module JavaText {

  /** The characters String.trim removes: everything up to and including the space. */
  predicate IsTrimmable(c: char) { c <= ' ' }

  function TrimStart(s: string): (r: string)
    ensures |r| <= |s| && r == s[|s| - |r|..]
    ensures r == [] || !IsTrimmable(r[0])
    ensures forall i :: 0 <= i < |s| - |r| ==> IsTrimmable(s[i])
  {
    if s != [] && IsTrimmable(s[0]) then TrimStart(s[1..]) else s
  }

  function TrimEnd(s: string): (r: string)
    ensures |r| <= |s| && r == s[..|r|]
    ensures r == [] || !IsTrimmable(r[|r| - 1])
    ensures forall i :: |r| <= i < |s| ==> IsTrimmable(s[i])
  {
    if s != [] && IsTrimmable(s[|s| - 1]) then TrimEnd(s[..|s| - 1]) else s
  }

  /** String.trim: strips trimmable characters from both ends. */
  function Trim(s: string): string
  {
    TrimEnd(TrimStart(s))
  }

  /** A string trims to nothing exactly when every character is trimmable. */
  lemma TrimEmptyIff(s: string)
    ensures Trim(s) == [] <==> forall i :: 0 <= i < |s| ==> IsTrimmable(s[i])
  {
    var t := TrimStart(s);
    if Trim(s) == [] {
      assert t == [];
    } else {
      var r := Trim(s);
      assert !IsTrimmable(r[0]);
      assert r[0] == t[0] == s[|s| - |t|];
    }
  }

  /** Trimming keeps every non-trimmable character at the ends, so trimming twice changes nothing more. */
  lemma TrimIdempotent(s: string)
    ensures Trim(Trim(s)) == Trim(s)
  {
    var r := Trim(s);
    if r != [] {
      assert r[|r| - 1] == TrimStart(s)[|r| - 1];
      var t := TrimStart(s);
      assert r == t[..|r|];
      assert !IsTrimmable(r[0]);
      assert TrimStart(r) == r;
    }
  }

  function DigitChar(d: nat): (c: char)
    requires d < 10
    ensures '0' <= c <= '9' && c as int - '0' as int == d
  {
    (d + '0' as int) as char
  }

  /** Decimal digits of a natural number, most significant first, no leading zeros. */
  function NatToString(n: nat): (r: string)
    ensures |r| >= 1
    ensures forall i :: 0 <= i < |r| ==> '0' <= r[i] <= '9'
    ensures n >= 10 ==> r[0] != '0'
  {
    if n < 10 then [DigitChar(n)] else NatToString(n / 10) + [DigitChar(n % 10)]
  }

  /** Integer.toString / Long.toString: a minus sign for negative numbers, then the digits. */
  function IntToString(n: int): string
  {
    if n < 0 then "-" + NatToString(-n) else NatToString(n)
  }

  /** Reads back the digits written by NatToString. */
  function ParseDigits(s: string): nat
    requires forall i :: 0 <= i < |s| ==> '0' <= s[i] <= '9'
  {
    if s == [] then 0 else ParseDigits(s[..|s| - 1]) * 10 + (s[|s| - 1] as int - '0' as int)
  }

  /** An optional minus sign followed by decimal digits. */
  predicate IsIntLiteral(s: string)
  {
    s != [] && (s[0] == '-' || '0' <= s[0] <= '9') && forall i :: 1 <= i < |s| ==> '0' <= s[i] <= '9'
  }

  function ParseInt(s: string): int
    requires IsIntLiteral(s)
  {
    if s[0] == '-' then 0 - ParseDigits(s[1..]) else ParseDigits(s)
  }

  lemma {:induction false} NatToStringRoundTrip(n: nat)
    ensures ParseDigits(NatToString(n)) == n
  {
    if n >= 10 {
      NatToStringRoundTrip(n / 10);
      var s := NatToString(n);
      assert s[..|s| - 1] == NatToString(n / 10);
    }
  }

  /** The decimal rendering of an integer determines the integer. */
  lemma IntToStringRoundTrip(n: int)
    ensures IsIntLiteral(IntToString(n)) && ParseInt(IntToString(n)) == n
  {
    if n < 0 {
      NatToStringRoundTrip(-n);
      assert IntToString(n)[1..] == NatToString(-n);
    } else {
      NatToStringRoundTrip(n);
    }
  }

  lemma IntToStringInjective(a: int, b: int)
    requires IntToString(a) == IntToString(b)
    ensures a == b
  {
    IntToStringRoundTrip(a);
    IntToStringRoundTrip(b);
  }

  /** True when pat occurs in s starting at index i. */
  predicate OccursAt(s: string, pat: string, i: nat)
  {
    i + |pat| <= |s| && s[i..i + |pat|] == pat
  }

  /**
   * String.replaceAll with a pattern that matches pat literally and a literal replacement:
   * scans left to right and replaces non-overlapping occurrences.
   */
  function ReplaceAll(s: string, pat: string, rep: string): string
    requires |pat| > 0
    decreases |s|
  {
    if |s| < |pat| then s
    else if s[..|pat|] == pat then rep + ReplaceAll(s[|pat|..], pat, rep)
    else [s[0]] + ReplaceAll(s[1..], pat, rep)
  }

  /** String.replaceFirst with a literal pattern and a literal replacement. */
  function ReplaceFirst(s: string, pat: string, rep: string): string
    requires |pat| > 0
    decreases |s|
  {
    if |s| < |pat| then s
    else if s[..|pat|] == pat then rep + s[|pat|..]
    else [s[0]] + ReplaceFirst(s[1..], pat, rep)
  }

  /** pat occurs nowhere in s. */
  predicate Absent(s: string, pat: string)
  {
    forall i: nat :: i <= |s| ==> !OccursAt(s, pat, i)
  }

  /** No occurrence of pat in s starts before index n. */
  predicate NoneBefore(s: string, pat: string, n: nat)
  {
    forall i: nat :: i < n ==> !OccursAt(s, pat, i)
  }

  /** Dropping the first character shifts every occurrence one place to the left. */
  lemma OccursShift(s: string, pat: string, i: nat)
    requires s != []
    ensures OccursAt(s[1..], pat, i) <==> OccursAt(s, pat, i + 1)
  {
    if i + |pat| <= |s[1..]| {
      assert s[1..][i..i + |pat|] == s[i + 1..i + 1 + |pat|];
    }
  }

  lemma AbsentTail(s: string, pat: string)
    requires s != [] && Absent(s, pat)
    ensures Absent(s[1..], pat)
  {
    forall i: nat | i <= |s[1..]| ensures !OccursAt(s[1..], pat, i) {
      OccursShift(s, pat, i);
    }
  }

  lemma NoneBeforeTail(s: string, pat: string, n: nat)
    requires s != [] && n > 0 && NoneBefore(s, pat, n)
    ensures NoneBefore(s[1..], pat, n - 1)
  {
    forall i: nat | i < n - 1 ensures !OccursAt(s[1..], pat, i) {
      OccursShift(s, pat, i);
    }
  }

  /** An occurrence starts with the pattern's first character. */
  lemma OccurrenceStartsWithHead(s: string, pat: string, i: nat)
    requires |pat| > 0 && OccursAt(s, pat, i)
    ensures s[i] == pat[0]
  {
    assert s[i..i + |pat|][0] == s[i];
  }

  /** A string without the pattern's first character holds no occurrence of it. */
  lemma AbsentWithoutHead(s: string, pat: string)
    requires |pat| > 0 && pat[0] !in s
    ensures Absent(s, pat)
  {
    forall i: nat | i <= |s| ensures !OccursAt(s, pat, i) {
      if OccursAt(s, pat, i) {
        OccurrenceStartsWithHead(s, pat, i);
      }
    }
  }

  /** Nor can an occurrence start inside a prefix without that character. */
  lemma NoneBeforeWithoutHead(a: string, pat: string, b: string)
    requires |pat| > 0 && pat[0] !in a
    ensures NoneBefore(a + pat + b, pat, |a|)
  {
    forall i: nat | i < |a| ensures !OccursAt(a + pat + b, pat, i) {
      assert (a + pat + b)[i] == a[i];
      if OccursAt(a + pat + b, pat, i) {
        OccurrenceStartsWithHead(a + pat + b, pat, i);
      }
    }
  }

  /** A string in which the pattern does not occur is left alone by replaceAll. */
  lemma {:induction false} ReplaceAllAbsent(s: string, pat: string, rep: string)
    requires |pat| > 0 && Absent(s, pat)
    ensures ReplaceAll(s, pat, rep) == s
  {
    if |s| >= |pat| {
      assert !OccursAt(s, pat, 0);
      AbsentTail(s, pat);
      ReplaceAllAbsent(s[1..], pat, rep);
    }
  }

  /**
   * The placeholder protocol: a text whose only occurrence of the placeholder is the one
   * between a and b gets exactly that placeholder replaced.
   */
  lemma {:induction false} ReplaceAllSingle(a: string, pat: string, b: string, rep: string)
    requires |pat| > 0 && NoneBefore(a + pat + b, pat, |a|) && Absent(b, pat)
    ensures ReplaceAll(a + pat + b, pat, rep) == a + rep + b
  {
    var s := a + pat + b;
    if a == [] {
      assert s == pat + b;
      assert s[..|pat|] == pat;
      assert s[|pat|..] == b;
      ReplaceAllAbsent(b, pat, rep);
    } else {
      assert !OccursAt(s, pat, 0);
      assert s[1..] == a[1..] + pat + b;
      NoneBeforeTail(s, pat, |a|);
      ReplaceAllSingle(a[1..], pat, b, rep);
      assert ReplaceAll(s, pat, rep) == [a[0]] + (a[1..] + rep + b);
      assert [a[0]] + (a[1..] + rep + b) == a + rep + b;
    }
  }

  /** A string in which the pattern does not occur is left alone by replaceFirst. */
  lemma {:induction false} ReplaceFirstAbsent(s: string, pat: string, rep: string)
    requires |pat| > 0 && Absent(s, pat)
    ensures ReplaceFirst(s, pat, rep) == s
  {
    if |s| >= |pat| {
      assert !OccursAt(s, pat, 0);
      AbsentTail(s, pat);
      ReplaceFirstAbsent(s[1..], pat, rep);
    }
  }

  /** replaceFirst replaces the first occurrence and keeps everything after it verbatim. */
  lemma {:induction false} ReplaceFirstAt(a: string, pat: string, b: string, rep: string)
    requires |pat| > 0 && NoneBefore(a + pat + b, pat, |a|)
    ensures ReplaceFirst(a + pat + b, pat, rep) == a + rep + b
  {
    var s := a + pat + b;
    if a == [] {
      assert s == pat + b;
      assert s[..|pat|] == pat;
      assert s[|pat|..] == b;
    } else {
      assert !OccursAt(s, pat, 0);
      assert s[1..] == a[1..] + pat + b;
      NoneBeforeTail(s, pat, |a|);
      ReplaceFirstAt(a[1..], pat, b, rep);
      assert ReplaceFirst(s, pat, rep) == [a[0]] + (a[1..] + rep + b);
      assert [a[0]] + (a[1..] + rep + b) == a + rep + b;
    }
  }

  /** String.replace with a one-character target and replacement: every occurrence is substituted. */
  function ReplaceChar(s: string, from: char, to: char): (r: string)
    ensures |r| == |s|
    ensures forall i :: 0 <= i < |s| ==> r[i] == if s[i] == from then to else s[i]
  {
    if s == [] then [] else [if s[0] == from then to else s[0]] + ReplaceChar(s[1..], from, to)
  }

  function ToUpperChar(c: char): char
  {
    if 'a' <= c <= 'z' then (c as int - 32) as char else c
  }

  function ToLowerChar(c: char): char
  {
    if 'A' <= c <= 'Z' then (c as int + 32) as char else c
  }

  /** String.toUpperCase, on the ASCII letters. */
  function ToUpper(s: string): (r: string)
    ensures |r| == |s|
    ensures forall i :: 0 <= i < |s| ==> r[i] == ToUpperChar(s[i])
  {
    if s == [] then [] else [ToUpperChar(s[0])] + ToUpper(s[1..])
  }

  /** String.equalsIgnoreCase, with ASCII case folding. */
  predicate EqualsIgnoreCase(a: string, b: string)
  {
    |a| == |b| && forall i :: 0 <= i < |a| ==> ToLowerChar(a[i]) == ToLowerChar(b[i])
  }
}
