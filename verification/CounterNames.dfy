/** Names of the shared counters that full GPUs and MIG partitions consume. */
module CounterNames {
  import opened Decimal
  import opened MigNames

  predicate IsUpper(c: char) {
    'A' <= c <= 'Z'
  }

  predicate IsLower(c: char) {
    'a' <= c <= 'z'
  }

  /** A hyphen before an upper-case letter that follows a lower-case letter or a digit. */
  function SplitBeforeUpper(s: string, i: nat): string
    requires i <= |s|
    decreases |s| - i
  {
    if i == |s| then ""
    else if i > 0 && IsUpper(s[i]) && (IsLower(s[i - 1]) || IsDigit(s[i - 1]))
    then "-" + [s[i]] + SplitBeforeUpper(s, i + 1)
    else [s[i]] + SplitBeforeUpper(s, i + 1)
  }

  /** A hyphen before the last letter of an upper-case run that a lower-case letter follows. */
  function SplitAcronym(s: string, i: nat): string
    requires i <= |s|
    decreases |s| - i
  {
    if i == |s| then ""
    else if 0 < i < |s| - 1 && IsUpper(s[i]) && IsUpper(s[i - 1]) && IsLower(s[i + 1])
    then "-" + [s[i]] + SplitAcronym(s, i + 1)
    else [s[i]] + SplitAcronym(s, i + 1)
  }

  function CamelToDnsName(s: string): string {
    ToRfc1123Compliant(SplitAcronym(SplitBeforeUpper(s, 0), 0))
  }

  function MemSliceCounterName(i: int): string {
    "memory-slice-" + PrintInt(i)
  }

  // ------------------------------------------------- names without their hyphens

  function Skeleton(s: string): string {
    if s == "" then "" else (if s[0] == '-' then "" else [s[0]]) + Skeleton(s[1..])
  }

  lemma {:induction false} SkeletonConcat(a: string, b: string)
    ensures Skeleton(a + b) == Skeleton(a) + Skeleton(b)
  {
    if a == "" {
      assert a + b == b;
    } else {
      assert (a + b)[1..] == a[1..] + b;
      SkeletonConcat(a[1..], b);
    }
  }

  lemma SkeletonOfStep(c: char, rest: string)
    ensures Skeleton([c] + rest) == (if c == '-' then "" else [c]) + Skeleton(rest)
    ensures Skeleton("-" + [c] + rest) == Skeleton([c] + rest)
  {
    assert ([c] + rest)[1..] == rest;
    assert ("-" + [c] + rest)[1..] == [c] + rest;
  }

  lemma {:induction false} SkeletonOfSplitBeforeUpper(s: string, i: nat)
    requires i <= |s|
    ensures Skeleton(SplitBeforeUpper(s, i)) == Skeleton(s[i..])
    ensures |SplitBeforeUpper(s, i)| <= 2 * (|s| - i)
    decreases |s| - i
  {
    if i < |s| {
      SkeletonOfSplitBeforeUpper(s, i + 1);
      assert s[i..] == [s[i]] + s[i + 1..];
      SkeletonOfStep(s[i], s[i + 1..]);
      SkeletonOfStep(s[i], SplitBeforeUpper(s, i + 1));
    }
  }

  lemma {:induction false} SkeletonOfSplitAcronym(s: string, i: nat)
    requires i <= |s|
    ensures Skeleton(SplitAcronym(s, i)) == Skeleton(s[i..])
    ensures |SplitAcronym(s, i)| <= 2 * (|s| - i)
    decreases |s| - i
  {
    if i < |s| {
      SkeletonOfSplitAcronym(s, i + 1);
      assert s[i..] == [s[i]] + s[i + 1..];
      SkeletonOfStep(s[i], s[i + 1..]);
      SkeletonOfStep(s[i], SplitAcronym(s, i + 1));
    }
  }

  lemma {:induction false} SkeletonOfTrim(s: string)
    ensures Skeleton(TrimLeftHyphens(s)) == Skeleton(s)
    ensures Skeleton(TrimRightHyphens(s)) == Skeleton(s)
    decreases |s|
  {
    if s != "" {
      SkeletonOfTrim(s[1..]);
      SkeletonOfTrim(s[..|s| - 1]);
      assert s == s[..|s| - 1] + [s[|s| - 1]];
      SkeletonConcat(s[..|s| - 1], [s[|s| - 1]]);
    }
  }

  predicate IsWord(s: string) {
    forall i :: 0 <= i < |s| ==> IsUpper(s[i]) || IsLower(s[i])
  }

  predicate IsHyphenated(s: string) {
    forall i :: 0 <= i < |s| ==> IsUpper(s[i]) || IsLower(s[i]) || s[i] == '-'
  }

  lemma {:induction false} SkeletonOfWord(s: string)
    requires IsWord(s)
    ensures Skeleton(s) == s
  {
    if s != "" {
      SkeletonOfWord(s[1..]);
    }
  }

  lemma {:induction false} SkeletonOfLowered(s: string)
    requires IsHyphenated(s)
    ensures Skeleton(Lowered(s)) == Lowered(Skeleton(s))
  {
    if s != "" {
      SkeletonOfLowered(s[1..]);
      assert Lowered(s) == [SanitiseChar(s[0])] + Lowered(s[1..]);
      SkeletonConcat([SanitiseChar(s[0])], Lowered(s[1..]));
    }
  }

  lemma {:induction false} SplitsAreHyphenated(s: string, i: nat)
    requires i <= |s| && IsHyphenated(s)
    ensures IsHyphenated(SplitBeforeUpper(s, i)) && IsHyphenated(SplitAcronym(s, i))
    decreases |s| - i
  {
    if i < |s| {
      SplitsAreHyphenated(s, i + 1);
    }
  }

  /** Capacity names are camel-case words; 63 letters leave room for every hyphen within 253 characters. */
  predicate IsCapacityName(s: string) {
    IsWord(s) && |s| <= 63
  }

  lemma LoweredHasNoDot(b: string)
    requires IsHyphenated(b)
    ensures '.' !in Lowered(b)
  {
    assert forall i :: 0 <= i < |b| ==> SanitiseChar(b[i]) != '.';
  }

  lemma SanitisedIsTrimmed(b: string)
    requires IsHyphenated(b) && |b| <= MAX_NAME_LENGTH
    ensures ToRfc1123Compliant(b) == TrimRightHyphens(TrimLeftHyphens(Lowered(b)))
  {
    hide Lowered;
    LoweredHasNoDot(b);
    LoweredLength(b);
    TrimmedMembers(Lowered(b));
  }

  lemma LoweredLength(b: string)
    ensures |Lowered(b)| == |b|
  {
  }

  /** Sanitising hyphenated letters only changes their case and drops outer hyphens. */
  lemma SanitisedSkeleton(b: string)
    requires IsHyphenated(b) && |b| <= MAX_NAME_LENGTH
    ensures Skeleton(ToRfc1123Compliant(b)) == Lowered(Skeleton(b))
  {
    hide Lowered, ToRfc1123Compliant;
    SanitisedIsTrimmed(b);
    SkeletonOfLowered(b);
    SkeletonOfTrim(Lowered(b));
    SkeletonOfTrim(TrimLeftHyphens(Lowered(b)));
  }

  /** Hyphens aside, a counter is named after its capacity in lower case. */
  lemma CounterNameSkeleton(s: string)
    requires IsCapacityName(s)
    ensures Skeleton(CamelToDnsName(s)) == Lowered(s)
  {
    hide ToRfc1123Compliant, Lowered;
    var a := SplitBeforeUpper(s, 0);
    var b := SplitAcronym(a, 0);
    SkeletonOfSplitBeforeUpper(s, 0);
    SkeletonOfSplitAcronym(a, 0);
    SplitsAreHyphenated(s, 0);
    SplitsAreHyphenated(a, 0);
    assert s[0..] == s && a[0..] == a;
    SkeletonOfWord(s);
    SanitisedSkeleton(b);
  }

  /** Trimming keeps to the characters it was given, so it cannot uncover a dot. */
  lemma TrimmedMembers(s: string)
    requires '.' !in s
    ensures var r := TrimRightHyphens(TrimLeftHyphens(s)); '.' !in r && |r| <= |s|
  {
    TrimRightShape(TrimLeftHyphens(s));
    TrimLeftMembers(s);
  }

  lemma {:induction false} TrimLeftMembers(s: string)
    ensures |TrimLeftHyphens(s)| <= |s| && forall c :: c in TrimLeftHyphens(s) ==> c in s
  {
    if s != "" && s[0] == '-' {
      TrimLeftMembers(s[1..]);
    }
  }

  // ---------------------------------------------------------- what a name looks like

  predicate AllLower(s: string) {
    forall i :: 0 <= i < |s| ==> IsLower(s[i])
  }

  lemma {:induction false} NoSplitInLowerCase(s: string, i: nat)
    requires i <= |s| && AllLower(s[i..])
    ensures SplitBeforeUpper(s, i) == s[i..]
    decreases |s| - i
  {
    if i < |s| {
      assert s[i..][0] == s[i] && s[i..][1..] == s[i + 1..];
      NoSplitInLowerCase(s, i + 1);
    }
  }

  lemma {:induction false} SplitOfTwoWords(a: string, u: char, b: string, i: nat)
    requires i <= |a| != 0 && AllLower(a) && IsUpper(u) && AllLower(b)
    ensures SplitBeforeUpper(a + [u] + b, i) == a[i..] + "-" + [u] + b
    decreases |a| - i
  {
    var s := a + [u] + b;
    if i == |a| {
      assert s[i + 1..] == b;
      NoSplitInLowerCase(s, i + 1);
    } else {
      SplitOfTwoWords(a, u, b, i + 1);
      assert s[i] == a[i] && a[i..] == [a[i]] + a[i + 1..];
    }
  }

  lemma {:induction false} NoAcronym(s: string, i: nat)
    requires i <= |s| && forall k :: 0 < k < |s| && IsUpper(s[k]) ==> !IsUpper(s[k - 1])
    ensures SplitAcronym(s, i) == s[i..]
    decreases |s| - i
  {
    if i < |s| {
      NoAcronym(s, i + 1);
      assert s[i..] == [s[i]] + s[i + 1..];
    }
  }

  lemma SanitisedIsLowered(s: string)
    requires 0 < |s| <= MAX_NAME_LENGTH && IsHyphenated(s) && s[0] != '-' && s[|s| - 1] != '-'
    ensures ToRfc1123Compliant(s) == Lowered(s)
  {
  }

  /** The name of a capacity that is one word is that word, ... */
  lemma CounterNameOfWord(a: string)
    requires 0 < |a| <= MAX_NAME_LENGTH && AllLower(a)
    ensures CamelToDnsName(a) == a
  {
    hide ToRfc1123Compliant, Lowered;
    assert a[0..] == a;
    NoSplitInLowerCase(a, 0);
    NoAcronym(a, 0);
    SanitisedIsLowered(a);
    LoweredWord(a);
  }

  lemma LoweredWord(a: string)
    requires AllLower(a)
    ensures Lowered(a) == a
  {
  }

  /** ... and one of two words has a hyphen between them. */
  lemma CounterNameOfTwoWords(a: string, u: char, b: string)
    requires a != "" && |a| + |b| <= MAX_NAME_LENGTH - 2 && AllLower(a) && IsUpper(u) && AllLower(b)
    ensures CamelToDnsName(a + [u] + b) == a + "-" + [ToLower(u)] + b
  {
    hide ToRfc1123Compliant, Lowered;
    var t := a + "-" + [u] + b;
    SplitOfTwoWords(a, u, b, 0);
    assert a[0..] == a && t[0..] == t;
    HyphenInTheMiddle(a, u, b);
    NoAcronym(t, 0);
    SanitisedIsLowered(t);
  }

  predicate AllUpper(s: string) {
    forall i :: 0 <= i < |s| ==> IsUpper(s[i])
  }

  lemma {:induction false} NoSplitInAcronym(s: string, n: nat, i: nat)
    requires i <= |s| && n <= |s| && AllUpper(s[..n]) && AllLower(s[n..])
    ensures SplitBeforeUpper(s, i) == s[i..]
    decreases |s| - i
  {
    if i < |s| {
      NoSplitInAcronym(s, n, i + 1);
      assert s[i..] == [s[i]] + s[i + 1..];
      assert i < n ==> s[..n][i] == s[i];
      assert i >= n ==> s[n..][i - n] == s[i];
      assert 0 < i <= n ==> s[..n][i - 1] == s[i - 1];
    }
  }

  lemma {:induction false} SplitOfAcronym(a: string, u: char, b: string, i: nat)
    requires i <= |a| != 0 && AllUpper(a) && IsUpper(u) && AllLower(b) && b != ""
    ensures SplitAcronym(a + [u] + b, i) == a[i..] + "-" + [u] + b
    decreases |a| - i
  {
    var s := a + [u] + b;
    assert forall k :: 0 <= k < |s| ==> s[k] == if k < |a| then a[k] else if k == |a| then u else b[k - |a| - 1];
    if i == |a| {
      assert s[i + 1..] == b;
      NoAcronymFrom(s, i + 1);
      assert SplitAcronym(s, i) == "-" + [u] + b;
      assert a[i..] == "";
    } else {
      SplitOfAcronym(a, u, b, i + 1);
      assert a[i..] == [a[i]] + a[i + 1..];
    }
  }

  lemma {:induction false} NoAcronymFrom(s: string, i: nat)
    requires i <= |s| && AllLower(s[i..])
    ensures SplitAcronym(s, i) == s[i..]
    decreases |s| - i
  {
    if i < |s| {
      assert s[i..][0] == s[i] && s[i..][1..] == s[i + 1..];
      NoAcronymFrom(s, i + 1);
    }
  }

  /** A run of capitals is one word, up to the capital that begins the next. */
  lemma CounterNameOfAcronym(a: string, u: char, b: string)
    requires a != "" && b != "" && |a| + |b| <= MAX_NAME_LENGTH - 2 && AllUpper(a) && IsUpper(u) && AllLower(b)
    ensures CamelToDnsName(a + [u] + b) == Lowered(a) + "-" + [ToLower(u)] + b
  {
    hide ToRfc1123Compliant, Lowered;
    var s, t := a + [u] + b, a + "-" + [u] + b;
    assert s[..|a| + 1] == a + [u] && s[|a| + 1..] == b && s[0..] == s && a[0..] == a;
    NoSplitInAcronym(s, |a| + 1, 0);
    SplitOfAcronym(a, u, b, 0);
    AcronymIsHyphenated(a, u, b);
    SanitisedIsLowered(t);
  }

  lemma AcronymIsHyphenated(a: string, u: char, b: string)
    requires a != "" && b != "" && AllUpper(a) && IsUpper(u) && AllLower(b)
    ensures var t := a + "-" + [u] + b;
            && IsHyphenated(t) && t[0] != '-' && t[|t| - 1] != '-' && Lowered(t) == Lowered(a) + "-" + [ToLower(u)] + b
  {
    var t := a + "-" + [u] + b;
    assert forall k :: 0 <= k < |t| ==> t[k] == if k < |a| then a[k] else if k == |a| then '-' else if k == |a| + 1 then u else b[k - |a| - 2];
  }

  lemma HyphenInTheMiddle(a: string, u: char, b: string)
    requires a != "" && AllLower(a) && IsUpper(u) && AllLower(b)
    ensures var t := a + "-" + [u] + b;
            && IsHyphenated(t) && t[0] != '-' && t[|t| - 1] != '-'
            && (forall k :: 0 < k < |t| && IsUpper(t[k]) ==> !IsUpper(t[k - 1]))
            && Lowered(t) == a + "-" + [ToLower(u)] + b
  {
    var t := a + "-" + [u] + b;
    assert forall k :: 0 <= k < |t| ==> t[k] == if k < |a| then a[k] else if k == |a| then '-' else if k == |a| + 1 then u else b[k - |a| - 2];
  }

  /** Two capacities that differ in more than the case of their letters get different counters. */
  lemma CounterNamesAreDistinct(s: string, t: string)
    requires IsCapacityName(s) && IsCapacityName(t)
    ensures CamelToDnsName(s) == CamelToDnsName(t) ==> Lowered(s) == Lowered(t)
  {
    CounterNameSkeleton(s);
    CounterNameSkeleton(t);
  }

  lemma {:induction false} SkeletonHasDigit(s: string, i: nat)
    requires i < |s| && IsDigit(s[i])
    ensures exists k :: 0 <= k < |Skeleton(s)| && IsDigit(Skeleton(s)[k])
  {
    if i == 0 {
      assert Skeleton(s)[0] == s[0];
    } else {
      SkeletonHasDigit(s[1..], i - 1);
      var k :| 0 <= k < |Skeleton(s[1..])| && IsDigit(Skeleton(s[1..])[k]);
      if s[0] != '-' {
        assert Skeleton(s)[k + 1] == Skeleton(s[1..])[k];
      } else {
        assert Skeleton(s) == Skeleton(s[1..]);
      }
    }
  }

  /** A capacity counter is never mistaken for a memory-slice counter. */
  lemma SliceNamesAreApart(s: string, i: nat)
    requires IsCapacityName(s)
    ensures CamelToDnsName(s) != MemSliceCounterName(i)
  {
    var m := MemSliceCounterName(i);
    assert IsDigit(m[|m| - 1]);
    SkeletonHasDigit(m, |m| - 1);
    CounterNameSkeleton(s);
  }

  lemma SliceNamesAreDistinct(i: nat, j: nat)
    ensures MemSliceCounterName(i) == MemSliceCounterName(j) ==> i == j
  {
    assert MemSliceCounterName(i)[13..] == Print(i);
    assert MemSliceCounterName(j)[13..] == Print(j);
    PrintIsInjective(i, j);
  }
}
