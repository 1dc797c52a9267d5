/**
 The unique-slug algorithm shared by the three models of assemble/models1.0.py.

 Starting from a base slug (what `slugify(self.name)` produced), the models probe
 the candidates `base`, `base-1`, `base-2`, ... in that order and return the first
 one that is not already taken in the model's own table. The table's slugs are a
 finite set, which is what makes the probing terminate.
 */
module Slugs {

  // ---------------------------------------------------------------------------
  // Decimal numerals, as Python's f-string formats a non-negative int
  // ---------------------------------------------------------------------------

  predicate IsDigit(c: char) {
    '0' <= c <= '9'
  }

  predicate AllDigits(s: string) {
    forall i :: 0 <= i < |s| ==> IsDigit(s[i])
  }

  function DigitChar(d: nat): (c: char)
    requires d < 10
    ensures IsDigit(c)
  {
    (d + '0' as int) as char
  }

  function DigitValue(c: char): (d: nat)
    requires IsDigit(c)
    ensures d < 10 && DigitChar(d) == c
  {
    c as int - '0' as int
  }

  /** The decimal numeral of `n`: at least one digit, and no leading zero. */
  function Decimal(n: nat): (s: string)
    ensures |s| >= 1 && AllDigits(s)
    ensures s[0] == '0' ==> n == 0
    decreases n
  {
    if n < 10 then [DigitChar(n)] else Decimal(n / 10) + [DigitChar(n % 10)]
  }

  /** Reads a decimal numeral back; the inverse of `Decimal`. */
  function ParseDecimal(s: string): (n: nat)
    requires AllDigits(s)
    ensures s == [] ==> n == 0
    decreases |s|
  {
    if s == [] then 0 else 10 * ParseDecimal(s[..|s| - 1]) + DigitValue(s[|s| - 1])
  }

  lemma {:induction false} ParseDecimalOfDecimal(n: nat)
    ensures ParseDecimal(Decimal(n)) == n
    decreases n
  {
    if n >= 10 {
      var s := Decimal(n);
      assert s[..|s| - 1] == Decimal(n / 10);
      ParseDecimalOfDecimal(n / 10);
    }
  }

  /** Different numbers print differently. */
  lemma DecimalInjective(n: nat, m: nat)
    ensures Decimal(n) == Decimal(m) ==> n == m
  {
    ParseDecimalOfDecimal(n);
    ParseDecimalOfDecimal(m);
  }

  // ---------------------------------------------------------------------------
  // The probe order
  // ---------------------------------------------------------------------------

  /** The n-th slug probed: the base itself, then `base-n` built from the base. */
  function Candidate(base: string, n: nat): (c: string)
    ensures |c| >= |base| && c[..|base|] == base
  {
    if n == 0 then base else base + "-" + Decimal(n)
  }

  /**
   Every suffixed candidate is the original base, one hyphen and the digits of
   its number, so no candidate ever carries two suffixes (like `a-1-2`).
   */
  lemma CandidateShape(base: string, n: nat)
    requires n >= 1
    ensures |Candidate(base, n)| >= |base| + 2
    ensures Candidate(base, n)[..|base|] == base
    ensures Candidate(base, n)[|base|] == '-'
    ensures Candidate(base, n)[|base| + 1..] == Decimal(n)
  {
  }

  /** No candidate is probed twice. */
  lemma CandidateInjective(base: string, n: nat, m: nat)
    ensures Candidate(base, n) == Candidate(base, m) ==> n == m
  {
    if Candidate(base, n) == Candidate(base, m) {
      if n != 0 && m != 0 {
        CandidateShape(base, n);
        CandidateShape(base, m);
        DecimalInjective(n, m);
      } else if n != 0 {
        CandidateShape(base, n);
      } else if m != 0 {
        CandidateShape(base, m);
      }
    }
  }

  /** The first `k` candidates are all taken. */
  predicate AllTaken(base: string, taken: set<string>, k: nat) {
    forall j :: 0 <= j < k ==> Candidate(base, j) in taken
  }

  /** Candidate `n` is the first free one in the probe order. */
  predicate IsFirstFree(base: string, taken: set<string>, n: nat) {
    AllTaken(base, taken, n) && Candidate(base, n) !in taken
  }

  /** The set of the first `k` candidates. */
  function Probes(base: string, k: nat): (p: set<string>)
    ensures forall j :: 0 <= j < k ==> Candidate(base, j) in p
  {
    if k == 0 then {} else Probes(base, k - 1) + {Candidate(base, k - 1)}
  }

  lemma {:induction false} ProbesCount(base: string, k: nat)
    ensures |Probes(base, k)| == k
    ensures forall j :: j >= k ==> Candidate(base, j) !in Probes(base, k)
  {
    if k > 0 {
      ProbesCount(base, k - 1);
      forall j | j >= k
        ensures Candidate(base, j) !in Probes(base, k)
      {
        CandidateInjective(base, j, k - 1);
      }
    }
  }

  lemma {:induction false} ProbesWithin(base: string, taken: set<string>, k: nat)
    requires AllTaken(base, taken, k)
    ensures Probes(base, k) <= taken
  {
    if k > 0 {
      ProbesWithin(base, taken, k - 1);
    }
  }

  /**
   At most |taken| candidates can be taken, since the candidates are pairwise
   distinct; this is the termination argument of the probing loop.
   */
  lemma ProbeBound(base: string, taken: set<string>, k: nat)
    requires AllTaken(base, taken, k)
    ensures k <= |taken|
  {
    var p := Probes(base, k);
    ProbesCount(base, k);
    ProbesWithin(base, taken, k);
    assert taken == p + (taken - p);
    assert p * (taken - p) == {};
  }

  /**
   The index of the first free candidate at or after `k`, given that those
   before `k` are taken. It lies within |taken|, so the loop probes at most
   |taken| + 1 candidates.
   */
  function FirstFree(base: string, taken: set<string>, k: nat): (n: nat)
    requires AllTaken(base, taken, k)
    ensures k <= n <= |taken|
    ensures IsFirstFree(base, taken, n)
    decreases |taken| - k
  {
    ProbeBound(base, taken, k);
    if Candidate(base, k) !in taken then k
    else
      ProbeBound(base, taken, k + 1);
      FirstFree(base, taken, k + 1)
  }

  /**
   The slug `_get_unique_slug` returns: free in the table; the base itself when
   the base is free; otherwise `base-n` for some 1 <= n <= |taken| with every
   earlier candidate taken.
   */
  function UniqueSlug(base: string, taken: set<string>): (r: string)
    ensures r !in taken
    ensures base !in taken ==> r == base
    ensures base in taken ==>
      exists n :: 1 <= n <= |taken| && r == base + "-" + Decimal(n) && AllTaken(base, taken, n)
  {
    var n := FirstFree(base, taken, 0);
    assert n != 0 ==> Candidate(base, n) == base + "-" + Decimal(n);
    Candidate(base, n)
  }

  /** The unique slug is exactly the first free candidate in the probe order. */
  lemma UniqueSlugIsFirstFree(base: string, taken: set<string>, n: nat)
    ensures UniqueSlug(base, taken) == Candidate(base, n) <==> IsFirstFree(base, taken, n)
  {
    var m := FirstFree(base, taken, 0);
    assert UniqueSlug(base, taken) == Candidate(base, m);
    CandidateInjective(base, n, m);
  }

  /** The unique slug is empty only when the base is empty and no slug is empty yet. */
  lemma UniqueSlugEmpty(base: string, taken: set<string>)
    ensures UniqueSlug(base, taken) == "" <==> base == "" && "" !in taken
  {
  }

  /** `_get_unique_slug` of assemble/models1.0.py, with the table as a set. */
  method GetUniqueSlug(base: string, taken: set<string>) returns (uniqueSlug: string)
    ensures uniqueSlug == UniqueSlug(base, taken)
  {
    uniqueSlug := base;
    var num := 1;
    while uniqueSlug in taken
      invariant 1 <= num
      invariant uniqueSlug == Candidate(base, num - 1)
      invariant AllTaken(base, taken, num - 1)
      decreases |taken| - (num - 1)
    {
      ProbeBound(base, taken, num);
      uniqueSlug := base + "-" + Decimal(num);
      num := num + 1;
    }
    UniqueSlugIsFirstFree(base, taken, num - 1);
  }
}
