/**
 * Allocating a new glottocode for a name: the first four characters of the
 * name's slug (padded by repeating the last one), followed by the next value
 * of a per-prefix counter kept in the repository's `glottocodes.json`.
 */
module Glottocodes {
  import opened Wrappers
  import opened Errors
  import opened Text
  import opened Identifiers

  /** The counter a prefix starts from when the store has none for it. */
  const DefaultCounter := 1233

  /** The contents of `glottocodes.json`, which a run reads and (unless dry) writes back. */
  class CodeStore {
    var counters: map<string, int>

    constructor (counters0: map<string, int>)
      ensures counters == counters0
    {
      counters := counters0;
    }
  }

  function Repeat(c: char, n: nat): (r: string)
    decreases n
    ensures |r| == n && forall i :: 0 <= i < n ==> r[i] == c
  {
    if n == 0 then "" else Repeat(c, n - 1) + [c]
  }

  /** `slug[:4]`, padded to four characters with its last character. */
  function PaddedPrefix(slug: string): (r: string)
    requires slug != ""
    ensures var n := if |slug| <= 4 then |slug| else 4;
      && |r| == 4
      && r[..n] == slug[..n]
      && forall i :: n <= i < 4 ==> r[i] == slug[n - 1]
  {
    var p := if |slug| <= 4 then slug else slug[..4];
    p + Repeat(p[|p| - 1], 4 - |p|)
  }

  /** `glottocodes.get(alpha, 1233) + 1` */
  function NextNumber(counters: map<string, int>, alpha: string): int {
    (if alpha in counters then counters[alpha] else DefaultCounter) + 1
  }

  /** The code handed out for `slug` and the counters afterwards. */
  function Allocation(slug: string, counters: map<string, int>): (string, map<string, int>)
    requires slug != ""
  {
    var alpha := PaddedPrefix(slug);
    var num := NextNumber(counters, alpha);
    (alpha + Decimal(num), counters[alpha := num])
  }

  /**
   * `glottocode_for_name(name, dry_run)` given `slug(name)`: an empty slug
   * fails; otherwise the code is the padded prefix followed by the bumped
   * counter, and the bumped counter is written back unless this is a dry run.
   */
  method GlottocodeForName(slug: string, store: CodeStore, dryRun: bool) returns (r: Result<string, Error>)
    modifies store
    ensures r.Success? <==> slug != ""
    ensures r.Failure? ==> r.error == EmptySlug && store.counters == old(store.counters)
    ensures r.Success? ==>
      && r.value == Allocation(slug, old(store.counters)).0
      && store.counters == (if dryRun then old(store.counters) else Allocation(slug, old(store.counters)).1)
  {
    var alpha := if |slug| <= 4 then slug else slug[..4];
    if alpha == "" {
      return Failure(EmptySlug);
    }
    ghost var p := alpha;
    while |alpha| < 4
      invariant |p| <= |alpha| <= 4
      invariant alpha == p + Repeat(p[|p| - 1], |alpha| - |p|)
      decreases 4 - |alpha|
    {
      alpha := alpha + [alpha[|alpha| - 1]];
    }
    var counters := store.counters;
    var num := (if alpha in counters then counters[alpha] else DefaultCounter) + 1;
    counters := counters[alpha := num];
    if !dryRun {
      store.counters := counters;
    }
    return Success(alpha + Decimal(num));
  }

  /** The counter of the allocated prefix goes up by one (to 1234 if it was absent); no other counter changes. */
  lemma {:induction false} AllocationCounters(slug: string, counters: map<string, int>)
    requires slug != ""
    ensures var (code, after) := Allocation(slug, counters);
      var alpha := PaddedPrefix(slug);
      && alpha in after
      && after[alpha] == (if alpha in counters then counters[alpha] + 1 else 1234)
      && after.Keys == counters.Keys + {alpha}
      && forall k :: k in counters && k != alpha ==> after[k] == counters[k]
  {
  }

  /**
   * A slug of lower-case letters and digits whose counter stays within four
   * digits gets a well-formed glottocode.
   */
  lemma {:induction false} AllocationIsGlottocode(slug: string, counters: map<string, int>)
    requires slug != "" && forall i :: 0 <= i < |slug| && i < 4 ==> IsLowerAlnum(slug[i])
    requires 1000 <= NextNumber(counters, PaddedPrefix(slug)) <= 9999
    ensures IsGlottocodeForm(Allocation(slug, counters).0)
  {
    var alpha := PaddedPrefix(slug);
    var num := NextNumber(counters, alpha);
    DecimalFourDigits(num);
    var code := alpha + Decimal(num);
    forall i | 0 <= i < 4 ensures IsLowerAlnum(code[i]) {
      var n := if |slug| <= 4 then |slug| else 4;
      if i < n {
        assert alpha[i] == alpha[..n][i] == slug[i];
      } else {
        assert alpha[i] == slug[n - 1];
      }
    }
    forall i | 4 <= i < 8 ensures IsAsciiDigit(code[i]) {
      assert code[i] == Decimal(num)[i - 4];
    }
  }

  /**
   * Two allocations in a row from the same store (the first not a dry run)
   * never hand out the same code.
   */
  lemma {:induction false} AllocationsDiffer(slug1: string, slug2: string, counters: map<string, int>)
    requires slug1 != "" && slug2 != ""
    ensures var (code1, after) := Allocation(slug1, counters);
      code1 != Allocation(slug2, after).0
  {
    var (code1, after) := Allocation(slug1, counters);
    var code2 := Allocation(slug2, after).0;
    var a1, a2 := PaddedPrefix(slug1), PaddedPrefix(slug2);
    var n1, n2 := NextNumber(counters, a1), NextNumber(after, a2);
    if code1 == code2 {
      assert a1 == code1[..4] == code2[..4] == a2;
      assert n2 == n1 + 1;
      assert Decimal(n1) == code1[4..] == code2[4..] == Decimal(n2);
      DecimalInjective(n1, n2);
    }
  }

  /**
   * Nothing stops a counter from passing 9999: the next code then has five
   * digits and no longer matches the id pattern.
   */
  lemma {:induction false} AllocationPastFourDigits(slug: string, counters: map<string, int>)
    requires slug != "" && forall i :: 0 <= i < |slug| && i < 4 ==> IsLowerAlnum(slug[i])
    requires NextNumber(counters, PaddedPrefix(slug)) == 10000
    ensures !IsId(Allocation(slug, counters).0)
  {
    var code := Allocation(slug, counters).0;
    assert Decimal(10000) == "10000";
    assert |code| == 9;
    assert !IsLowerAlnum('N');
    assert code[0] == slug[0] && code[..6][0] == code[0];
  }
}
