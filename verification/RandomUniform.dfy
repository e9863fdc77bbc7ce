/**
 random_uniform: rejection sampling over 64-bit words, without modulo bias.
 */
module RandomUniform {

  const WORDS: nat := 0x1_0000_0000_0000_0000

  datatype Draw = Drawn(value: nat, used: nat) | Exhausted

  // The operators of C on unsigned numbers.
  function Div(a: nat, b: nat): nat
    requires b > 0
  {
    a / b
  }

  function Mod(a: nat, b: nat): nat
    requires b > 0
  {
    a % b
  }

  // The expression -upper % upper on unsigned 64-bit words.
  function Threshold(upper: nat): nat
    requires 0 < upper < WORDS
  {
    Mod(WORDS - upper, upper)
  }

  /* The loop of random_uniform over a supply of random words: the first word that
     is not below the threshold decides, and its remainder is the result. */
  method RandomUniform(upper: nat, words: seq<nat>) returns (d: Draw)
    requires 0 < upper < WORDS && forall i :: 0 <= i < |words| ==> words[i] < WORDS
    ensures d.Drawn? ==>
              && 0 < d.used <= |words| && words[d.used - 1] >= Threshold(upper)
              && d.value == Mod(words[d.used - 1], upper) && d.value < upper
              && forall i :: 0 <= i < d.used - 1 ==> words[i] < Threshold(upper)
    ensures d.Exhausted? ==> forall i :: 0 <= i < |words| ==> words[i] < Threshold(upper)
  {
    var lower := Threshold(upper);
    var i := 0;
    while i < |words|
      invariant 0 <= i <= |words|
      invariant forall j :: 0 <= j < i ==> words[j] < lower
    {
      var value := words[i];
      if value >= lower {
        return Drawn(Mod(value, upper), i + 1);
      }
      i := i + 1;
    }
    return Exhausted;
  }

  // The words on which random_uniform returns r.
  ghost function Accepted(upper: nat, r: nat): set<nat>
    requires 0 < upper < WORDS
  {
    set v: nat | Threshold(upper) <= v < WORDS && Mod(v, upper) == r
  }

  // a divided by b is q, with remainder r.
  predicate Splits(a: nat, b: nat, q: nat, r: nat) {
    a == q * b + r && r < b
  }

  lemma DivMod(a: nat, b: nat)
    requires b > 0
    ensures Splits(a, b, Div(a, b), Mod(a, b))
  {
  }

  lemma MulAtLeast(k: nat, b: nat)
    requires k > 0
    ensures k * b >= b
  {
  }

  lemma Distribute(p: nat, k: nat, b: nat)
    ensures (p + k) * b == p * b + k * b
  {
  }

  lemma MulStep(p: nat, q: nat, b: nat)
    requires p < q
    ensures q * b >= p * b + b
  {
    MulAtLeast(q - p, b);
    Distribute(p, q - p, b);
  }

  // Quotient and remainder are unique.
  lemma SplitsOnce(a: nat, b: nat, q: nat, r: nat, q': nat, r': nat)
    requires Splits(a, b, q, r) && Splits(a, b, q', r')
    ensures q == q' && r == r'
  {
    if q < q' {
      MulStep(q, q', b);
    } else if q' < q {
      MulStep(q', q, b);
    }
  }

  lemma QuotientUnique(a: nat, b: nat, q: nat, r: nat)
    requires b > 0 && Splits(a, b, q, r)
    ensures Div(a, b) == q && Mod(a, b) == r
  {
    hide Splits, Div, Mod;
    DivMod(a, b);
    SplitsOnce(a, b, q, r, Div(a, b), Mod(a, b));
  }

  lemma SplitsMore(a: nat, b: nat, q: nat, r: nat)
    requires Splits(a, b, q, r)
    ensures Splits(a + b, b, q + 1, r)
  {
    Distribute(q, 1, b);
  }

  /* The rejected words are 2^64 mod upper in number. */
  lemma ThresholdIsRemainder(upper: nat)
    requires 0 < upper < WORDS
    ensures Threshold(upper) == Mod(WORDS, upper)
  {
    hide Splits, Div, Mod;
    var a := WORDS - upper;
    DivMod(a, upper);
    SplitsMore(a, upper, Div(a, upper), Mod(a, upper));
    QuotientUnique(WORDS, upper, Div(a, upper) + 1, Mod(a, upper));
  }

  // The numbers j * upper + r for n consecutive j from a on.
  ghost function Progression(upper: nat, r: nat, a: nat, n: nat): set<nat> {
    if n == 0 then {} else Progression(upper, r, a, n - 1) + {(a + n - 1) * upper + r}
  }

  lemma {:induction false} ProgressionSize(upper: nat, r: nat, a: nat, n: nat)
    requires upper > 0
    ensures |Progression(upper, r, a, n)| == n
    ensures forall v :: v in Progression(upper, r, a, n) ==> v < (a + n) * upper + r
  {
    if n > 0 {
      ProgressionSize(upper, r, a, n - 1);
      assert (a + n) * upper == (a + n - 1) * upper + upper;
    }
  }

  lemma {:induction false} ProgressionMembers(u: nat, r: nat, a: nat, n: nat, v: nat, k: nat, m: nat)
    requires r < u && Splits(v, u, k, m)
    ensures v in Progression(u, r, a, n) <==> m == r && a <= k < a + n
    decreases n
  {
    if n > 0 {
      ProgressionMembers(u, r, a, n - 1, v, k, m);
      var last := (a + n - 1) * u + r;
      if v == last {
        assert Splits(v, u, a + n - 1, r);
        SplitsOnce(v, u, k, m, a + n - 1, r);
      }
    }
  }

  // Numbers with remainder r from l on and below q * u + l, by their quotient k.
  lemma Window(u: nat, q: nat, l: nat, r: nat, k: nat)
    requires l < u && r < u
    ensures var first := if r < l then 1 else 0;
            l <= k * u + r < q * u + l <==> first <= k < first + q
  {
    if k > 0 {
      MulStep(0, k, u);
    }
    if k < q {
      MulStep(k, q, u);
    } else if k > q {
      MulStep(q, k, u);
    }
  }

  /* Numbers v that are at least l and less than w, with remainder r, where l is the
     remainder of w; all quotients and remainders are given as numbers. */
  lemma WindowMember(w: nat, u: nat, q: nat, l: nat, v: nat, k: nat, m: nat, r: nat)
    requires Splits(w, u, q, l) && Splits(v, u, k, m) && r < u
    ensures l <= v < w && m == r <==> v in Progression(u, r, if r < l then 1 else 0, q)
  {
    ProgressionMembers(u, r, if r < l then 1 else 0, q, v, k, m);
    if m == r {
      Window(u, q, l, r, k);
    }
  }

  /* No bias: every result is produced by the same number of words. */
  lemma Unbiased(upper: nat, r: nat)
    requires 0 < upper < WORDS && r < upper
    ensures |Accepted(upper, r)| == Div(WORDS, upper)
  {
    hide Threshold, Progression, Splits, Div, Mod;
    ThresholdIsRemainder(upper);
    DivMod(WORDS, upper);
    var q, l := Div(WORDS, upper), Mod(WORDS, upper);
    var first := if r < l then 1 else 0;
    forall v: nat ensures v in Accepted(upper, r) <==> v in Progression(upper, r, first, q) {
      DivMod(v, upper);
      WindowMember(WORDS, upper, q, l, v, Div(v, upper), Mod(v, upper), r);
    }
    assert Accepted(upper, r) == Progression(upper, r, first, q);
    ProgressionSize(upper, r, first, q);
  }
}
