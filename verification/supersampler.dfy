/** Colour averaging for supersampling (src/supersampler.ts). */
module Supersampler {
  import opened Types

  /** `getSuperSampleAmount`: the width of one sub-pixel step. JavaScript
      would return Infinity for 0; the model requires a non-zero count. */
  function GetSuperSampleAmount(superSample: real): (step: real)
    requires superSample != 0.0
    ensures step * superSample == 1.0
    ensures superSample > 0.0 ==> step > 0.0
  {
    1.0 / superSample
  }

  /** The running sum of one channel, accumulated in list order. */
  function SumChannel(colors: seq<Color>, ch: Channel): real
    decreases |colors|
  {
    if |colors| == 0 then 0.0
    else SumChannel(colors[..|colors| - 1], ch) + Get(colors[|colors| - 1], ch)
  }

  function MinChannel(colors: seq<Color>, ch: Channel): real
    requires |colors| > 0
    decreases |colors|
  {
    if |colors| == 1 then Get(colors[0], ch)
    else
      var m := MinChannel(colors[..|colors| - 1], ch);
      var v := Get(colors[|colors| - 1], ch);
      if v < m then v else m
  }

  function MaxChannel(colors: seq<Color>, ch: Channel): real
    requires |colors| > 0
    decreases |colors|
  {
    if |colors| == 1 then Get(colors[0], ch)
    else
      var m := MaxChannel(colors[..|colors| - 1], ch);
      var v := Get(colors[|colors| - 1], ch);
      if v > m then v else m
  }

  /** `avgColors`: the per-channel arithmetic mean. The source divides by the
      list length, so an empty list would give NaN; the model requires at
      least one colour. Every channel of the mean lies between that
      channel's minimum and maximum over the inputs. */
  function AvgColors(colors: seq<Color>): (avg: Color)
    requires |colors| > 0
    ensures forall ch: Channel ::
              MinChannel(colors, ch) <= Get(avg, ch) <= MaxChannel(colors, ch)
  {
    var n := |colors| as real;
    var avg := Color(SumChannel(colors, R) / n, SumChannel(colors, G) / n,
                     SumChannel(colors, B) / n);
    assert forall ch: Channel :: Get(avg, ch) == SumChannel(colors, ch) / n;
    forall ch: Channel
      ensures MinChannel(colors, ch) <= Get(avg, ch) <= MaxChannel(colors, ch)
    {
      MeanWithinBounds(colors, ch);
    }
    avg
  }

  /** Each channel of the mean, times the number of colours, gives that
      channel's sum over the list. */
  lemma AvgColorsIsMean(colors: seq<Color>)
    requires |colors| > 0
    ensures var avg := AvgColors(colors);
            var n := |colors| as real;
            && avg.r * n == SumChannel(colors, R)
            && avg.g * n == SumChannel(colors, G)
            && avg.b * n == SumChannel(colors, B)
  {
  }

  /** The sum of n values lies between n times their minimum and n times
      their maximum. */
  lemma {:induction false} SumWithinBounds(colors: seq<Color>, ch: Channel)
    requires |colors| > 0
    ensures |colors| as real * MinChannel(colors, ch) <= SumChannel(colors, ch)
    ensures SumChannel(colors, ch) <= |colors| as real * MaxChannel(colors, ch)
    decreases |colors|
  {
    if |colors| == 1 {
      assert colors[..0] == [];
    } else {
      var init := colors[..|colors| - 1];
      SumWithinBounds(init, ch);
      SumStep(colors, ch);
    }
  }

  lemma {:induction false} SumStep(colors: seq<Color>, ch: Channel)
    requires |colors| > 1
    requires |colors[..|colors| - 1]| as real * MinChannel(colors[..|colors| - 1], ch)
             <= SumChannel(colors[..|colors| - 1], ch)
    requires SumChannel(colors[..|colors| - 1], ch)
             <= |colors[..|colors| - 1]| as real * MaxChannel(colors[..|colors| - 1], ch)
    ensures |colors| as real * MinChannel(colors, ch) <= SumChannel(colors, ch)
    ensures SumChannel(colors, ch) <= |colors| as real * MaxChannel(colors, ch)
  {
    SumStepLower(colors, ch);
    SumStepUpper(colors, ch);
  }

  lemma {:induction false} SumStepLower(colors: seq<Color>, ch: Channel)
    requires |colors| > 1
    requires |colors[..|colors| - 1]| as real * MinChannel(colors[..|colors| - 1], ch)
             <= SumChannel(colors[..|colors| - 1], ch)
    ensures |colors| as real * MinChannel(colors, ch) <= SumChannel(colors, ch)
  {
    var init := colors[..|colors| - 1];
    var v := Get(colors[|colors| - 1], ch);
    var lo := MinChannel(colors, ch);
    assert SumChannel(colors, ch) == SumChannel(init, ch) + v;
    assert lo <= MinChannel(init, ch) && lo <= v;
    StepLower(|init| as real, |colors| as real, MinChannel(init, ch), lo, SumChannel(init, ch), v);
  }

  lemma {:induction false} SumStepUpper(colors: seq<Color>, ch: Channel)
    requires |colors| > 1
    requires SumChannel(colors[..|colors| - 1], ch)
             <= |colors[..|colors| - 1]| as real * MaxChannel(colors[..|colors| - 1], ch)
    ensures SumChannel(colors, ch) <= |colors| as real * MaxChannel(colors, ch)
  {
    var init := colors[..|colors| - 1];
    var v := Get(colors[|colors| - 1], ch);
    var hi := MaxChannel(colors, ch);
    assert SumChannel(colors, ch) == SumChannel(init, ch) + v;
    assert MaxChannel(init, ch) <= hi && v <= hi;
    StepUpper(|init| as real, |colors| as real, MaxChannel(init, ch), hi, SumChannel(init, ch), v);
  }

  /** The inductive steps of `SumWithinBounds`. */
  lemma StepLower(n: real, n1: real, m: real, lo: real, s: real, v: real)
    requires n >= 0.0 && n1 == n + 1.0 && lo <= m && lo <= v && n * m <= s
    ensures n1 * lo <= s + v
  {
    MulMono(n, lo, m);
    assert n1 * lo == n * lo + lo;
  }

  lemma StepUpper(n: real, n1: real, m: real, hi: real, s: real, v: real)
    requires n >= 0.0 && n1 == n + 1.0 && m <= hi && v <= hi && s <= n * m
    ensures s + v <= n1 * hi
  {
    MulMono(n, m, hi);
    assert n1 * hi == n * hi + hi;
  }

  lemma MulMono(n: real, a: real, b: real)
    requires n >= 0.0 && a <= b
    ensures n * a <= n * b
  {
    assert n * b - n * a == n * (b - a);
  }

  lemma MeanWithinBounds(colors: seq<Color>, ch: Channel)
    requires |colors| > 0
    ensures MinChannel(colors, ch) <= SumChannel(colors, ch) / |colors| as real
    ensures SumChannel(colors, ch) / |colors| as real <= MaxChannel(colors, ch)
  {
    SumWithinBounds(colors, ch);
    DivBound(|colors| as real, MinChannel(colors, ch), SumChannel(colors, ch));
    DivBound(|colors| as real, -MaxChannel(colors, ch), -SumChannel(colors, ch));
  }

  lemma DivBound(n: real, lo: real, s: real)
    requires n > 0.0 && n * lo <= s
    ensures lo <= s / n
    ensures -(s / n) == (-s) / n
  {
    var q := s / n;
    assert q * n == s;
    assert n * (q - lo) == s - n * lo;
  }

  /** n copies of one value sum to n times that value. */
  lemma {:induction false} SumOfCopies(colors: seq<Color>, c: Color, ch: Channel)
    requires forall i :: 0 <= i < |colors| ==> colors[i] == c
    ensures SumChannel(colors, ch) == |colors| as real * Get(c, ch)
    decreases |colors|
  {
    if |colors| > 0 {
      SumOfCopies(colors[..|colors| - 1], c, ch);
    }
  }

  /** Averaging N >= 1 copies of one colour gives that colour back. */
  lemma AvgOfCopies(colors: seq<Color>, c: Color)
    requires |colors| > 0
    requires forall i :: 0 <= i < |colors| ==> colors[i] == c
    ensures AvgColors(colors) == c
  {
    var n := |colors| as real;
    SumOfCopies(colors, c, R);
    SumOfCopies(colors, c, G);
    SumOfCopies(colors, c, B);
    assert (n * c.r) / n == c.r;
    assert (n * c.g) / n == c.g;
    assert (n * c.b) / n == c.b;
  }

  /** Averaging white and black gives 50% grey. */
  lemma AvgWhiteBlack()
    ensures AvgColors([White, Black]) == Color(0.5, 0.5, 0.5)
  {
    var cs := [White, Black];
    assert cs[..1] == [White];
    assert [White][..0] == [];
    forall ch: Channel
      ensures SumChannel(cs, ch) == 1.0
    {
      assert SumChannel([White], ch) == 1.0;
    }
  }
}
