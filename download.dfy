/**
 * The download loop of the firmware flashers: blocks are read until an
 * empty one, the byte count accumulates, and after every read a 60-column
 * bar of `#` shows the share received. The network is an input: the
 * lengths the successive reads return (an exhausted input reads as empty).
 * The percentage text and the bytes themselves are not modelled.
 */
module Download {
  import opened Wrappers
  import opened Text

  const BarWidth: nat := 60

  /** `hash = (60 * total) // fileTotalbytes` */
  function HashCount(total: nat, size: nat): nat
    requires size > 0
  {
    (BarWidth * total) / size
  }

  /** `'#' * hash + ' ' * (60 - hash)`: a negative repeat count gives "". */
  function ProgressBar(total: nat, size: nat): (bar: string)
    requires size > 0
    ensures |bar| == if HashCount(total, size) > BarWidth then HashCount(total, size) else BarWidth
    ensures forall i :: 0 <= i < |bar| ==> (bar[i] == '#' <==> i < HashCount(total, size))
  {
    Repeat('#', HashCount(total, size)) + Repeat(' ', BarWidth - HashCount(total, size))
  }

  lemma DivBound(a: nat, b: nat, d: nat)
    requires d > 0 && a <= b
    ensures a / d <= b / d
  {
    assert d * (a / d) <= a;
    assert b < d * (b / d) + d;
    assert d * (a / d) < d * (b / d + 1);
    MulCancel(d, a / d, b / d + 1);
  }

  lemma MulCancel(d: nat, x: nat, y: nat)
    requires d > 0 && d * x < d * y
    ensures x < y
  {
  }

  /** While no more than the announced size has arrived, the bar holds at
      most 60 `#` and is exactly 60 columns; it is full when everything has
      arrived and empty before anything has. */
  lemma ProgressBarWidth(total: nat, size: nat)
    requires size > 0 && total <= size
    ensures HashCount(total, size) <= BarWidth
    ensures |ProgressBar(total, size)| == BarWidth
    ensures total == size ==> ProgressBar(total, size) == Repeat('#', BarWidth)
    ensures total == 0 ==> ProgressBar(total, size) == Repeat(' ', BarWidth)
  {
    DivBound(BarWidth * total, BarWidth * size, size);
    assert (BarWidth * size) / size == BarWidth;
    if total == size {
      assert ProgressBar(total, size) == Repeat('#', BarWidth) + Repeat(' ', 0);
    }
  }

  /** The bar never shrinks as more bytes arrive. */
  lemma ProgressBarGrows(before: nat, after: nat, size: nat)
    requires size > 0 && before <= after
    ensures HashCount(before, size) <= HashCount(after, size)
  {
    DivBound(BarWidth * before, BarWidth * after, size);
  }

  function Sum(s: seq<nat>): nat {
    if s == [] then 0 else Sum(s[..|s| - 1]) + s[|s| - 1]
  }

  lemma {:induction false} SumPrefixGrows(s: seq<nat>, i: nat, j: nat)
    requires i <= j <= |s|
    ensures Sum(s[..i]) <= Sum(s[..j])
    decreases j - i
  {
    if i < j {
      SumPrefixGrows(s, i, j - 1);
      assert s[..j][..j - 1] == s[..j - 1];
    }
  }

  /** The number of reads before the first empty one. */
  function FirstEmpty(lengths: seq<nat>): (n: nat)
    ensures n <= |lengths|
    ensures forall j :: 0 <= j < n ==> lengths[j] > 0
    ensures n < |lengths| ==> lengths[n] == 0
  {
    if lengths == [] || lengths[0] == 0 then 0 else 1 + FirstEmpty(lengths[1..])
  }

  /** What `download` ends with: the failure the outer handler prints, or the
      byte count and every bar drawn. */
  datatype DownloadError = ZeroDivisionError
  datatype Progress = Progress(total: nat, bars: seq<string>)

  /** The bars drawn for the first `n` non-empty reads, bar `k` for the bytes
      of the first `k + 1` reads. */
  function Bars(lengths: seq<nat>, size: nat, n: nat): (bars: seq<string>)
    requires size > 0 && n <= |lengths|
    ensures |bars| == n
  {
    if n == 0 then [] else Bars(lengths, size, n - 1) + [ProgressBar(Sum(lengths[..n]), size)]
  }

  lemma {:induction false} BarsAt(lengths: seq<nat>, size: nat, n: nat)
    requires size > 0 && n <= |lengths|
    ensures forall k :: 0 <= k < n ==> Bars(lengths, size, n)[k] == ProgressBar(Sum(lengths[..k + 1]), size)
  {
    if n > 0 {
      BarsAt(lengths, size, n - 1);
    }
  }

  /** `download`'s loop with the announced size `size`: the first division
      by a zero size fails; otherwise one bar is drawn per read, the empty
      read included, bar `k` for the bytes of the first `k + 1` reads, and
      the count is the sum of the non-empty reads. */
  method Download(lengths: seq<nat>, size: nat) returns (r: Result<Progress, DownloadError>)
    ensures size == 0 ==> r == Err(ZeroDivisionError)
    ensures size > 0 ==>
      && r.Ok?
      && r.value.total == Sum(lengths[..FirstEmpty(lengths)])
      && |r.value.bars| == FirstEmpty(lengths) + 1
      && forall k :: 0 <= k < |r.value.bars| ==>
           r.value.bars[k] == ProgressBar(Sum(lengths[..if k < FirstEmpty(lengths) then k + 1 else k]), size)
  {
    if size == 0 {
      // the first bar divides by the size
      return Err(ZeroDivisionError);
    }
    var total: nat := 0;
    var bars: seq<string> := [];
    var i := 0;
    while true
      invariant i <= FirstEmpty(lengths)
      invariant total == Sum(lengths[..i])
      invariant bars == Bars(lengths, size, i)
      decreases |lengths| - i
    {
      var block := if i < |lengths| then lengths[i] else 0;
      if block > 0 {
        assert lengths[..i + 1][..i] == lengths[..i];
      }
      total := total + block;
      bars := bars + [ProgressBar(total, size)];
      if block == 0 {
        break;
      }
      i := i + 1;
    }
    BarsAt(lengths, size, i);
    return Ok(Progress(total, bars));
  }

  /** A download that brings no more than the announced size draws only
      60-column bars, each with at least as many `#` as the one before. */
  lemma DownloadBarsFit(lengths: seq<nat>, size: nat, k: nat)
    requires size > 0 && Sum(lengths[..FirstEmpty(lengths)]) <= size
    requires k < FirstEmpty(lengths)
    ensures |ProgressBar(Sum(lengths[..k + 1]), size)| == BarWidth
    ensures HashCount(Sum(lengths[..k]), size) <= HashCount(Sum(lengths[..k + 1]), size)
  {
    SumPrefixGrows(lengths, k + 1, FirstEmpty(lengths));
    SumPrefixGrows(lengths, k, k + 1);
    ProgressBarWidth(Sum(lengths[..k + 1]), size);
    ProgressBarGrows(Sum(lengths[..k]), Sum(lengths[..k + 1]), size);
  }
}
