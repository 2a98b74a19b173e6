/** Overlapping windows over a text. */
module Chunking {

  function Min(a: int, b: int): int {
    if a <= b then a else b
  }

  function Max(a: int, b: int): int {
    if a >= b then a else b
  }

  /** Python's `text[from:to]`: a negative bound counts from the end, and an empty range is the empty text. */
  function Slice(text: string, from: nat, to: int): string {
    var end := if to < 0 then Max(to + |text|, 0) else Min(to, |text|);
    if from < end then text[from..end] else ""
  }

  function WindowsFrom(text: string, target: int, overlap: int, start: nat): seq<string>
    decreases |text| - start
  {
    if start >= |text| then [] else
    var end := Min(start + target, |text|);
    [Slice(text, start, end)]
    + if end == |text| then [] else WindowsFrom(text, target, overlap, Max(end - overlap, start + 1))
  }

  function Windows(text: string, target: int, overlap: int): seq<string> {
    if |text| <= target then (if text == "" then [] else [text]) else WindowsFrom(text, target, overlap, 0)
  }

  lemma {:induction false} OnePartMore(text: string, target: int, overlap: int, start: nat)
    ensures var end := Min(start + target, |text|);
            WindowsFrom(text, target, overlap, start)
            == if start >= |text| then []
               else if end == |text| then [Slice(text, start, end)]
               else [Slice(text, start, end)] + WindowsFrom(text, target, overlap, Max(end - overlap, start + 1))
  {
    hide Slice;
  }

  /** For every size and every overlap, negative ones too, the loop ends. */
  method Window(text: string, target: int, overlap: int) returns (parts: seq<string>)
    ensures parts == Windows(text, target, overlap)
  {
    hide WindowsFrom, Slice;
    if |text| <= target {
      return if text == "" then [] else [text];
    }
    parts := [];
    var start := 0;
    assert [] + WindowsFrom(text, target, overlap, 0) == WindowsFrom(text, target, overlap, 0);
    while start < |text|
      invariant 0 <= start
      invariant Windows(text, target, overlap) == parts + WindowsFrom(text, target, overlap, start)
      decreases |text| - start
    {
      var end := Min(start + target, |text|);
      var part := Slice(text, start, end);
      OnePartMore(text, target, overlap, start);
      if end == |text| {
        return parts + [part];
      }
      start := Max(end - overlap, start + 1);
      AppendFirst(parts, part, WindowsFrom(text, target, overlap, start));
      parts := parts + [part];
    }
    OnePartMore(text, target, overlap, start);
  }

  lemma {:induction false} AppendFirst(parts: seq<string>, part: string, rest: seq<string>)
    ensures parts + ([part] + rest) == parts + [part] + rest
  {
  }

  // ----- where the parts lie

  /** How far each part starts after the one before. */
  function Stride(target: int, overlap: int): int {
    Max(target - overlap, 1)
  }

  lemma {:induction false} Unfolded(text: string, target: int, overlap: int, start: nat)
    requires target >= 1 && overlap >= 0 && start < |text|
    ensures WindowsFrom(text, target, overlap, start)
         == if start + target >= |text| then [text[start..]]
            else [text[start..start + target]] + WindowsFrom(text, target, overlap, start + Stride(target, overlap))
  {
    var end := Min(start + target, |text|);
    assert Slice(text, start, end) == text[start..end];
    if end == |text| {
      assert text[start..end] == text[start..];
    } else {
      assert Max(end - overlap, start + 1) == start + Stride(target, overlap);
    }
  }

  /** The least number of parts that reaches the end of the text. */
  predicate IsPartCount(n: int, length: int, target: int, stride: int) {
    n >= 1 && (n - 1) * stride + target >= length && (n >= 2 ==> (n - 2) * stride + target < length)
  }

  /** Part k of the rest starts k strides further on and is cut at the target or at the end of the text. */
  lemma {:induction false} PartsFrom(text: string, target: int, overlap: int, start: nat, k: nat)
    requires target >= 1 && overlap >= 0 && start < |text|
    ensures var stride := Stride(target, overlap);
            var parts := WindowsFrom(text, target, overlap, start);
            && IsPartCount(|parts|, |text| - start, target, stride)
            && (k < |parts| ==>
                  && start + k * stride < |text|
                  && parts[k] == text[start + k * stride..Min(start + k * stride + target, |text|)])
    decreases |text| - start
  {
    hide WindowsFrom;
    var stride := Stride(target, overlap);
    Unfolded(text, target, overlap, start);
    if start + target < |text| {
      PartsFrom(text, target, overlap, start + stride, if k > 0 then k - 1 else 0);
      var n := |WindowsFrom(text, target, overlap, start + stride)|;
      assert (n - 1) * stride + stride == n * stride;
      assert n >= 2 ==> (n - 2) * stride + stride == (n - 1) * stride;
      if k > 0 {
        assert start + stride + (k - 1) * stride == start + k * stride;
      }
    }
  }

  /** The parts have a closed form: how many there are, and the exact stretch of text each one is. */
  lemma {:induction false} PartsLieAtStrides(text: string, target: int, overlap: int, k: nat)
    requires target >= 1 && overlap >= 0 && text != ""
    ensures var stride := Stride(target, overlap);
            var parts := Windows(text, target, overlap);
            && IsPartCount(|parts|, |text|, target, stride)
            && (k < |parts| ==>
                  && k * stride < |text|
                  && |parts[k]| <= target
                  && parts[k] == text[k * stride..Min(k * stride + target, |text|)])
  {
    hide WindowsFrom;
    if |text| > target {
      PartsFrom(text, target, overlap, 0, k);
    }
  }

  // ----- nothing is lost

  function Tails(parts: seq<string>, repeated: nat): string {
    if parts == [] then ""
    else (if |parts[0]| <= repeated then "" else parts[0][repeated..]) + Tails(parts[1..], repeated)
  }

  /** The first part, then every other one without the stretch it repeats. */
  function Rebuilt(parts: seq<string>, repeated: nat): string {
    if parts == [] then "" else parts[0] + Tails(parts[1..], repeated)
  }

  lemma {:induction false} TailsOfMore(part: string, rest: seq<string>, repeated: nat)
    ensures Tails([part] + rest, repeated)
         == (if |part| <= repeated then "" else part[repeated..]) + Tails(rest, repeated)
    ensures Rebuilt([part] + rest, repeated) == part + Tails(rest, repeated)
  {
    assert ([part] + rest)[1..] == rest;
  }

  lemma {:induction false} TailsRebuild(text: string, target: int, overlap: int, start: nat)
    requires target >= 1 && overlap >= 0
    requires start < |text| && start + target - Stride(target, overlap) <= |text|
    ensures var repeated := target - Stride(target, overlap);
            Tails(WindowsFrom(text, target, overlap, start), repeated) == text[start + repeated..]
    decreases |text| - start
  {
    hide WindowsFrom, Tails;
    var stride := Stride(target, overlap);
    var repeated := target - stride;
    Unfolded(text, target, overlap, start);
    if start + target < |text| {
      TailsRebuild(text, target, overlap, start + stride);
      var part := text[start..start + target];
      TailsOfMore(part, WindowsFrom(text, target, overlap, start + stride), repeated);
      assert part[repeated..] + text[start + target..] == text[start + repeated..];
    } else {
      OneTail(text[start..], repeated);
    }
  }

  lemma {:induction false} OneTail(part: string, repeated: nat)
    requires repeated <= |part|
    ensures Tails([part], repeated) == part[repeated..]
  {
  }

  lemma {:induction false} OnePart(part: string, repeated: nat)
    ensures Rebuilt([part], repeated) == part
  {
  }

  /** What a caller can check beforehand. */
  predicate Lossless(text: string, target: int, overlap: int) {
    text == "" || (target >= 1 && (overlap >= 0 || |text| <= target))
  }

  /** Then the text can be put together again from its parts. */
  lemma {:induction false} NothingIsLost(text: string, target: int, overlap: int)
    requires Lossless(text, target, overlap)
    ensures Rebuilt(Windows(text, target, overlap), Max(target - Stride(target, overlap), 0)) == text
  {
    hide WindowsFrom, Tails;
    if text == "" {
      OnePartMore(text, target, overlap, 0);
    } else if |text| > target {
      LongTextRebuilt(text, target, overlap);
    } else {
      hide Rebuilt;
      OnePart(text, Max(target - Stride(target, overlap), 0));
    }
  }

  lemma {:induction false} LongTextRebuilt(text: string, target: int, overlap: int)
    requires 1 <= target < |text| && overlap >= 0
    ensures Rebuilt(WindowsFrom(text, target, overlap, 0), Max(target - Stride(target, overlap), 0)) == text
  {
    hide WindowsFrom, Tails, Rebuilt;
    var stride := Stride(target, overlap);
    Unfolded(text, target, overlap, 0);
    TailsRebuild(text, target, overlap, stride);
    TailsOfMore(text[..target], WindowsFrom(text, target, overlap, stride), target - stride);
    assert text == text[..target] + text[target..];
  }

  /** A character that reaches no part: the one after the first part, or the last one when the size is not positive. */
  function LostAt(text: string, target: int): int {
    if target >= 1 then target else |text| - 1
  }

  /** In every other case, for every size, some character is in no part: change it, and the parts stay the same. */
  lemma {:induction false} SomethingIsLost(text: string, target: int, overlap: int, c: char)
    requires !Lossless(text, target, overlap)
    ensures 0 <= LostAt(text, target) < |text|
    ensures Windows(text[LostAt(text, target) := c], target, overlap) == Windows(text, target, overlap)
  {
    if target >= 1 {
      LaterWindowsMissIt(text, target, overlap, target, c, target - overlap);
      assert text[target := c][..target] == text[..target];
    } else {
      EmptyWindowsMissTheEnd(text, target, overlap, c, 0);
    }
  }

  /** A size that is not positive never reaches the last character, even where a negative end counts from the back. */
  lemma {:induction false} EmptyWindowsMissTheEnd(text: string, target: int, overlap: int, c: char, start: nat)
    requires target <= 0 && text != ""
    ensures WindowsFrom(text[|text| - 1 := c], target, overlap, start) == WindowsFrom(text, target, overlap, start)
    decreases |text| - start
  {
    hide Slice, WindowsFrom;
    var changed := text[|text| - 1 := c];
    assert |changed| == |text|;
    OnePartMore(text, target, overlap, start);
    OnePartMore(changed, target, overlap, start);
    if start < |text| {
      SliceMissesTheEnd(text, target, c, start);
      EmptyWindowsMissTheEnd(text, target, overlap, c, Max(start + target - overlap, start + 1));
    }
  }

  lemma {:induction false} SliceMissesTheEnd(text: string, target: int, c: char, start: nat)
    requires target <= 0 && start < |text|
    ensures Slice(text[|text| - 1 := c], start, start + target) == Slice(text, start, start + target)
  {
    var changed, end := text[|text| - 1 := c], start + target;
    var stop := if end < 0 then Max(end + |text|, 0) else Min(end, |text|);
    if start < stop {
      assert changed[start..stop] == text[start..stop];
    }
  }

  lemma {:induction false} LaterWindowsMissIt(text: string, target: int, overlap: int, i: nat, c: char, start: nat)
    requires target >= 1 && i < |text| && i < start
    ensures WindowsFrom(text[i := c], target, overlap, start) == WindowsFrom(text, target, overlap, start)
    decreases |text| - start
  {
    hide Slice, WindowsFrom;
    var changed := text[i := c];
    assert |changed| == |text|;
    OnePartMore(text, target, overlap, start);
    OnePartMore(changed, target, overlap, start);
    if start < |text| {
      var end := Min(start + target, |text|);
      SliceMisses(text, i, c, start, end);
      if end < |text| {
        LaterWindowsMissIt(text, target, overlap, i, c, Max(end - overlap, start + 1));
      }
    }
  }

  lemma {:induction false} SliceMisses(text: string, i: nat, c: char, start: nat, end: nat)
    requires i < |text| && i < start <= end <= |text|
    ensures Slice(text[i := c], start, end) == Slice(text, start, end)
  {
    assert text[i := c][start..end] == text[start..end];
  }
}
