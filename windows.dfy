/** The index windows that a `(start..end).step_by(step)` loop hands out, and
    the folds that merge the per-window results in window order. */
module Windows {
  import opened Common

  /** The half-open index range `[from, to)` of a sequence slice. The log
      scan hands the same two bounds to a block query that includes both
      ends, so there neighbouring windows share their boundary block. */
  datatype Window = Window(from: nat, to: nat)

  /** The windows `[i, min(i + step, end))` for every `i` of `(start..end).step_by(step)`. */
  function StepWindows(start: nat, end: nat, step: nat): (r: seq<Window>)
    requires step > 0
    ensures WindowsWithin(r, end)
    decreases if start < end then end - start else 0
  {
    if start >= end then [] else [Window(start, Min(start + step, end))] + StepWindows(start + step, end, step)
  }

  /** One step of the `step_by` loop. */
  lemma StepWindowsUnfold(i: nat, end: nat, step: nat)
    requires step > 0 && i < end
    ensures StepWindows(i, end, step) == [Window(i, Min(i + step, end))] + StepWindows(i + step, end, step)
  {
  }

  /** A `step_by` loop at `i` has produced the windows `done`; the rest of
      `StepWindows(start, end, step)` is still to come. */
  ghost predicate LoopAt(start: nat, end: nat, step: nat, done: seq<Window>, i: nat)
    requires step > 0
  {
    StepWindows(start, end, step) == done + StepWindows(i, end, step)
  }

  lemma LoopStart(start: nat, end: nat, step: nat)
    requires step > 0
    ensures LoopAt(start, end, step, [], start)
  {
  }

  /** One step of a `step_by` loop: the current window joins `done`. */
  lemma LoopAdvance(start: nat, end: nat, step: nat, done: seq<Window>, i: nat)
    requires step > 0 && i < end && LoopAt(start, end, step, done, i)
    ensures LoopAt(start, end, step, done + [Window(i, Min(i + step, end))], i + step)
  {
    StepWindowsUnfold(i, end, step);
  }

  /** When the loop stops it has produced every window. */
  lemma LoopEnd(start: nat, end: nat, step: nat, done: seq<Window>, i: nat)
    requires step > 0 && i >= end && LoopAt(start, end, step, done, i)
    ensures done == StepWindows(start, end, step)
  {
  }

  /** `f` applied to every window, in window order: the futures a `step_by` loop pushes. */
  function MapWindows<T>(f: Window -> T, ws: seq<Window>): (r: seq<T>)
    ensures |r| == |ws|
    decreases |ws|
  {
    if |ws| == 0 then [] else MapWindows(f, ws[..|ws| - 1]) + [f(ws[|ws| - 1])]
  }

  lemma MapWindowsAppend<T>(f: Window -> T, ws: seq<Window>, w: Window)
    ensures MapWindows(f, ws + [w]) == MapWindows(f, ws) + [f(w)]
  {
    assert (ws + [w])[..|ws|] == ws;
  }

  lemma {:induction false} MapWindowsAt<T>(f: Window -> T, ws: seq<Window>, k: nat)
    requires k < |ws|
    ensures MapWindows(f, ws)[k] == f(ws[k])
    decreases |ws|
  {
    if k < |ws| - 1 {
      MapWindowsAt(f, ws[..|ws| - 1], k);
    }
  }

  /** Every window lies within `[0, end]`. */
  predicate WindowsWithin(ws: seq<Window>, end: nat)
  {
    forall k | 0 <= k < |ws| :: ws[k].from <= ws[k].to <= end
  }

  lemma WindowsWithinAppend(ws: seq<Window>, w: Window, end: nat)
    requires WindowsWithin(ws, end) && w.from <= w.to <= end
    ensures WindowsWithin(ws + [w], end)
  {
    assert forall k | 0 <= k < |ws| :: (ws + [w])[k] == ws[k];
  }

  /** The windows start at `start` and end at `end`, each is non-empty and at
      most `step` wide, and each starts where the one before it ends. */
  lemma {:induction false} StepWindowsShape(start: nat, end: nat, step: nat)
    requires step > 0
    ensures var r := StepWindows(start, end, step);
      && (|r| == 0 <==> start >= end)
      && (|r| > 0 ==> r[0].from == start && r[|r| - 1].to == end)
      && (forall k | 0 <= k < |r| :: start <= r[k].from < r[k].to <= end)
      && (forall k | 0 <= k < |r| :: r[k].to == Min(r[k].from + step, end))
      && (forall k | 0 <= k < |r| - 1 :: r[k].to == r[k + 1].from)
    decreases if start < end then end - start else 0
  {
    if start < end {
      StepWindowsShape(start + step, end, step);
    }
  }

  /** The `k`-th window is non-empty and at most `step` wide. */
  lemma StepWindowAt(start: nat, end: nat, step: nat, k: nat)
    requires step > 0 && k < |StepWindows(start, end, step)|
    ensures var w := StepWindows(start, end, step)[k];
      start <= w.from < w.to <= end && w.to - w.from <= step
  {
    StepWindowsShape(start, end, step);
  }

  /** The `k`-th window starts at `start + k * step`. */
  lemma {:induction false} StepWindowsStart(start: nat, end: nat, step: nat, k: nat)
    requires step > 0 && k < |StepWindows(start, end, step)|
    ensures StepWindows(start, end, step)[k].from == start + k * step
    decreases k
  {
    if k > 0 {
      StepWindowsStart(start + step, end, step, k - 1);
      ShiftProduct(k, step);
    }
  }

  lemma ShiftProduct(k: int, step: int)
    ensures step + (k - 1) * step == k * step
  {
  }

  /** The number of windows is the number of steps needed to pass `end`:
      `(n - 1) * step < end - start <= n * step`, that is `ceil((end - start) / step)`. */
  lemma StepWindowsCount(start: nat, end: nat, step: nat)
    requires step > 0 && start < end
    ensures var n := |StepWindows(start, end, step)|;
      (n - 1) * step < end - start <= n * step
    ensures |StepWindows(start, end, step)| == (end - start + step - 1) / step
  {
    var r := StepWindows(start, end, step);
    StepWindowsShape(start, end, step);
    var n := |r|;
    StepWindowsStart(start, end, step, n - 1);
    assert r[n - 1].to == end;
    assert Min(start + (n - 1) * step + step, end) == end;
    ShiftProduct(n, step);
    CeilingQuotient(end - start, step, n);
  }

  /** `n` is the rounded-up quotient of `d` by `step` when `(n - 1) * step < d <= n * step`. */
  lemma CeilingQuotient(d: nat, step: nat, n: nat)
    requires step > 0 && (n - 1) * step < d <= n * step
    ensures n == (d + step - 1) / step
  {
    var q := (d + step - 1) / step;
    var m := (d + step - 1) % step;
    assert d + step - 1 == q * step + m;
    if q < n {
      MulLeft(q, n - 1, step);
      assert false;
    } else if q > n {
      MulLeft(n + 1, q, step);
      assert false;
    }
  }

  /** The summed width `to - from` of a run of windows. */
  function TotalWidth(ws: seq<Window>): int
  {
    if |ws| == 0 then 0 else ws[0].to - ws[0].from + TotalWidth(ws[1..])
  }

  /** The windows cover `[start, end)` exactly: their widths add up to `end - start`. */
  lemma {:induction false} StepWindowsTotalWidth(start: nat, end: nat, step: nat)
    requires step > 0 && start <= end
    ensures TotalWidth(StepWindows(start, end, step)) == end - start
    decreases end - start
  {
    if start < end {
      var r := StepWindows(start, end, step);
      if start + step < end {
        StepWindowsTotalWidth(start + step, end, step);
      } else {
        assert r[1..] == StepWindows(start + step, end, step) == [];
      }
    }
  }

  /** Every slice `s[w.from..w.to]` of a run of windows, in order. */
  function Slices<T>(s: seq<T>, ws: seq<Window>): (r: seq<seq<T>>)
    requires WindowsWithin(ws, |s|)
    ensures |r| == |ws|
  {
    if |ws| == 0 then [] else [s[ws[0].from..ws[0].to]] + Slices(s, ws[1..])
  }

  /** The elements of a sequence of sequences, in order. */
  function Flatten<T>(parts: seq<seq<T>>): (r: seq<T>)
    ensures |parts| == 0 ==> r == []
  {
    if |parts| == 0 then [] else parts[0] + Flatten(parts[1..])
  }

  lemma {:induction false} FlattenAppend<T>(front: seq<seq<T>>, back: seq<seq<T>>)
    ensures Flatten(front + back) == Flatten(front) + Flatten(back)
    decreases |front|
  {
    if |front| > 0 {
      assert (front + back)[1..] == front[1..] + back;
      FlattenAppend(front[1..], back);
    } else {
      assert front + back == back;
    }
  }

  /** Contiguous windows that run from `start` to the end of `s` cut it into
      pieces that join back to `s[start..]`. */
  lemma {:induction false} FlattenContiguous<T>(s: seq<T>, ws: seq<Window>, start: nat)
    requires WindowsWithin(ws, |s|)
    requires forall k | 0 <= k < |ws| - 1 :: ws[k].to == ws[k + 1].from
    requires |ws| == 0 ==> start == |s|
    requires |ws| > 0 ==> ws[0].from == start && ws[|ws| - 1].to == |s|
    ensures Flatten(Slices(s, ws)) == s[start..]
    decreases |ws|
  {
    if |ws| > 0 {
      FlattenContiguous(s, ws[1..], ws[0].to);
      assert Slices(s, ws)[1..] == Slices(s, ws[1..]);
      SliceSplit(s, start, ws[0].to);
    }
  }

  /** Cutting `s[start..]` at the windows of `step_by(step)` and putting the
      pieces back together gives `s[start..]`: every element lands in exactly one chunk, in order. */
  lemma ChunksCover<T>(s: seq<T>, start: nat, step: nat)
    requires step > 0 && start <= |s|
    ensures Flatten(Slices(s, StepWindows(start, |s|, step))) == s[start..]
  {
    StepWindowsShape(start, |s|, step);
    FlattenContiguous(s, StepWindows(start, |s|, step), start);
  }

  lemma SliceSplit<T>(s: seq<T>, i: nat, j: nat)
    requires i <= j <= |s|
    ensures s[i..] == s[i..j] + s[j..]
  {
  }

  // ---------------------------------------------------------------------------
  // Merging per-window results
  // ---------------------------------------------------------------------------

  /** Appending the window results in order; the first result that is not `Ok`
      ends the merge and is returned as it is. */
  function Concat<T>(results: seq<Outcome<seq<T>>>): (r: Outcome<seq<T>>)
    ensures r.Ok? <==> forall i | 0 <= i < |results| :: results[i].Ok?
    decreases |results|
  {
    if |results| == 0 then Ok([])
    else
      var init :- Concat(results[..|results| - 1]);
      var last :- results[|results| - 1];
      Ok(init + last)
  }

  /** The merge fails with the first failing result. */
  lemma {:induction false} ConcatFirstFailure<T>(results: seq<Outcome<seq<T>>>, i: nat)
    requires i < |results| && !results[i].Ok?
    requires forall j | 0 <= j < i :: results[j].Ok?
    ensures Concat(results) == results[i]
    decreases |results|
  {
    var init := results[..|results| - 1];
    if i < |results| - 1 {
      ConcatFirstFailure(init, i);
    } else {
      assert forall j | 0 <= j < |init| :: init[j].Ok?;
    }
  }

  /** The merge of two runs of results is the merge of the first run, or its
      failure, followed by the merge of the second. */
  lemma {:induction false} ConcatSplit<T>(front: seq<Outcome<seq<T>>>, back: seq<Outcome<seq<T>>>)
    ensures Concat(front + back) ==
      if !Concat(front).Ok? then Concat(front)
      else if !Concat(back).Ok? then Concat(back)
      else Ok(Concat(front).value + Concat(back).value)
    decreases |back|
  {
    if |back| == 0 {
      assert front + back == front;
      if Concat(front).Ok? {
        assert Concat(front).value + [] == Concat(front).value;
      }
    } else {
      var init := back[..|back| - 1];
      var last := back[|back| - 1];
      assert (front + back)[..|front + back| - 1] == front + init;
      assert (front + back)[|front + back| - 1] == last;
      ConcatSplit(front, init);
      if Concat(front).Ok? && Concat(init).Ok? && last.Ok? {
        assert Concat(front).value + Concat(init).value + last.value
            == Concat(front).value + (Concat(init).value + last.value);
      }
    }
  }

  /** One step of a merge loop: a success extends the merged prefix, a
      failure is the result of the whole merge whatever follows it. */
  lemma ConcatStep<T>(front: seq<Outcome<seq<T>>>, x: Outcome<seq<T>>, back: seq<Outcome<seq<T>>>, merged: seq<T>)
    requires Concat(front) == Ok(merged)
    ensures x.Ok? ==> Concat(front + [x]) == Ok(merged + x.value)
    ensures !x.Ok? ==> Concat(front + [x] + back) == x
  {
    ConcatSplit(front, [x]);
    assert [x][..0] == [];
    ConcatSplit(front + [x], back);
  }

  /** A run of successes merges to the concatenation of their payloads. */
  lemma {:induction false} ConcatOfSuccesses<T>(parts: seq<seq<T>>)
    ensures Concat(seq(|parts|, i requires 0 <= i < |parts| => Ok(parts[i]))) == Ok(FlattenBack(parts))
    decreases |parts|
  {
    if |parts| > 0 {
      var results := seq(|parts|, i requires 0 <= i < |parts| => Ok(parts[i]));
      var init := parts[..|parts| - 1];
      assert results[..|results| - 1] == seq(|init|, i requires 0 <= i < |init| => Ok(init[i]));
      ConcatOfSuccesses(init);
    }
  }

  /** `Flatten` unfolded from the back, the order in which a loop appends. */
  function FlattenBack<T>(parts: seq<seq<T>>): (r: seq<T>)
    decreases |parts|
  {
    if |parts| == 0 then [] else FlattenBack(parts[..|parts| - 1]) + parts[|parts| - 1]
  }

  lemma {:induction false} FlattenBackIsFlatten<T>(parts: seq<seq<T>>)
    ensures FlattenBack(parts) == Flatten(parts)
    decreases |parts|
  {
    if |parts| > 0 {
      var init := parts[..|parts| - 1];
      FlattenBackIsFlatten(init);
      assert parts == init + [parts[|parts| - 1]];
      FlattenAppend(init, [parts[|parts| - 1]]);
      assert Flatten([parts[|parts| - 1]]) == parts[|parts| - 1] + Flatten([]);
    }
  }

  /** The results with every `Err(PoolDataError)` removed. */
  function DropPoolDataErrors<T>(results: seq<Outcome<seq<T>>>): (r: seq<Outcome<seq<T>>>)
    ensures forall i | 0 <= i < |r| :: r[i] != Err(PoolDataError)
    ensures forall i | 0 <= i < |r| :: r[i] in results
    ensures forall i | 0 <= i < |results| :: results[i] != Err(PoolDataError) ==> results[i] in r
    decreases |results|
  {
    if |results| == 0 then []
    else
      var init := results[..|results| - 1];
      var last := results[|results| - 1];
      assert results == init + [last];
      DropPoolDataErrors(init) + (if last == Err(PoolDataError) then [] else [last])
  }

  /** The filter keeps the surviving results in their order: dropping from
      two runs is dropping from each in turn. */
  lemma {:induction false} DropPoolDataErrorsAppend<T>(a: seq<Outcome<seq<T>>>, b: seq<Outcome<seq<T>>>)
    ensures DropPoolDataErrors(a + b) == DropPoolDataErrors(a) + DropPoolDataErrors(b)
    decreases |b|
  {
    if |b| == 0 {
      assert a + b == a;
    } else {
      var init := b[..|b| - 1];
      assert (a + b)[..|a + b| - 1] == a + init;
      DropPoolDataErrorsAppend(a, init);
    }
  }

  /** The tolerant merge: a window whose result is `Err(PoolDataError)` is
      skipped, any other failure ends the merge. */
  function ConcatSkippingPoolDataErrors<T>(results: seq<Outcome<seq<T>>>): (r: Outcome<seq<T>>)
    ensures r.Ok? <==> forall i | 0 <= i < |results| :: results[i].Ok? || results[i] == Err(PoolDataError)
    ensures r != Err(PoolDataError)
    decreases |results|
  {
    if |results| == 0 then Ok([])
    else
      var init :- ConcatSkippingPoolDataErrors(results[..|results| - 1]);
      var last := results[|results| - 1];
      if last == Err(PoolDataError) then Ok(init)
      else
        var batch :- last;
        Ok(init + batch)
  }

  /** The tolerant merge is the plain merge of the results that are not `PoolDataError`. */
  lemma {:induction false} SkippingIsConcatOfRest<T>(results: seq<Outcome<seq<T>>>)
    ensures ConcatSkippingPoolDataErrors(results) == Concat(DropPoolDataErrors(results))
    decreases |results|
  {
    if |results| > 0 {
      var init := results[..|results| - 1];
      var last := results[|results| - 1];
      SkippingIsConcatOfRest(init);
      if last != Err(PoolDataError) {
        ConcatSplit(DropPoolDataErrors(init), [last]);
        assert [last][..0] == [];
      } else {
        assert DropPoolDataErrors(results) == DropPoolDataErrors(init) + [];
        assert DropPoolDataErrors(init) + [] == DropPoolDataErrors(init);
      }
    }
  }

  /** Once a prefix of the results fails to merge, the whole merge is that failure. */
  lemma {:induction false} ConcatPrefixFailure<T>(results: seq<Outcome<seq<T>>>, j: nat)
    requires j <= |results| && !Concat(results[..j]).Ok?
    ensures Concat(results) == Concat(results[..j])
    decreases |results| - j
  {
    if j < |results| {
      assert results[..j + 1][..j] == results[..j];
      ConcatPrefixFailure(results, j + 1);
    } else {
      assert results[..j] == results;
    }
  }

  lemma {:induction false} SkippingPrefixFailure<T>(results: seq<Outcome<seq<T>>>, j: nat)
    requires j <= |results| && !ConcatSkippingPoolDataErrors(results[..j]).Ok?
    ensures ConcatSkippingPoolDataErrors(results) == ConcatSkippingPoolDataErrors(results[..j])
    decreases |results| - j
  {
    if j < |results| {
      assert results[..j + 1][..j] == results[..j];
      SkippingPrefixFailure(results, j + 1);
    } else {
      assert results[..j] == results;
    }
  }

  /** Without any `PoolDataError` among the results the tolerant merge is the plain one. */
  lemma {:induction false} SkippingWithoutPoolDataErrors<T>(results: seq<Outcome<seq<T>>>)
    requires forall i | 0 <= i < |results| :: results[i] != Err(PoolDataError)
    ensures ConcatSkippingPoolDataErrors(results) == Concat(results)
    decreases |results|
  {
    if |results| > 0 {
      SkippingWithoutPoolDataErrors(results[..|results| - 1]);
    }
  }

  /** The merge loop `for result in results { match result { Ok(batch) => append,
      Err(err) => return Err(err) } }`. */
  method MergeInOrder<T>(results: seq<Outcome<seq<T>>>) returns (r: Outcome<seq<T>>)
    ensures r == Concat(results)
  {
    var merged: seq<T> := [];
    var j: nat := 0;
    while j < |results|
      invariant j <= |results|
      invariant Concat(results[..j]) == Ok(merged)
    {
      assert results[..j + 1][..j] == results[..j];
      if !results[j].Ok? {
        ConcatPrefixFailure(results, j + 1);
        return results[j];
      }
      merged := merged + results[j].value;
      j := j + 1;
    }
    assert results[..j] == results;
    r := Ok(merged);
  }

  /** The tolerant merge loop: a `PoolDataError` is reported and skipped. */
  method MergeSkippingPoolDataErrors<T>(results: seq<Outcome<seq<T>>>) returns (r: Outcome<seq<T>>)
    ensures r == ConcatSkippingPoolDataErrors(results)
  {
    var merged: seq<T> := [];
    var j: nat := 0;
    while j < |results|
      invariant j <= |results|
      invariant ConcatSkippingPoolDataErrors(results[..j]) == Ok(merged)
    {
      assert results[..j + 1][..j] == results[..j];
      if results[j] != Err(PoolDataError) {
        if !results[j].Ok? {
          SkippingPrefixFailure(results, j + 1);
          return results[j];
        }
        merged := merged + results[j].value;
      }
      j := j + 1;
    }
    assert results[..j] == results;
    r := Ok(merged);
  }
}
