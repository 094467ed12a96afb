/** Running the tasks in consecutive batches of `concurrency`, with a pause
    between batches but not after the last one. Within a batch the tasks
    run concurrently, so the order in which they append their lines is left
    open: it is a parameter, one permutation per batch. */
module Batching {

  /** The script runs two tasks at a time. */
  const Concurrency: nat := 2

  /** The consecutive slices `xs[i..i + c]` for `i = 0, c, 2c, ...`. */
  function Batches<T>(xs: seq<T>, c: nat): seq<seq<T>>
    requires c > 0
    decreases |xs|
  {
    if |xs| == 0 then []
    else if |xs| <= c then [xs]
    else [xs[..c]] + Batches(xs[c..], c)
  }

  function Flatten<T>(bs: seq<seq<T>>): seq<T>
    decreases |bs|
  {
    if |bs| == 0 then [] else bs[0] + Flatten(bs[1..])
  }

  /** How many batches `n` tasks make. */
  function NumBatches(n: nat, c: nat): nat
    requires c > 0
    decreases n
  {
    if n == 0 then 0 else if n <= c then 1 else 1 + NumBatches(n - c, c)
  }

  /** The batches put back together are the task list. */
  lemma {:induction false} BatchesCover<T>(xs: seq<T>, c: nat)
    requires c > 0
    ensures Flatten(Batches(xs, c)) == xs
    decreases |xs|
  {
    if |xs| > c {
      BatchesCover(xs[c..], c);
      var bs := Batches(xs, c);
      assert bs[1..] == Batches(xs[c..], c);
      assert xs[..c] + xs[c..] == xs;
    }
  }

  /** No batch is empty or larger than `c`, and only the last may be
      smaller than `c`. */
  lemma {:induction false} BatchSizes<T>(xs: seq<T>, c: nat)
    requires c > 0
    ensures forall k :: 0 <= k < |Batches(xs, c)| ==> 0 < |Batches(xs, c)[k]| <= c
    ensures forall k :: 0 <= k < |Batches(xs, c)| - 1 ==> |Batches(xs, c)[k]| == c
    decreases |xs|
  {
    if |xs| > c {
      BatchSizes(xs[c..], c);
      var bs := Batches(xs, c);
      var rest := Batches(xs[c..], c);
      assert bs == [xs[..c]] + rest;
      forall k | 0 <= k < |bs|
        ensures 0 < |bs[k]| <= c
        ensures k < |bs| - 1 ==> |bs[k]| == c
      {
        if k > 0 {
          assert bs[k] == rest[k - 1];
        }
      }
    }
  }

  /** There are `NumBatches` batches, the least number of slices of `c`
      that hold all the tasks. */
  lemma {:induction false} BatchCount<T>(xs: seq<T>, c: nat)
    requires c > 0
    ensures |Batches(xs, c)| == NumBatches(|xs|, c)
    ensures |xs| <= NumBatches(|xs|, c) * c < |xs| + c
    decreases |xs|
  {
    if |xs| > c {
      BatchCount(xs[c..], c);
      var nb := NumBatches(|xs| - c, c);
      assert NumBatches(|xs|, c) == nb + 1;
      assert (nb + 1) * c == nb * c + c;
    }
  }

  /** Batch `k` is the slice the script takes at `i = k * c`. */
  lemma {:induction false} BatchIsSlice<T>(xs: seq<T>, c: nat, k: nat)
    requires c > 0 && k < |Batches(xs, c)|
    ensures k * c < |xs|
    ensures Batches(xs, c)[k] == xs[k * c..if k * c + c < |xs| then k * c + c else |xs|]
    decreases k
  {
    if k > 0 {
      assert |xs| > c;
      var rest := xs[c..];
      assert Batches(xs, c) == [xs[..c]] + Batches(rest, c);
      assert Batches(xs, c)[k] == Batches(rest, c)[k - 1];
      BatchIsSlice(rest, c, k - 1);
      var i := (k - 1) * c;
      assert k * c == i + c;
      var e := if i + c < |rest| then i + c else |rest|;
      assert rest[i..e] == xs[i + c..e + c];
    }
  }

  /** Five tasks two at a time run as batches of 2, 2 and 1. */
  lemma FiveTasksInPairs<T>(xs: seq<T>)
    requires |xs| == 5
    ensures var bs := Batches(xs, Concurrency);
            |bs| == 3 && |bs[0]| == 2 && |bs[1]| == 2 && |bs[2]| == 1
  {
    assert Batches(xs, 2) == [xs[..2]] + Batches(xs[2..], 2);
    assert Batches(xs[2..], 2) == [xs[2..][..2]] + Batches(xs[2..][2..], 2);
  }

  /** What the scheduler does, in order: run a batch, or pause. */
  datatype Step = Ran(batch: nat) | Paused

  /** Batches `0 .. nb - 1` with a pause between consecutive batches. */
  function Schedule(nb: nat): seq<Step>
    decreases nb
  {
    if nb == 0 then [] else if nb == 1 then [Ran(0)] else Schedule(nb - 1) + [Paused, Ran(nb - 1)]
  }

  function Pauses(steps: seq<Step>): nat
    decreases |steps|
  {
    if |steps| == 0 then 0
    else Pauses(steps[..|steps| - 1]) + (if steps[|steps| - 1].Paused? then 1 else 0)
  }

  /** The pause happens exactly once fewer than there are batches, and the
      schedule never ends with one. */
  lemma {:induction false} PausesBetweenBatches(nb: nat)
    requires nb > 0
    ensures Pauses(Schedule(nb)) == nb - 1
    ensures Schedule(nb)[|Schedule(nb)| - 1] == Ran(nb - 1)
    ensures |Schedule(nb)| == 2 * nb - 1
    decreases nb
  {
    if nb > 1 {
      PausesBetweenBatches(nb - 1);
      var s := Schedule(nb);
      var p := Schedule(nb - 1);
      assert s[..|s| - 1] == p + [Paused];
      assert (p + [Paused])[..|p|] == p;
    }
  }

  /** One line appended to the shared result list: by task `task`, while
      batch `round` was running. */
  datatype Entry = Entry(round: nat, task: nat, line: string)

  /** `p` lists each of `0 .. n - 1` exactly once. */
  predicate IsPermutation(p: seq<nat>, n: int) {
    && |p| == n
    && (forall i :: 0 <= i < |p| ==> p[i] < n)
    && (forall i, j :: 0 <= i < j < |p| ==> p[i] != p[j])
    && (forall t :: 0 <= t < n ==> t in p)
  }

  /** The size of the slice taken for batch `k`. */
  function BatchSize(n: nat, c: nat, k: nat): int {
    if n - k * c < c then n - k * c else c
  }

  /** Task `j` has appended a line. */
  ghost predicate Appended(results: seq<Entry>, j: nat) {
    exists q :: 0 <= q < |results| && results[q].task == j
  }

  /** Each entry carries its task's line and a task of its round. */
  ghost predicate EntriesFaithful(results: seq<Entry>, lines: seq<string>, c: nat) {
    forall q :: 0 <= q < |results| ==>
      && results[q].task < |lines|
      && results[q].line == lines[results[q].task]
      && results[q].round * c <= results[q].task < results[q].round * c + c
  }

  /** No task appends twice. */
  ghost predicate NoTaskTwice(results: seq<Entry>) {
    forall q1, q2 :: 0 <= q1 < q2 < |results| ==> results[q1].task != results[q2].task
  }

  /** Every task below `n` has appended. */
  ghost predicate AllAppended(results: seq<Entry>, n: nat) {
    forall j: nat :: j < n ==> Appended(results, j)
  }

  /** Lines of an earlier batch come before lines of a later one. */
  ghost predicate RoundsInOrder(results: seq<Entry>) {
    forall q1, q2 :: 0 <= q1 <= q2 < |results| ==> results[q1].round <= results[q2].round
  }

  /** The lines batch `k` (tasks `start .. start + |order| - 1`) appends,
      in completion order. */
  function BatchEntries(lines: seq<string>, k: nat, start: nat, order: seq<nat>): (es: seq<Entry>)
    requires forall m :: 0 <= m < |order| ==> start + order[m] < |lines|
    ensures |es| == |order|
    ensures forall m :: 0 <= m < |order| ==> es[m] == Entry(k, start + order[m], lines[start + order[m]])
  {
    seq(|order|, m requires 0 <= m < |order| => Entry(k, start + order[m], lines[start + order[m]]))
  }

  /** Appending a whole batch keeps every invariant of the result list and
      extends the set of tasks that have appended by the batch. */
  lemma AppendBatch(results: seq<Entry>, lines: seq<string>, c: nat, k: nat, start: nat, order: seq<nat>)
    requires c > 0 && start == k * c
    requires 0 < |order| <= c && start + |order| <= |lines|
    requires IsPermutation(order, |order|)
    requires EntriesFaithful(results, lines, c) && NoTaskTwice(results) && RoundsInOrder(results)
    requires AllAppended(results, start)
    requires forall q :: 0 <= q < |results| ==> results[q].round < k && results[q].task < start
    ensures var all := results + BatchEntries(lines, k, start, order);
            && EntriesFaithful(all, lines, c) && NoTaskTwice(all) && RoundsInOrder(all)
            && AllAppended(all, start + |order|)
            && forall q :: 0 <= q < |all| ==> all[q].round < k + 1 && all[q].task < start + |order|
  {
    var es := BatchEntries(lines, k, start, order);
    var all := results + es;
    forall j: nat | j < start + |order| ensures Appended(all, j) {
      if j < start {
        assert Appended(results, j);
        var q :| 0 <= q < |results| && results[q].task == j;
        assert all[q] == results[q];
      } else {
        assert j - start in order;
        var m :| 0 <= m < |order| && order[m] == j - start;
        assert all[|results| + m] == es[m];
      }
    }
    forall q1, q2 | 0 <= q1 < q2 < |all| ensures all[q1].task != all[q2].task {
      if q2 < |results| {
        assert all[q1] == results[q1] && all[q2] == results[q2];
      } else if q1 < |results| {
        assert all[q1] == results[q1];
      } else {
        assert all[q1] == es[q1 - |results|] && all[q2] == es[q2 - |results|];
      }
    }
  }

  /** The batch loop. Task `j` contributes `lines[j]`; `orders[k]` is the
      order in which the tasks of batch `k` finish, as offsets into the
      batch. Every task appends exactly one line, batch by batch, and the
      pauses fall between batches. */
  method RunBatches(lines: seq<string>, c: nat, orders: seq<seq<nat>>)
    returns (results: seq<Entry>, steps: seq<Step>)
    requires c > 0
    requires |orders| == NumBatches(|lines|, c)
    requires forall k :: 0 <= k < |orders| ==> IsPermutation(orders[k], BatchSize(|lines|, c, k))
    ensures |results| == |lines|
    ensures EntriesFaithful(results, lines, c)
    ensures NoTaskTwice(results)
    ensures AllAppended(results, |lines|)
    ensures RoundsInOrder(results)
    ensures forall q :: 0 <= q < |results| ==> results[q].round < |orders|
    ensures steps == Schedule(NumBatches(|lines|, c))
  {
    var n := |lines|;
    results, steps := [], [];
    var start, k, done := 0, 0, 0;
    while start < n
      invariant start == k * c
      invariant done == (if start < n then start else n)
      invariant |orders| == k + NumBatches(n - done, c)
      invariant |results| == done
      invariant EntriesFaithful(results, lines, c) && NoTaskTwice(results) && RoundsInOrder(results)
      invariant AllAppended(results, done)
      invariant forall q :: 0 <= q < |results| ==> results[q].round < k && results[q].task < done
      invariant steps == if k == 0 then [] else if start < n then Schedule(k) + [Paused] else Schedule(k)
      decreases n - start
    {
      var size := if n - start < c then n - start else c;
      var order := orders[k];
      assert IsPermutation(order, size);
      AppendBatch(results, lines, c, k, start, order);
      results := results + BatchEntries(lines, k, start, order);
      steps := steps + [Ran(k)];
      if start + c < n {
        steps := steps + [Paused];
      }
      assert (k + 1) * c == k * c + c;
      start, k, done := start + c, k + 1, start + size;
    }
  }
}
