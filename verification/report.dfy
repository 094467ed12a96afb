/** The whole run: one task per account, run in batches, then the report:
    a title line followed by the collected lines, joined by newlines. */
module Report {
  import opened Strings
  import opened Accounts
  import opened Session
  import opened Batching

  const Title: string := "ct8&serv00登陆报告："
  const Newline: char := '\n'

  /** The title, a newline, and the lines joined by newlines. */
  function Render(lines: seq<string>): string {
    Title + [Newline] + Join(lines, [Newline])
  }

  /** Read line by line, the report is the title followed by one row per
      collected line; with no lines at all, the title is followed by one
      empty row. */
  lemma RenderSplits(lines: seq<string>)
    requires SeparatorFree(lines, Newline)
    ensures Split(Render(lines), Newline) == [Title] + (if |lines| == 0 then [""] else lines)
  {
    var rows := [Title] + (if |lines| == 0 then [""] else lines);
    assert rows[1..] == (if |lines| == 0 then [""] else lines);
    assert Render(lines) == Join(rows, [Newline]);
    assert SeparatorFree(rows, Newline) by {
      forall k | 0 <= k < |rows| ensures Newline !in rows[k] {
        if k > 0 {
          assert rows[k] == rows[1..][k - 1];
        }
      }
    }
    SplitJoin(rows, Newline);
  }

  /** The collected lines, in the order they were appended. */
  function LinesOf(results: seq<Entry>): (lines: seq<string>)
    ensures |lines| == |results|
    ensures forall q :: 0 <= q < |results| ==> lines[q] == results[q].line
  {
    seq(|results|, q requires 0 <= q < |results| => results[q].line)
  }

  /** The script's main flow, with the account list, each account's panel
      behaviour, the concurrency and the completion order within each batch
      as inputs. Every account appends exactly one line, the line of its
      own run; the report is the title, a newline, and the collected lines
      joined by newlines, and when no line breaks across rows it reads back as
      the title followed by those lines. */
  method RunAll(accounts: seq<Account>, scenarios: seq<Scenario>, c: nat, orders: seq<seq<nat>>)
    returns (report: string, results: seq<Entry>, steps: seq<Step>)
    requires |scenarios| == |accounts|
    requires c > 0
    requires |orders| == NumBatches(|accounts|, c)
    requires forall k :: 0 <= k < |orders| ==> IsPermutation(orders[k], BatchSize(|accounts|, c, k))
    ensures report == Title + [Newline] + Join(LinesOf(results), [Newline])
    ensures |results| == |accounts|
    ensures NoTaskTwice(results) && AllAppended(results, |accounts|)
    ensures forall q :: 0 <= q < |results| ==>
              results[q].task < |accounts|
              && results[q].line == TaskLine(accounts[results[q].task], scenarios[results[q].task])
    ensures RoundsInOrder(results)
    ensures steps == Schedule(NumBatches(|accounts|, c))
    ensures SeparatorFree(LinesOf(results), Newline) ==>
              Split(report, Newline)
                == [Title] + (if |accounts| == 0 then [""] else LinesOf(results))
  {
    var lines := seq(|accounts|, j requires 0 <= j < |accounts| => TaskLine(accounts[j], scenarios[j]));
    results, steps := RunBatches(lines, c, orders);
    report := Render(LinesOf(results));
    if SeparatorFree(LinesOf(results), Newline) {
      RenderSplits(LinesOf(results));
    }
  }
}
