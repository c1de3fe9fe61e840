/** The removal executor of internal/cleaner/cleaner.go. Removing a path
    and running an external command are not performed: their outcomes are
    given as oracles, one boolean per attempt, and the methods report what
    they attempted and what they tallied. */
module Cleaner {
  import opened Host
  import opened Scanner

  // ---------------------------------------------------------------------
  // CleanItems
  // ---------------------------------------------------------------------

  /** What CleanItems does and reports: the paths it asked os.RemoveAll to
      remove, in order, the bytes freed, the two counters, and whether the
      failure warning is printed. */
  datatype CleanReport = CleanReport(
    attempted: seq<Path>,
    totalCleaned: nat,
    successCount: nat,
    failCount: nat,
    warned: bool)

  /** The paths of the items, in order. */
  function PathsOf(items: seq<CleanableItem>): (r: seq<Path>)
    ensures |r| == |items| && forall i :: 0 <= i < |items| ==> r[i] == items[i].path
  {
    if items == [] then [] else PathsOf(items[..|items| - 1]) + [items[|items| - 1].path]
  }

  /** The items whose removal succeeded, in order; `removeOk[i]` is the
      outcome of removing `items[i]`. */
  function Succeeded(items: seq<CleanableItem>, removeOk: seq<bool>): seq<CleanableItem>
    requires |removeOk| == |items|
  {
    if items == [] then []
    else
      Succeeded(items[..|items| - 1], removeOk[..|items| - 1])
      + (if removeOk[|items| - 1] then [items[|items| - 1]] else [])
  }

  /** One more attempt adds its item to the successes (and its size to
      their total) exactly when it succeeded. */
  lemma SucceededStep(items: seq<CleanableItem>, removeOk: seq<bool>, i: nat)
    requires |removeOk| == |items| && i < |items|
    ensures var before := Succeeded(items[..i], removeOk[..i]);
      && Succeeded(items[..i + 1], removeOk[..i + 1]) == before + (if removeOk[i] then [items[i]] else [])
      && SumSizes(Succeeded(items[..i + 1], removeOk[..i + 1])) == SumSizes(before) + (if removeOk[i] then items[i].size else 0)
  {
    assert items[..i + 1][..i] == items[..i];
    assert removeOk[..i + 1][..i] == removeOk[..i];
    var before := Succeeded(items[..i], removeOk[..i]);
    assert Succeeded(items[..i + 1], removeOk[..i + 1]) == before + (if removeOk[i] then [items[i]] else []);
    if removeOk[i] {
      assert [items[i]][..0] == [];
      assert SumSizes([items[i]]) == items[i].size;
      SumSizesAppend(before, [items[i]]);
    } else {
      assert before + [] == before;
    }
  }

  /** CleanItems: every item is attempted once, in order, whatever failed
      before; the counters split the items into successes and failures, the
      freed total is the size of exactly the successes, and the warning is
      printed exactly when something failed. */
  method CleanItems(items: seq<CleanableItem>, removeOk: seq<bool>) returns (report: CleanReport)
    requires |removeOk| == |items|
    ensures report.attempted == PathsOf(items)
    ensures report.successCount + report.failCount == |items|
    ensures report.successCount == |Succeeded(items, removeOk)|
    ensures report.totalCleaned == SumSizes(Succeeded(items, removeOk))
    ensures report.warned <==> report.failCount > 0
  {
    var attempted: seq<Path> := [];
    var totalCleaned: nat := 0;
    var successCount: nat := 0;
    var failCount: nat := 0;
    for i := 0 to |items|
      invariant attempted == PathsOf(items[..i])
      invariant successCount + failCount == i
      invariant successCount == |Succeeded(items[..i], removeOk[..i])|
      invariant totalCleaned == SumSizes(Succeeded(items[..i], removeOk[..i]))
    {
      var item := items[i];
      SucceededStep(items, removeOk, i);
      assert items[..i + 1][..i] == items[..i];
      attempted := attempted + [item.path];
      if removeOk[i] {
        totalCleaned := totalCleaned + item.size;
        successCount := successCount + 1;
      } else {
        failCount := failCount + 1;
      }
    }
    assert items[..|items|] == items;
    assert removeOk[..|removeOk|] == removeOk;
    report := CleanReport(attempted, totalCleaned, successCount, failCount, failCount > 0);
  }

  /** An item is among the successes exactly when some attempt on it succeeded. */
  lemma {:induction false} SucceededMembers(items: seq<CleanableItem>, removeOk: seq<bool>)
    requires |removeOk| == |items|
    ensures forall x :: x in Succeeded(items, removeOk) <==>
      exists i :: 0 <= i < |items| && removeOk[i] && items[i] == x
    decreases |items|
  {
    if items != [] {
      var n := |items| - 1;
      SucceededMembers(items[..n], removeOk[..n]);
      forall x | x in Succeeded(items, removeOk)
        ensures exists i :: 0 <= i < |items| && removeOk[i] && items[i] == x
      {
        if x in Succeeded(items[..n], removeOk[..n]) {
          var i :| 0 <= i < n && removeOk[..n][i] && items[..n][i] == x;
          assert removeOk[i] && items[i] == x;
        }
      }
      forall x | exists i :: 0 <= i < |items| && removeOk[i] && items[i] == x
        ensures x in Succeeded(items, removeOk)
      {
        var i :| 0 <= i < |items| && removeOk[i] && items[i] == x;
        if i < n {
          assert removeOk[..n][i] && items[..n][i] == x;
        }
      }
    }
  }

  /** The successes of a batch split at any point are the successes of
      each part: where the failures sit changes nothing else. */
  lemma {:induction false} SucceededAppend(a: seq<CleanableItem>, okA: seq<bool>, b: seq<CleanableItem>, okB: seq<bool>)
    requires |okA| == |a| && |okB| == |b|
    ensures Succeeded(a + b, okA + okB) == Succeeded(a, okA) + Succeeded(b, okB)
    decreases |b|
  {
    if b == [] {
      assert a + b == a && okA + okB == okA;
    } else {
      var n := |b| - 1;
      SucceededAppend(a, okA, b[..n], okB[..n]);
      assert (a + b)[..|a + b| - 1] == a + b[..n];
      assert (okA + okB)[..|okA + okB| - 1] == okA + okB[..n];
    }
  }

  /** When every removal succeeds, everything is freed and no warning is printed. */
  lemma {:induction false} AllRemoved(items: seq<CleanableItem>, removeOk: seq<bool>)
    requires |removeOk| == |items|
    requires forall i :: 0 <= i < |removeOk| ==> removeOk[i]
    ensures Succeeded(items, removeOk) == items
    decreases |items|
  {
    if items != [] {
      var n := |items| - 1;
      AllRemoved(items[..n], removeOk[..n]);
    }
  }

  /** The freed total never exceeds the size of the batch. */
  lemma {:induction false} FreedAtMostBatch(items: seq<CleanableItem>, removeOk: seq<bool>)
    requires |removeOk| == |items|
    ensures SumSizes(Succeeded(items, removeOk)) <= SumSizes(items)
    ensures |Succeeded(items, removeOk)| <= |items|
    decreases |items|
  {
    if items != [] {
      var n := |items| - 1;
      FreedAtMostBatch(items[..n], removeOk[..n]);
      var last := if removeOk[n] then [items[n]] else [];
      SumSizesAppend(Succeeded(items[..n], removeOk[..n]), last);
      if last != [] {
        assert last[..0] == [];
      }
    }
  }

  // ---------------------------------------------------------------------
  // CleanSimulators
  // ---------------------------------------------------------------------

  /** The two xcrun simctl commands the executor runs. */
  datatype SimCommand = DeleteUnavailable | RuntimeDelete(path: Path)

  /** One command run, with its outcome (true: it exited without error). */
  datatype SimCall = SimCall(command: SimCommand, ok: bool)

  /** The per-item runtime deletions: one for each Simulator item, in order,
      with that item's outcome. */
  function RuntimeCalls(items: seq<CleanableItem>, runtimeOk: seq<bool>): seq<SimCall>
    requires |runtimeOk| == |items|
  {
    if items == [] then []
    else
      var n := |items| - 1;
      RuntimeCalls(items[..n], runtimeOk[..n])
      + (if items[n].category == "Simulator" then [SimCall(RuntimeDelete(items[n].path), runtimeOk[n])] else [])
  }

  /** CleanSimulators: nothing at all off macOS; on macOS the global
      "delete unavailable" runs first, whatever its outcome, and then one
      runtime deletion per Simulator item. */
  method CleanSimulators(items: seq<CleanableItem>, platform: Platform, unavailableOk: bool, runtimeOk: seq<bool>)
    returns (calls: seq<SimCall>)
    requires |runtimeOk| == |items|
    ensures platform != Darwin ==> calls == []
    ensures platform == Darwin ==>
      calls == [SimCall(DeleteUnavailable, unavailableOk)] + RuntimeCalls(items, runtimeOk)
  {
    if platform != Darwin {
      return [];
    }
    calls := [SimCall(DeleteUnavailable, unavailableOk)];
    for i := 0 to |items|
      invariant calls == [SimCall(DeleteUnavailable, unavailableOk)] + RuntimeCalls(items[..i], runtimeOk[..i])
    {
      assert items[..i + 1][..i] == items[..i];
      assert runtimeOk[..i + 1][..i] == runtimeOk[..i];
      if items[i].category == "Simulator" {
        calls := calls + [SimCall(RuntimeDelete(items[i].path), runtimeOk[i])];
      }
    }
    assert items[..|items|] == items;
    assert runtimeOk[..|runtimeOk|] == runtimeOk;
  }

  /** The Simulator items, in order. */
  function SimulatorItems(items: seq<CleanableItem>): seq<CleanableItem> {
    if items == [] then []
    else
      SimulatorItems(items[..|items| - 1])
      + (if items[|items| - 1].category == "Simulator" then [items[|items| - 1]] else [])
  }

  /** The runtime deletions name exactly the Simulator items' paths, in
      order; none is a "delete unavailable". */
  lemma {:induction false} RuntimeCallsTargets(items: seq<CleanableItem>, runtimeOk: seq<bool>)
    requires |runtimeOk| == |items|
    ensures var calls := RuntimeCalls(items, runtimeOk);
      && |calls| == |SimulatorItems(items)|
      && forall k :: 0 <= k < |calls| ==> calls[k].command == RuntimeDelete(SimulatorItems(items)[k].path)
    decreases |items|
  {
    if items != [] {
      var n := |items| - 1;
      RuntimeCallsTargets(items[..n], runtimeOk[..n]);
    }
  }

  /** Every item a runtime deletion targets is a Simulator item of the list. */
  lemma {:induction false} SimulatorItemsMembers(items: seq<CleanableItem>)
    ensures forall x :: x in SimulatorItems(items) <==> x in items && x.category == "Simulator"
    decreases |items|
  {
    if items != [] {
      var n := |items| - 1;
      SimulatorItemsMembers(items[..n]);
      assert items == items[..n] + [items[n]];
    }
  }

  /** On macOS the global step runs exactly once, first; the runtime
      deletions that follow do not depend on its outcome. */
  lemma SimulatorCleanupShape(items: seq<CleanableItem>, runtimeOk: seq<bool>, unavailableOk: bool)
    requires |runtimeOk| == |items|
    ensures var calls := [SimCall(DeleteUnavailable, unavailableOk)] + RuntimeCalls(items, runtimeOk);
      && calls[0].command == DeleteUnavailable
      && (forall k :: 1 <= k < |calls| ==> calls[k].command.RuntimeDelete?)
      && calls[1..] == RuntimeCalls(items, runtimeOk)
      && |calls| == 1 + |SimulatorItems(items)|
  {
    RuntimeCallsTargets(items, runtimeOk);
  }
}
