/** The selection workflow of internal/ui/ui.go: the key-driven state
    machine behind `model.Update`, the sort and filter of `SelectItems`, and
    the totals shown by `View`, `DisplayDryRun` and `DisplayScanResults`.
    Rendering (styles, byte formatting, the text written) is not modelled. */
module Ui {
  import opened Host
  import opened Scanner

  // ---------------------------------------------------------------------
  // Sorting, largest first
  // ---------------------------------------------------------------------

  predicate SortedBySizeDesc(items: seq<CleanableItem>) {
    forall i, j :: 0 <= i < j < |items| ==> items[i].size >= items[j].size
  }

  /** sort.Slice(items, size descending) on the caller's slice: each item
      in turn is moved left past every smaller one. */
  method SortBySizeDesc(a: array<CleanableItem>)
    modifies a
    ensures SortedBySizeDesc(a[..])
    ensures multiset(a[..]) == multiset(old(a[..]))
  {
    var i := 0;
    while i < a.Length
      invariant 0 <= i <= a.Length
      invariant SortedBySizeDesc(a[..i])
      invariant multiset(a[..]) == multiset(old(a[..]))
    {
      InsertAt(a, i);
      i := i + 1;
    }
    assert a[..a.Length] == a[..];
  }

  /** One insertion step: a[..i] sorted becomes a[..i+1] sorted. */
  method InsertAt(a: array<CleanableItem>, i: int)
    requires 0 <= i < a.Length && SortedBySizeDesc(a[..i])
    modifies a
    ensures SortedBySizeDesc(a[..i + 1])
    ensures multiset(a[..]) == multiset(old(a[..]))
  {
    var j := i;
    assert a[..i + 1][..i] == a[..i];
    while j > 0 && a[j - 1].size < a[j].size
      invariant 0 <= j <= i
      invariant Inserting(a[..i + 1], j)
      invariant multiset(a[..]) == multiset(old(a[..]))
    {
      ghost var before := a[..];
      Swap(a, j - 1, j);
      InsertStep(before, i, j);
      j := j - 1;
    }
    InsertedSorted(a[..i + 1], j);
  }

  /** While the item moves down to position j: the prefix is in order except
      around j, and the moving item is larger than everything after it. */
  predicate Inserting(s: seq<CleanableItem>, j: int)
    requires 0 <= j < |s|
  {
    && (forall p, q :: 0 <= p < q < |s| && q != j ==> s[p].size >= s[q].size)
    && (forall q :: j < q < |s| ==> s[j].size > s[q].size)
  }

  function Swapped(s: seq<CleanableItem>, x: int, y: int): seq<CleanableItem>
    requires 0 <= x < |s| && 0 <= y < |s|
  {
    s[x := s[y]][y := s[x]]
  }

  method Swap(a: array<CleanableItem>, x: int, y: int)
    requires 0 <= x < a.Length && 0 <= y < a.Length
    modifies a
    ensures a[..] == Swapped(old(a[..]), x, y)
  {
    a[x], a[y] := a[y], a[x];
  }

  /** Swapping the moving item with its smaller predecessor keeps the
      contents and moves the insertion point down by one. */
  lemma InsertStep(s: seq<CleanableItem>, i: int, j: int)
    requires 0 < j <= i < |s| && Inserting(s[..i + 1], j) && s[j - 1].size < s[j].size
    ensures Inserting(Swapped(s, j - 1, j)[..i + 1], j - 1)
    ensures multiset(Swapped(s, j - 1, j)) == multiset(s)
  {
    SwapKeepsMultiset(s, j - 1, j);
    assert Swapped(s, j - 1, j)[..i + 1] == Swapped(s[..i + 1], j - 1, j);
    SwapStep(s[..i + 1], j);
  }

  lemma SwapKeepsMultiset(s: seq<CleanableItem>, x: int, y: int)
    requires 0 <= x < y < |s|
    ensures multiset(Swapped(s, x, y)) == multiset(s)
  {
    var t := Swapped(s, x, y);
    assert s == s[..x] + [s[x]] + s[x + 1..y] + [s[y]] + s[y + 1..];
    assert t == s[..x] + [s[y]] + s[x + 1..y] + [s[x]] + s[y + 1..];
  }

  lemma SwapStep(s: seq<CleanableItem>, j: int)
    requires 0 < j < |s| && Inserting(s, j) && s[j - 1].size < s[j].size
    ensures Inserting(Swapped(s, j - 1, j), j - 1)
  {
  }

  lemma InsertedSorted(s: seq<CleanableItem>, j: int)
    requires 0 <= j < |s| && Inserting(s, j)
    requires j == 0 || s[j - 1].size >= s[j].size
    ensures SortedBySizeDesc(s)
  {
  }

  // ---------------------------------------------------------------------
  // The selection state machine
  // ---------------------------------------------------------------------

  /** A message delivered to Update: a key press, named as bubbletea names
      it ("up", "enter", " ", "ctrl+c", ...), or any other message. */
  datatype Msg = KeyMsg(key: string) | OtherMsg

  /** The fields of `model` that Update changes. A key missing from
      `selected` reads as false, as in a Go map. */
  datatype Session = Session(cursor: int, selected: map<int, bool>, quit: bool, confirm: bool)

  /** initialModel: cursor on the first item, nothing selected. */
  function Initial(): Session {
    Session(0, map[], false, false)
  }

  predicate IsSelected(sel: map<int, bool>, i: int) {
    i in sel && sel[i]
  }

  predicate AllSelected(sel: map<int, bool>, n: int) {
    forall i :: 0 <= i < n ==> IsSelected(sel, i)
  }

  predicate NoneSelected(sel: map<int, bool>, n: int) {
    forall i :: 0 <= i < n ==> !IsSelected(sel, i)
  }

  /** Some flag in the map is true. */
  predicate HasSelection(sel: map<int, bool>) {
    exists k :: k in sel && sel[k]
  }

  /** The positions 0 .. n-1. */
  function Indices(n: int): (r: set<int>)
    ensures forall i :: i in r <==> 0 <= i < n
    decreases n
  {
    if n <= 0 then {} else Indices(n - 1) + {n - 1}
  }

  /** The flags 0 .. n-1 set to `v`; other keys kept. */
  function SetRange(sel: map<int, bool>, n: int, v: bool): map<int, bool> {
    map k | k in sel.Keys + Indices(n) :: if 0 <= k < n then v else sel[k]
  }

  lemma SetRangeZero(sel: map<int, bool>, v: bool)
    ensures SetRange(sel, 0, v) == sel
  {
    assert forall k :: k in SetRange(sel, 0, v) <==> k in sel;
  }

  /** Setting one more position extends the range by one. */
  lemma SetRangeStep(sel: map<int, bool>, i: nat, v: bool)
    ensures SetRange(sel, i, v)[i := v] == SetRange(sel, i + 1, v)
  {
    assert Indices(i + 1) == Indices(i) + {i};
  }

  lemma SafePrefixZero(sel: map<int, bool>, items: seq<CleanableItem>)
    ensures SafePrefix(sel, items, 0) == sel
  {
    assert forall k :: k in SafePrefix(sel, items, 0) <==> k in sel;
  }

  /** Marking one more position extends the marked prefix by one. */
  lemma SafePrefixStep(sel: map<int, bool>, items: seq<CleanableItem>, i: nat)
    requires i < |items|
    ensures SafePrefix(sel, items, i)[i := items[i].level == Safe] == SafePrefix(sel, items, i + 1)
  {
    assert Indices(i + 1) == Indices(i) + {i};
  }

  /** The flags 0 .. n-1 set to whether that item is safe; other keys kept. */
  function SafePrefix(sel: map<int, bool>, items: seq<CleanableItem>, n: int): map<int, bool>
    requires n <= |items|
  {
    map k | k in sel.Keys + Indices(n) :: if 0 <= k < n then items[k].level == Safe else sel[k]
  }

  /** One call of Update: the new state and whether it returns tea.Quit. */
  function Step(items: seq<CleanableItem>, s: Session, msg: Msg): (Session, bool) {
    match msg
    case OtherMsg => (s, false)
    case KeyMsg(key) =>
      if key == "ctrl+c" || key == "q" then
        (s.(quit := true), true)
      else if key == "up" || key == "k" then
        (if s.cursor > 0 then s.(cursor := s.cursor - 1) else s, false)
      else if key == "down" || key == "j" then
        (if s.cursor < |items| - 1 then s.(cursor := s.cursor + 1) else s, false)
      else if key == " " then
        (s.(selected := s.selected[s.cursor := !IsSelected(s.selected, s.cursor)]), false)
      else if key == "a" then
        (s.(selected := SetRange(s.selected, |items|, !AllSelected(s.selected, |items|))), false)
      else if key == "s" then
        (s.(selected := SafePrefix(s.selected, items, |items|)), false)
      else if key == "enter" then
        if HasSelection(s.selected) then (s.(confirm := true), true) else (s, false)
      else
        (s, false)
  }

  /** The cursor stays on an item (on 0 when there is none), and every
      selection flag is for such a position. */
  predicate InBounds(n: nat, s: Session) {
    && 0 <= s.cursor && (s.cursor < n || s.cursor == 0)
    && forall k :: k in s.selected ==> 0 <= k && (k < n || k == 0)
  }

  /** The interactive model. Update works on the fields in place. */
  class Model {
    var items: seq<CleanableItem>
    var cursor: int
    var selected: map<int, bool>
    var quit: bool
    var confirm: bool

    function State(): Session
      reads this
    {
      Session(cursor, selected, quit, confirm)
    }

    /** initialModel */
    constructor (items: seq<CleanableItem>)
      ensures this.items == items && State() == Initial()
    {
      this.items := items;
      cursor := 0;
      selected := map[];
      quit := false;
      confirm := false;
    }

    method Update(msg: Msg) returns (quitCmd: bool)
      modifies this
      ensures items == old(items)
      ensures (State(), quitCmd) == Step(items, old(State()), msg)
    {
      quitCmd := false;
      if !msg.KeyMsg? {
        return;
      }
      var key := msg.key;
      if key == "ctrl+c" || key == "q" {
        quit := true;
        return true;
      } else if key == "up" || key == "k" {
        if cursor > 0 {
          cursor := cursor - 1;
        }
      } else if key == "down" || key == "j" {
        if cursor < |items| - 1 {
          cursor := cursor + 1;
        }
      } else if key == " " {
        selected := selected[cursor := !IsSelected(selected, cursor)];
      } else if key == "a" {
        ToggleAll();
      } else if key == "s" {
        SelectSafe();
      } else if key == "enter" {
        var hasSelection := AnySelected();
        if hasSelection {
          confirm := true;
          return true;
        }
      }
    }

    /** The 'a' key: clear every flag when all items are selected, else set them all. */
    method ToggleAll()
      modifies this`selected
      ensures selected == SetRange(old(selected), |items|, !AllSelected(old(selected), |items|))
    {
      var allSelected := true;
      for i := 0 to |items|
        invariant allSelected == AllSelected(selected, i)
      {
        if !IsSelected(selected, i) {
          allSelected := false;
          break;
        }
      }
      ghost var sel0 := selected;
      SetRangeZero(sel0, !allSelected);
      for i := 0 to |items|
        invariant selected == SetRange(sel0, i, !allSelected)
      {
        SetRangeStep(sel0, i, !allSelected);
        selected := selected[i := !allSelected];
      }
    }

    /** The 's' key: the flag of each item becomes whether it is safe. */
    method SelectSafe()
      modifies this`selected
      ensures selected == SafePrefix(old(selected), items, |items|)
    {
      ghost var sel0 := selected;
      SafePrefixZero(sel0, items);
      for i := 0 to |items|
        invariant selected == SafePrefix(sel0, items, i)
      {
        SafePrefixStep(sel0, items, i);
        selected := selected[i := items[i].level == Safe];
      }
    }

    /** The search of the 'enter' key over the map's values. */
    method AnySelected() returns (hasSelection: bool)
      ensures hasSelection == HasSelection(selected)
    {
      hasSelection := false;
      var keys := selected.Keys;
      while keys != {}
        invariant keys <= selected.Keys
        invariant forall k :: k in selected.Keys - keys ==> !selected[k]
        decreases keys
      {
        var k := Pick(keys);
        if selected[k] {
          return true;
        }
        keys := keys - {k};
      }
    }
  }

  /** Every key keeps the cursor on an item and the flags on positions. */
  lemma StepKeepsInBounds(items: seq<CleanableItem>, s: Session, msg: Msg)
    requires InBounds(|items|, s)
    ensures InBounds(|items|, Step(items, s, msg).0)
  {
  }

  /** The movement keys move the cursor by at most one and change nothing else. */
  lemma MoveKeys(items: seq<CleanableItem>, s: Session, key: string)
    requires InBounds(|items|, s)
    requires key in {"up", "k", "down", "j"}
    ensures var (t, quitCmd) := Step(items, s, KeyMsg(key));
      && !quitCmd && t.selected == s.selected && t.quit == s.quit && t.confirm == s.confirm
      && -1 <= t.cursor - s.cursor <= 1
      && (key in {"up", "k"} ==> t.cursor == if s.cursor == 0 then 0 else s.cursor - 1)
      && (key in {"down", "j"} && |items| > 0 ==> t.cursor == if s.cursor == |items| - 1 then s.cursor else s.cursor + 1)
  {
  }

  /** Space flips the flag under the cursor and no other. */
  lemma SpaceFlipsCursor(items: seq<CleanableItem>, s: Session)
    ensures var (t, quitCmd) := Step(items, s, KeyMsg(" "));
      && !quitCmd && t.cursor == s.cursor
      && forall i :: IsSelected(t.selected, i) == (if i == s.cursor then !IsSelected(s.selected, i) else IsSelected(s.selected, i))
  {
  }

  /** Space twice leaves every flag as it was. */
  lemma SpaceTwiceRestores(items: seq<CleanableItem>, s: Session)
    ensures var t := Step(items, Step(items, s, KeyMsg(" ")).0, KeyMsg(" ")).0;
      forall i :: IsSelected(t.selected, i) == IsSelected(s.selected, i)
  {
    SpaceFlipsCursor(items, s);
    SpaceFlipsCursor(items, Step(items, s, KeyMsg(" ")).0);
  }

  /** 'a' selects every item unless all were selected, in which case it
      clears them all; flags outside the list are untouched. */
  lemma ToggleAllFlags(items: seq<CleanableItem>, s: Session)
    ensures var (t, quitCmd) := Step(items, s, KeyMsg("a"));
      && !quitCmd && t.cursor == s.cursor
      && (AllSelected(s.selected, |items|) ==> NoneSelected(t.selected, |items|))
      && (!AllSelected(s.selected, |items|) ==> AllSelected(t.selected, |items|))
      && forall i :: !(0 <= i < |items|) ==> IsSelected(t.selected, i) == IsSelected(s.selected, i)
  {
    var t := Step(items, s, KeyMsg("a")).0;
    forall i | 0 <= i < |items|
      ensures IsSelected(t.selected, i) == !AllSelected(s.selected, |items|)
    {
      assert i in Indices(|items|);
    }
  }

  /** From all selected or none selected, 'a' twice returns to the same flags. */
  lemma ToggleAllTwice(items: seq<CleanableItem>, s: Session)
    requires AllSelected(s.selected, |items|) || NoneSelected(s.selected, |items|)
    ensures var t := Step(items, Step(items, s, KeyMsg("a")).0, KeyMsg("a")).0;
      forall i :: IsSelected(t.selected, i) == IsSelected(s.selected, i)
  {
    var m := Step(items, s, KeyMsg("a")).0;
    ToggleAllFlags(items, s);
    ToggleAllFlags(items, m);
    if |items| > 0 && NoneSelected(s.selected, |items|) {
      assert !IsSelected(s.selected, 0);
    }
  }

  /** From anything but all selected (a partial selection included), 'a'
      twice leaves nothing selected. */
  lemma ToggleAllTwiceFromPartial(items: seq<CleanableItem>, s: Session)
    requires !AllSelected(s.selected, |items|)
    ensures var t := Step(items, Step(items, s, KeyMsg("a")).0, KeyMsg("a")).0;
      NoneSelected(t.selected, |items|)
  {
    var m := Step(items, s, KeyMsg("a")).0;
    ToggleAllFlags(items, s);
    ToggleAllFlags(items, m);
  }

  /** 's' selects exactly the safe items, and pressing it again changes nothing. */
  lemma SelectSafeExact(items: seq<CleanableItem>, s: Session)
    ensures var (t, quitCmd) := Step(items, s, KeyMsg("s"));
      && !quitCmd && t.cursor == s.cursor
      && (forall i :: 0 <= i < |items| ==> (IsSelected(t.selected, i) <==> items[i].level == Safe))
      && Step(items, t, KeyMsg("s")) == (t, false)
  {
    var t := Step(items, s, KeyMsg("s")).0;
    forall i | 0 <= i < |items|
      ensures IsSelected(t.selected, i) <==> items[i].level == Safe
    {
      assert i in Indices(|items|);
    }
    assert SafePrefix(t.selected, items, |items|) == t.selected;
  }

  /** Enter confirms and ends the program exactly when some flag is set;
      otherwise nothing changes. */
  lemma EnterConfirmsIff(items: seq<CleanableItem>, s: Session)
    ensures var (t, quitCmd) := Step(items, s, KeyMsg("enter"));
      && (quitCmd <==> HasSelection(s.selected))
      && (quitCmd ==> t == s.(confirm := true))
      && (!quitCmd ==> t == s)
  {
  }

  /** q and ctrl+c always end the program, marking it quit. */
  lemma QuitKeys(items: seq<CleanableItem>, s: Session, key: string)
    requires key == "q" || key == "ctrl+c"
    ensures Step(items, s, KeyMsg(key)) == (s.(quit := true), true)
  {
  }

  /** Update applied message by message until one returns tea.Quit (the
      program then stops) or the messages run out. */
  function Run(items: seq<CleanableItem>, s: Session, msgs: seq<Msg>): Session
    decreases |msgs|
  {
    if msgs == [] then s
    else
      var (next, quitCmd) := Step(items, s, msgs[0]);
      if quitCmd then next else Run(items, next, msgs[1..])
  }

  /** From a running state, the program ends quit or confirmed but never
      both, a confirmation has some flag set, and the bounds hold throughout. */
  lemma {:induction false} RunOutcome(items: seq<CleanableItem>, s: Session, msgs: seq<Msg>)
    requires InBounds(|items|, s) && !s.quit && !s.confirm
    ensures var f := Run(items, s, msgs);
      InBounds(|items|, f) && !(f.quit && f.confirm) && (f.confirm ==> HasSelection(f.selected))
    decreases |msgs|
  {
    if msgs != [] {
      var (next, quitCmd) := Step(items, s, msgs[0]);
      StepKeepsInBounds(items, s, msgs[0]);
      if !quitCmd {
        RunOutcome(items, next, msgs[1..]);
      }
    }
  }

  /** The bubbletea event loop over a scripted message sequence. */
  method RunProgram(m: Model, msgs: seq<Msg>)
    modifies m
    ensures m.items == old(m.items)
    ensures m.State() == Run(m.items, old(m.State()), msgs)
  {
    var i := 0;
    while i < |msgs|
      invariant 0 <= i <= |msgs|
      invariant m.items == old(m.items)
      invariant Run(m.items, m.State(), msgs[i..]) == Run(m.items, old(m.State()), msgs)
    {
      ghost var before := m.State();
      var quitCmd := m.Update(msgs[i]);
      assert msgs[i..][1..] == msgs[i + 1..];
      if quitCmd {
        return;
      }
      i := i + 1;
    }
  }

  // ---------------------------------------------------------------------
  // The selection result and the totals
  // ---------------------------------------------------------------------

  /** The selected items, in list order. */
  function Selected(items: seq<CleanableItem>, sel: map<int, bool>): seq<CleanableItem> {
    if items == [] then []
    else
      Selected(items[..|items| - 1], sel)
      + (if IsSelected(sel, |items| - 1) then [items[|items| - 1]] else [])
  }

  /** The sum of the sizes of the selected positions. */
  function SelectedSize(items: seq<CleanableItem>, sel: map<int, bool>): nat {
    if items == [] then 0
    else
      SelectedSize(items[..|items| - 1], sel)
      + (if IsSelected(sel, |items| - 1) then items[|items| - 1].size else 0)
  }

  /** The loop at the end of SelectItems that appends each selected item. */
  method CollectSelected(items: seq<CleanableItem>, sel: map<int, bool>) returns (chosen: seq<CleanableItem>)
    ensures chosen == Selected(items, sel)
  {
    chosen := [];
    for i := 0 to |items|
      invariant chosen == Selected(items[..i], sel)
    {
      if IsSelected(sel, i) {
        chosen := chosen + [items[i]];
      }
      assert items[..i + 1][..i] == items[..i];
    }
    assert items[..|items|] == items;
  }

  /** View's "Selected:" total. */
  method ViewSelectedTotal(items: seq<CleanableItem>, sel: map<int, bool>) returns (totalSelected: nat)
    ensures totalSelected == SelectedSize(items, sel)
  {
    totalSelected := 0;
    for i := 0 to |items|
      invariant totalSelected == SelectedSize(items[..i], sel)
    {
      if IsSelected(sel, i) {
        totalSelected := totalSelected + items[i].size;
      }
      assert items[..i + 1][..i] == items[..i];
    }
    assert items[..|items|] == items;
  }

  /** DisplayDryRun's "Would free" total (and any other running total of sizes). */
  method TotalSize(items: seq<CleanableItem>) returns (total: nat)
    ensures total == SumSizes(items)
  {
    total := 0;
    for i := 0 to |items|
      invariant total == SumSizes(items[..i])
    {
      total := total + items[i].size;
      assert items[..i + 1][..i] == items[..i];
    }
    assert items[..|items|] == items;
  }

  /** The items returned after confirming add up to the total View shows. */
  lemma {:induction false} SelectedSizeMatchesView(items: seq<CleanableItem>, sel: map<int, bool>)
    ensures SumSizes(Selected(items, sel)) == SelectedSize(items, sel)
    decreases |items|
  {
    if items != [] {
      var init := items[..|items| - 1];
      SelectedSizeMatchesView(init, sel);
      var tail := if IsSelected(sel, |items| - 1) then [items[|items| - 1]] else [];
      SumSizesAppend(Selected(init, sel), tail);
      if tail != [] {
        assert tail[..0] == [];
      }
    }
  }

  /** An item is returned exactly when its position is selected. */
  lemma {:induction false} SelectedMembers(items: seq<CleanableItem>, sel: map<int, bool>)
    ensures forall x :: x in Selected(items, sel) <==>
      exists i :: 0 <= i < |items| && IsSelected(sel, i) && items[i] == x
    decreases |items|
  {
    if items != [] {
      var init := items[..|items| - 1];
      SelectedMembers(init, sel);
      forall x | x in Selected(items, sel)
        ensures exists i :: 0 <= i < |items| && IsSelected(sel, i) && items[i] == x
      {
        if x in Selected(init, sel) {
          var i :| 0 <= i < |init| && IsSelected(sel, i) && init[i] == x;
          assert items[i] == x;
        }
      }
      forall x | exists i :: 0 <= i < |items| && IsSelected(sel, i) && items[i] == x
        ensures x in Selected(items, sel)
      {
        var i :| 0 <= i < |items| && IsSelected(sel, i) && items[i] == x;
        if i < |items| - 1 {
          assert init[i] == x;
        }
      }
    }
  }

  /** The returned items keep the list's largest-first order. */
  lemma {:induction false} SelectedKeepsOrder(items: seq<CleanableItem>, sel: map<int, bool>)
    requires SortedBySizeDesc(items)
    ensures SortedBySizeDesc(Selected(items, sel))
    decreases |items|
  {
    if items != [] {
      var init := items[..|items| - 1];
      var last := items[|items| - 1];
      SelectedKeepsOrder(init, sel);
      SelectedMembers(init, sel);
      var r := Selected(items, sel);
      if IsSelected(sel, |items| - 1) {
        forall p, q | 0 <= p < q < |r|
          ensures r[p].size >= r[q].size
        {
          if q == |r| - 1 {
            assert r[p] in Selected(init, sel);
            var i :| 0 <= i < |init| && IsSelected(sel, i) && init[i] == r[p];
          }
        }
      }
    }
  }

  /** With every flag on a valid position, a confirmable selection returns
      at least one item. */
  lemma ConfirmedSelectionNonEmpty(items: seq<CleanableItem>, s: Session)
    requires |items| > 0 && InBounds(|items|, s) && HasSelection(s.selected)
    ensures Selected(items, s.selected) != []
  {
    var k :| k in s.selected && s.selected[k];
    SelectedMembers(items, s.selected);
    assert items[k] in Selected(items, s.selected);
  }

  /** What SelectItems returns for the list `sorted` (already sorted), the
      script of messages, and whether the program failed to run. */
  function SelectionResult(sorted: seq<CleanableItem>, msgs: seq<Msg>, runFailed: bool): seq<CleanableItem> {
    if sorted == [] || runFailed then []
    else
      var final := Run(sorted, Initial(), msgs);
      if final.quit then [] else Selected(sorted, final.selected)
  }

  /** What SelectItems hands back: items of the list, still largest first;
      nothing after a quit or a failed run; and, once the user confirmed,
      at least one item. */
  lemma SelectionResultProps(sorted: seq<CleanableItem>, msgs: seq<Msg>, runFailed: bool)
    requires SortedBySizeDesc(sorted)
    ensures var r := SelectionResult(sorted, msgs, runFailed);
      && SortedBySizeDesc(r)
      && (forall x :: x in r ==> x in sorted)
      && (runFailed || Run(sorted, Initial(), msgs).quit ==> r == [])
      && (sorted != [] && !runFailed && Run(sorted, Initial(), msgs).confirm ==> r != [])
  {
    if sorted != [] && !runFailed {
      var f := Run(sorted, Initial(), msgs);
      RunOutcome(sorted, Initial(), msgs);
      SelectedKeepsOrder(sorted, f.selected);
      SelectedMembers(sorted, f.selected);
      if f.confirm {
        ConfirmedSelectionNonEmpty(sorted, f);
      }
    }
  }

  /** SelectItems: an empty list returns nothing; otherwise the caller's
      slice is sorted largest first in place, the program runs, and a quit
      or a failed run returns nothing, else the selected items in order. */
  method SelectItems(items: array<CleanableItem>, msgs: seq<Msg>, runFailed: bool) returns (chosen: seq<CleanableItem>)
    modifies items
    ensures SortedBySizeDesc(items[..]) && multiset(items[..]) == multiset(old(items[..]))
    ensures chosen == SelectionResult(items[..], msgs, runFailed)
  {
    if items.Length == 0 {
      return [];
    }
    SortBySizeDesc(items);
    var m := new Model(items[..]);
    RunProgram(m, msgs);
    if runFailed {
      return [];
    }
    if m.quit {
      return [];
    }
    chosen := CollectSelected(items[..], m.selected);
  }

  // ---------------------------------------------------------------------
  // Scan results grouped by category
  // ---------------------------------------------------------------------

  function OfCategory(items: seq<CleanableItem>, c: string): seq<CleanableItem> {
    if items == [] then []
    else
      OfCategory(items[..|items| - 1], c)
      + (if items[|items| - 1].category == c then [items[|items| - 1]] else [])
  }

  /** The items whose category is one of `cats`. */
  function InCategories(items: seq<CleanableItem>, cats: set<string>): seq<CleanableItem> {
    if items == [] then []
    else
      InCategories(items[..|items| - 1], cats)
      + (if items[|items| - 1].category in cats then [items[|items| - 1]] else [])
  }

  function Categories(items: seq<CleanableItem>): set<string> {
    set it | it in items :: it.category
  }

  /** One category heading of the report: its name, its total, its items. */
  datatype CategoryLine = CategoryLine(category: string, size: nat, items: seq<CleanableItem>)

  /** The categories the headings name. */
  function LineCategories(lines: seq<CategoryLine>): (r: set<string>)
    ensures forall i :: 0 <= i < |lines| ==> lines[i].category in r
  {
    if lines == [] then {} else LineCategories(lines[..|lines| - 1]) + {lines[|lines| - 1].category}
  }

  function LinesTotal(lines: seq<CategoryLine>): nat {
    if lines == [] then 0 else LinesTotal(lines[..|lines| - 1]) + lines[|lines| - 1].size
  }

  lemma {:induction false} InCategoriesSplit(items: seq<CleanableItem>, cats: set<string>, c: string)
    requires c in cats
    ensures SumSizes(InCategories(items, cats))
            == SumSizes(OfCategory(items, c)) + SumSizes(InCategories(items, cats - {c}))
    decreases |items|
  {
    if items != [] {
      var init := items[..|items| - 1];
      var last := items[|items| - 1];
      InCategoriesSplit(init, cats, c);
      SumSizesAppend(InCategories(init, cats), if last.category in cats then [last] else []);
      SumSizesAppend(OfCategory(init, c), if last.category == c then [last] else []);
      SumSizesAppend(InCategories(init, cats - {c}), if last.category in cats - {c} then [last] else []);
      assert [last][..0] == [];
    }
  }

  lemma {:induction false} InCategoriesCovering(items: seq<CleanableItem>, cats: set<string>)
    requires Categories(items) <= cats
    ensures InCategories(items, cats) == items
    decreases |items|
  {
    if items != [] {
      var init := items[..|items| - 1];
      assert Categories(init) <= Categories(items) by {
        forall c | c in Categories(init) ensures c in Categories(items) {
          var it :| it in init && it.category == c;
          assert it in items;
        }
      }
      assert items[|items| - 1] in items;
      InCategoriesCovering(init, cats);
    }
  }

  lemma {:induction false} InNoCategories(items: seq<CleanableItem>)
    ensures InCategories(items, {}) == []
    decreases |items|
  {
    if items != [] {
      InNoCategories(items[..|items| - 1]);
    }
  }

  /** The first pass of DisplayScanResults: the overall total, and the map
      from each category present to its items in list order. */
  method GroupByCategory(items: seq<CleanableItem>) returns (categories: map<string, seq<CleanableItem>>, totalSize: nat)
    ensures totalSize == SumSizes(items)
    ensures categories.Keys == Categories(items)
    ensures forall c :: c in categories ==> categories[c] == OfCategory(items, c)
  {
    categories := map[];
    totalSize := 0;
    for i := 0 to |items|
      invariant totalSize == SumSizes(items[..i])
      invariant categories.Keys == Categories(items[..i])
      invariant forall c :: c in categories ==> categories[c] == OfCategory(items[..i], c)
    {
      var item := items[i];
      var prev := if item.category in categories then categories[item.category] else [];
      assert items[..i + 1] == items[..i] + [item];
      GroupStep(items[..i], item, categories);
      categories := categories[item.category := prev + [item]];
      totalSize := totalSize + item.size;
    }
    assert items[..|items|] == items;
  }

  /** Filing one more item under its category keeps the grouping faithful. */
  lemma GroupStep(prefix: seq<CleanableItem>, item: CleanableItem, categories: map<string, seq<CleanableItem>>)
    requires categories.Keys == Categories(prefix)
    requires forall c :: c in categories ==> categories[c] == OfCategory(prefix, c)
    ensures var prev := if item.category in categories then categories[item.category] else [];
      var next := categories[item.category := prev + [item]];
      && SumSizes(prefix + [item]) == SumSizes(prefix) + item.size
      && next.Keys == Categories(prefix + [item])
      && forall c :: c in next ==> next[c] == OfCategory(prefix + [item], c)
  {
    var all := prefix + [item];
    assert all[..|all| - 1] == prefix;
    if item.category !in categories {
      NotInCategory(prefix, item.category);
    }
    assert Categories(all) == Categories(prefix) + {item.category} by {
      assert forall it :: it in all <==> it in prefix || it == item;
    }
  }

  /** Each heading carries the items of its category and their total. */
  predicate HeadingsOf(items: seq<CleanableItem>, lines: seq<CategoryLine>) {
    forall i :: 0 <= i < |lines| ==>
      lines[i].items == OfCategory(items, lines[i].category) && lines[i].size == SumSizes(lines[i].items)
  }

  /** No category is headed twice. */
  predicate DistinctCategories(lines: seq<CategoryLine>) {
    forall i, j :: 0 <= i < j < |lines| ==> lines[i].category != lines[j].category
  }

  /** DisplayScanResults over the (sorted) items: the grouping pass, then
      one heading per category, each with the total of its own items. */
  method ScanResultTotals(items: seq<CleanableItem>) returns (lines: seq<CategoryLine>, totalSize: nat)
    ensures totalSize == SumSizes(items)
    ensures LinesTotal(lines) == totalSize
    ensures DistinctCategories(lines) && LineCategories(lines) == Categories(items)
    ensures HeadingsOf(items, lines)
  {
    var categories;
    categories, totalSize := GroupByCategory(items);
    lines := CategoryHeadings(items, categories);
  }

  /** The second pass of DisplayScanResults: the categories of the map in
      its iteration order (any order), each with its items and their total. */
  method CategoryHeadings(items: seq<CleanableItem>, categories: map<string, seq<CleanableItem>>) returns (lines: seq<CategoryLine>)
    requires categories.Keys == Categories(items)
    requires forall c :: c in categories ==> categories[c] == OfCategory(items, c)
    ensures LinesTotal(lines) == SumSizes(items)
    ensures DistinctCategories(lines) && LineCategories(lines) == Categories(items)
    ensures HeadingsOf(items, lines)
  {
    var remaining := categories.Keys;
    lines := [];
    InCategoriesCovering(items, remaining);
    while remaining != {}
      invariant LineCategories(lines) + remaining == categories.Keys
      invariant LineCategories(lines) !! remaining
      invariant LinesTotal(lines) + SumSizes(InCategories(items, remaining)) == SumSizes(items)
      invariant DistinctCategories(lines)
      invariant HeadingsOf(items, lines)
      decreases remaining
    {
      var category := Pick(remaining);
      var catItems := categories[category];
      var catSize := TotalSize(catItems);
      HeadingStep(items, categories.Keys, lines, remaining, CategoryLine(category, catSize, catItems));
      lines := lines + [CategoryLine(category, catSize, catItems)];
      remaining := remaining - {category};
    }
    InNoCategories(items);
  }

  /** One heading printed: the loop's invariants carry over to the
      remaining categories. */
  lemma HeadingStep(items: seq<CleanableItem>, keys: set<string>, lines: seq<CategoryLine>,
                    remaining: set<string>, line: CategoryLine)
    requires LineCategories(lines) + remaining == keys && LineCategories(lines) !! remaining
    requires LinesTotal(lines) + SumSizes(InCategories(items, remaining)) == SumSizes(items)
    requires DistinctCategories(lines) && HeadingsOf(items, lines)
    requires line.category in remaining
    requires line.items == OfCategory(items, line.category) && line.size == SumSizes(line.items)
    ensures var next, rest := lines + [line], remaining - {line.category};
      && LineCategories(next) + rest == keys && LineCategories(next) !! rest
      && LinesTotal(next) + SumSizes(InCategories(items, rest)) == SumSizes(items)
      && DistinctCategories(next) && HeadingsOf(items, next)
  {
    InCategoriesSplit(items, remaining, line.category);
    AddHeading(items, lines, line);
  }

  /** Appending the heading of a new category keeps the headings distinct
      and faithful, and adds its category and its total. */
  lemma AddHeading(items: seq<CleanableItem>, lines: seq<CategoryLine>, line: CategoryLine)
    requires DistinctCategories(lines) && HeadingsOf(items, lines)
    requires line.category !in LineCategories(lines)
    requires line.items == OfCategory(items, line.category) && line.size == SumSizes(line.items)
    ensures LinesTotal(lines + [line]) == LinesTotal(lines) + line.size
    ensures LineCategories(lines + [line]) == LineCategories(lines) + {line.category}
    ensures DistinctCategories(lines + [line]) && HeadingsOf(items, lines + [line])
  {
    assert (lines + [line])[..|lines|] == lines;
  }

  /** A category with no item so far has no items. */
  lemma {:induction false} NotInCategory(items: seq<CleanableItem>, c: string)
    requires c !in Categories(items)
    ensures OfCategory(items, c) == []
    decreases |items|
  {
    if items != [] {
      var init := items[..|items| - 1];
      assert items[|items| - 1] in items;
      NotInCategory(init, c);
    }
  }

  /** DisplayScanResults: nothing to show for an empty list; otherwise the
      caller's slice is sorted largest first and summarised. */
  method DisplayScanResults(items: array<CleanableItem>) returns (lines: seq<CategoryLine>, totalSize: nat)
    modifies items
    ensures multiset(items[..]) == multiset(old(items[..])) && (items.Length > 0 ==> SortedBySizeDesc(items[..]))
    ensures DistinctCategories(lines) && LineCategories(lines) == Categories(items[..])
    ensures HeadingsOf(items[..], lines)
    ensures totalSize == SumSizes(old(items[..])) && LinesTotal(lines) == totalSize
  {
    if items.Length == 0 {
      return [], 0;
    }
    SortBySizeDesc(items);
    lines, totalSize := ScanResultTotals(items[..]);
    SumSizesPermutation(items[..], old(items[..]));
  }
}
