/** Which filter a rule's callback gets (`maybe_create_child_filter` of tools/schema/matter_grammar.js), and what
    becomes of the placeholders of optional items. */
module ChildFilters {
  import opened TreeBuilder

  /** A symbol of a rule: `inlined` is a name of a rule that starts with "_". */
  datatype Symbol = Symbol(isTerm: bool, filterOut: bool, inlined: bool)

  predicate Kept(s: Symbol, keepAll: bool) {
    keepAll || !(s.isTerm && s.filterOut)
  }

  predicate Expands(s: Symbol) {
    !s.isTerm && s.inlined
  }

  /** `s.split("0").map((ones) => ones.length)`: how many empty items before each item that is there, and behind the
      last. */
  function Gaps(empty: seq<bool>): (gaps: seq<nat>)
    ensures gaps != []
  {
    if empty == [] then [0]
    else
      var gaps, n := Gaps(empty[..|empty| - 1]), |Gaps(empty[..|empty| - 1])| - 1;
      if empty[|empty| - 1] then gaps[n := gaps[n] + 1] else gaps + [0]
  }

  function Present(empty: seq<bool>): nat {
    if empty == [] then 0 else Present(empty[..|empty| - 1]) + if empty[|empty| - 1] then 0 else 1
  }

  lemma {:induction false} GapsLength(empty: seq<bool>)
    ensures |Gaps(empty)| == Present(empty) + 1
  {
    if empty != [] {
      GapsLength(empty[..|empty| - 1]);
    }
  }

  /** What is included of the first k symbols, and how many empty items wait for the next. */
  function Chosen(expansion: seq<Symbol>, keepAll: bool, gaps: seq<nat>, k: nat): (seq<Include>, nat)
    requires k <= |expansion| && k <= |gaps|
  {
    if k == 0 then ([], 0)
    else
      var (inc, waiting) := Chosen(expansion, keepAll, gaps, k - 1);
      var s, nones := expansion[k - 1], waiting + gaps[k - 1];
      if Kept(s, keepAll) then (inc + [Include(k - 1, Expands(s), nones)], 0) else (inc, nones)
  }

  /** The loop over the symbols. */
  method Choose(expansion: seq<Symbol>, keepAll: bool, gaps: seq<nat>) returns (inc: seq<Include>, nones: nat)
    requires |gaps| == |expansion| + 1
    ensures var (i, n) := Chosen(expansion, keepAll, gaps, |expansion|); inc == i && nones == n + gaps[|expansion|]
  {
    inc, nones := [], 0;
    var k := 0;
    while k < |expansion|
      invariant k <= |expansion| && (inc, nones) == Chosen(expansion, keepAll, gaps, k)
    {
      nones := nones + gaps[k];
      if Kept(expansion[k], keepAll) {
        inc := inc + [Include(k, Expands(expansion[k]), nones)];
        nones := 0;
      }
      k := k + 1;
    }
    nones := nones + gaps[|expansion|];
  }

  // ----- what the placeholders are for

  /** A child in its place: nothing of what is filtered out, the children of an inlined rule's tree, or the child. */
  function Part(s: Symbol, keepAll: bool, kid: Child): seq<Child>
    requires Expands(s) ==> kid.Sub?
  {
    if s.isTerm then (if s.filterOut && !keepAll then [] else [kid])
    else if s.inlined then kid.kids
    else [kid]
  }

  predicate Suits(expansion: seq<Symbol>, kids: seq<Child>) {
    |kids| == |expansion| && forall i :: 0 <= i < |kids| && Expands(expansion[i]) ==> kids[i].Sub?
  }

  /** One place after another: a null for an empty item, and the next child for one that is there. */
  function Aligned(empty: seq<bool>, expansion: seq<Symbol>, keepAll: bool, kids: seq<Child>): seq<Child>
    requires Suits(expansion, kids) && Present(empty) == |kids|
    decreases empty
  {
    if empty == [] then []
    else
      var before, n := empty[..|empty| - 1], |kids| - 1;
      if empty[|empty| - 1] then Aligned(before, expansion, keepAll, kids) + [Absent]
      else Aligned(before, expansion[..n], keepAll, kids[..n]) + Part(expansion[n], keepAll, kids[n])
  }

  /** Indices in order, below k, and only trees expanded. */
  lemma {:induction false} ChosenFits(expansion: seq<Symbol>, keepAll: bool, gaps: seq<nat>, kids: seq<Child>, k: nat)
    requires Suits(expansion, kids) && k <= |expansion| && k <= |gaps|
    ensures var inc := Chosen(expansion, keepAll, gaps, k).0;
            Fits(inc, kids) && forall i :: 0 <= i < |inc| ==> inc[i].index < k
    decreases k
  {
    if k > 0 {
      ChosenFits(expansion, keepAll, gaps, kids, k - 1);
    }
  }

  /** What is chosen of the first symbols depends on these alone. */
  lemma {:induction false} ChosenPrefix(a: seq<Symbol>, b: seq<Symbol>, keepAll: bool, g: seq<nat>, h: seq<nat>, k: nat)
    requires k <= |a| && k <= |b| && k <= |g| && k <= |h| && a[..k] == b[..k] && g[..k] == h[..k]
    ensures Chosen(a, keepAll, g, k) == Chosen(b, keepAll, h, k)
    decreases k
  {
    if k > 0 {
      assert a[..k - 1] == a[..k][..k - 1] && b[..k - 1] == b[..k][..k - 1];
      assert g[..k - 1] == g[..k][..k - 1] && h[..k - 1] == h[..k][..k - 1];
      assert a[k - 1] == a[..k][k - 1] == b[k - 1] && g[k - 1] == g[..k][k - 1] == h[k - 1];
      ChosenPrefix(a, b, keepAll, g, h, k - 1);
    }
  }

  /** A filter over the first children takes the same of all. */
  lemma {:induction false} FilteredPrefix(inc: seq<Include>, kids: seq<Child>, k: nat)
    requires k <= |kids| && Fits(inc, kids) && forall i :: 0 <= i < |inc| ==> inc[i].index < k
    ensures Fits(inc, kids[..k]) && Filtered(inc, kids[..k]) == Filtered(inc, kids)
    decreases |inc|
  {
    if inc != [] {
      FilteredPrefix(inc[..|inc| - 1], kids, k);
    }
  }

  /** The filter with placeholders puts every null in the place of its empty item. */
  lemma {:induction false} PlaceholdersAlign(empty: seq<bool>, expansion: seq<Symbol>, keepAll: bool, kids: seq<Child>)
    requires Suits(expansion, kids) && Present(empty) == |kids|
    ensures |Gaps(empty)| == |kids| + 1
    ensures var (inc, waiting) := Chosen(expansion, keepAll, Gaps(empty), |kids|);
            Fits(inc, kids)
            && Filtered(inc, kids) + Nones(waiting + Gaps(empty)[|kids|]) == Aligned(empty, expansion, keepAll, kids)
    decreases empty
  {
    hide Fits;
    hide Filtered;
    GapsLength(empty);
    ChosenFits(expansion, keepAll, Gaps(empty), kids, |kids|);
    if empty == [] {
      NoneFiltered(kids);
    } else {
      var before, last := empty[..|empty| - 1], empty[|empty| - 1];
      GapsLength(before);
      if last {
        PlaceholdersAlign(before, expansion, keepAll, kids);
        ChosenPrefix(expansion, expansion, keepAll, Gaps(empty), Gaps(before), |kids|);
        OneMoreNone(Chosen(expansion, keepAll, Gaps(empty), |kids|).1 + Gaps(before)[|kids|]);
        assert Aligned(empty, expansion, keepAll, kids) == Aligned(before, expansion, keepAll, kids) + [Absent];
      } else {
        AlignLast(empty, expansion, keepAll, kids);
      }
    }
  }

  lemma NoneFiltered(kids: seq<Child>)
    ensures Fits([], kids) && Filtered([], kids) == []
  {
  }

  lemma OneMoreNone(n: nat)
    ensures Nones(n + 1) == Nones(n) + [Absent]
  {
  }

  /** One more child. */
  lemma {:induction false} AlignLast(empty: seq<bool>, expansion: seq<Symbol>, keepAll: bool, kids: seq<Child>)
    requires Suits(expansion, kids) && Present(empty) == |kids| && empty != [] && !empty[|empty| - 1]
    ensures |Gaps(empty)| == |kids| + 1
    ensures var (inc, waiting) := Chosen(expansion, keepAll, Gaps(empty), |kids|);
            Fits(inc, kids)
            && Filtered(inc, kids) + Nones(waiting + Gaps(empty)[|kids|]) == Aligned(empty, expansion, keepAll, kids)
    decreases empty, 0
  {
    hide Fits;
    hide Filtered;
    hide Nones;
    hide Chosen;
    hide Aligned;
    hide Gaps;
    hide Part;
    GapsLength(empty);
    ChosenFits(expansion, keepAll, Gaps(empty), kids, |kids|);
    var before, n := empty[..|empty| - 1], |kids| - 1;
    GapsLength(before);
    GapsLast(empty);
    PlaceholdersAlign(before, expansion[..n], keepAll, kids[..n]);
    ChosenPrefix(expansion, expansion[..n], keepAll, Gaps(empty), Gaps(before), n);
    ChosenFits(expansion, keepAll, Gaps(empty), kids, n);
    var (inc, waiting) := Chosen(expansion, keepAll, Gaps(empty), n);
    FilteredPrefix(inc, kids, n);
    AlignedLast(empty, expansion, keepAll, kids);
    ChosenLast(expansion, keepAll, Gaps(empty), n + 1);
    PartLast(inc, expansion[n], keepAll, waiting + Gaps(before)[n], kids,
             Aligned(before, expansion[..n], keepAll, kids[..n]));
  }

  lemma GapsLast(empty: seq<bool>)
    requires empty != [] && !empty[|empty| - 1]
    ensures Gaps(empty) == Gaps(empty[..|empty| - 1]) + [0]
  {
  }

  lemma ChosenLast(expansion: seq<Symbol>, keepAll: bool, gaps: seq<nat>, k: nat)
    requires 0 < k <= |expansion| && k <= |gaps|
    ensures var (inc, waiting) := Chosen(expansion, keepAll, gaps, k - 1);
            var s, nones := expansion[k - 1], waiting + gaps[k - 1];
            Chosen(expansion, keepAll, gaps, k)
            == if Kept(s, keepAll) then (inc + [Include(k - 1, Expands(s), nones)], 0) else (inc, nones)
  {
  }

  lemma AlignedLast(empty: seq<bool>, expansion: seq<Symbol>, keepAll: bool, kids: seq<Child>)
    requires Suits(expansion, kids) && Present(empty) == |kids| && empty != [] && !empty[|empty| - 1]
    ensures var n := |kids| - 1;
            Aligned(empty, expansion, keepAll, kids)
            == Aligned(empty[..|empty| - 1], expansion[..n], keepAll, kids[..n]) + Part(expansion[n], keepAll, kids[n])
  {
  }

  lemma PartLast(inc: seq<Include>, s: Symbol, keepAll: bool, nones: nat, kids: seq<Child>, aligned: seq<Child>)
    requires kids != [] && (Expands(s) ==> kids[|kids| - 1].Sub?)
    requires Fits(inc, kids) && Filtered(inc, kids) + Nones(nones) == aligned
    requires var e := Include(|kids| - 1, Expands(s), nones); Kept(s, keepAll) ==> Fits(inc + [e], kids)
    ensures var e := Include(|kids| - 1, Expands(s), nones);
            (if Kept(s, keepAll) then Filtered(inc + [e], kids) + Nones(0) else Filtered(inc, kids) + Nones(nones))
            == aligned + Part(s, keepAll, kids[|kids| - 1])
  {
    hide Fits;
    hide Filtered;
    if Kept(s, keepAll) {
      FilteredSnoc(inc, Include(|kids| - 1, Expands(s), nones), kids);
      assert Nones(0) == [];
      assert Filtered(inc, kids) + (Nones(nones) + Part(s, keepAll, kids[|kids| - 1]))
          == Filtered(inc, kids) + Nones(nones) + Part(s, keepAll, kids[|kids| - 1]);
    }
  }

  lemma FilteredSnoc(inc: seq<Include>, e: Include, kids: seq<Child>)
    requires Fits(inc, kids) && Fits(inc + [e], kids)
    ensures e.index < |kids| && (e.expand ==> kids[e.index].Sub?)
    ensures Filtered(inc + [e], kids) == Filtered(inc, kids) + Picked(e, kids)
  {
    var all := inc + [e];
    assert all[..|all| - 1] == inc && all[|all| - 1] == e;
  }

  // ----- what becomes of them

  /** `(_empty_indices.length || ambiguous).length` is the length of a number, or of a boolean where there is none:
      never defined, so that the filter without placeholders is selected. */
  function Selected(inc: seq<Include>): (bare: seq<Include>)
    ensures |bare| == |inc|
  {
    seq(|inc|, i requires 0 <= i < |inc| => inc[i].(nones := 0))
  }

  lemma SelectedFits(inc: seq<Include>, kids: seq<Child>)
    requires Fits(inc, kids)
    ensures Fits(Selected(inc), kids)
  {
  }

  function AllPresent(n: nat): seq<bool> {
    seq(n, _ => false)
  }

  lemma {:induction false} AllArePresent(n: nat)
    ensures Present(AllPresent(n)) == n && |Gaps(AllPresent(n))| == n + 1
    ensures forall i :: 0 <= i <= n ==> Gaps(AllPresent(n))[i] == 0
  {
    if n > 0 {
      AllArePresent(n - 1);
      assert AllPresent(n)[..n - 1] == AllPresent(n - 1);
    }
  }

  lemma {:induction false} NothingWaits(expansion: seq<Symbol>, keepAll: bool, gaps: seq<nat>, zeros: seq<nat>, k: nat)
    requires k <= |expansion| && k <= |gaps| && k <= |zeros| && forall i :: 0 <= i < |zeros| ==> zeros[i] == 0
    ensures Chosen(expansion, keepAll, zeros, k) == (Selected(Chosen(expansion, keepAll, gaps, k).0), 0)
    decreases k
  {
    if k > 0 {
      NothingWaits(expansion, keepAll, gaps, zeros, k - 1);
      var (inc, waiting) := Chosen(expansion, keepAll, gaps, k - 1);
      var s := expansion[k - 1];
      var e := Include(k - 1, Expands(s), waiting + gaps[k - 1]);
      assert Selected(inc + [e]) == Selected(inc) + [e.(nones := 0)];
    }
  }

  /** How many items are empty. */
  function Empty(empty: seq<bool>): nat {
    if empty == [] then 0 else Empty(empty[..|empty| - 1]) + if empty[|empty| - 1] then 1 else 0
  }

  lemma {:induction false} NoneIsEmpty(empty: seq<bool>)
    ensures Empty(empty) == 0 <==> true !in empty
    ensures true !in empty ==> empty == AllPresent(|empty|)
  {
    if empty != [] {
      NoneIsEmpty(empty[..|empty| - 1]);
      assert empty == empty[..|empty| - 1] + [empty[|empty| - 1]];
    }
  }

  lemma {:induction false} AlignedLength(empty: seq<bool>, expansion: seq<Symbol>, keepAll: bool, kids: seq<Child>)
    requires Suits(expansion, kids) && Present(empty) == |kids|
    ensures Present(AllPresent(|kids|)) == |kids|
    ensures |Aligned(empty, expansion, keepAll, kids)|
            == |Aligned(AllPresent(|kids|), expansion, keepAll, kids)| + Empty(empty)
    decreases empty
  {
    AllArePresent(|kids|);
    if empty != [] {
      var before, n := empty[..|empty| - 1], |kids| - 1;
      if empty[|empty| - 1] {
        AlignedLength(before, expansion, keepAll, kids);
      } else {
        AlignedLength(before, expansion[..n], keepAll, kids[..n]);
        assert AllPresent(|kids|)[..n] == AllPresent(n);
      }
    }
  }

  /** The children of a rule's tree have its placeholders if and only if it has no empty item: the filter that is
      selected leaves every null out. */
  lemma PlaceholdersAreLost(empty: seq<bool>, expansion: seq<Symbol>, keepAll: bool, kids: seq<Child>)
    requires Suits(expansion, kids) && Present(empty) == |kids|
    ensures |Gaps(empty)| == |kids| + 1 && Present(AllPresent(|kids|)) == |kids|
    ensures var bare := Selected(Chosen(expansion, keepAll, Gaps(empty), |kids|).0);
            && Fits(bare, kids)
            && Filtered(bare, kids) == Aligned(AllPresent(|kids|), expansion, keepAll, kids)
            && (Filtered(bare, kids) == Aligned(empty, expansion, keepAll, kids) <==> true !in empty)
  {
    hide Fits;
    hide Filtered;
    hide Aligned;
    hide Gaps;
    var all := AllPresent(|kids|);
    GapsLength(empty);
    AllArePresent(|kids|);
    ChosenFits(expansion, keepAll, Gaps(empty), kids, |kids|);
    SelectedFits(Chosen(expansion, keepAll, Gaps(empty), |kids|).0, kids);
    NothingWaits(expansion, keepAll, Gaps(empty), Gaps(all), |kids|);
    PlaceholdersAlign(all, expansion, keepAll, kids);
    assert Nones(0) == [];
    AlignedLength(empty, expansion, keepAll, kids);
    NoneIsEmpty(empty);
    PresentLength(empty);
  }

  lemma {:induction false} PresentLength(empty: seq<bool>)
    ensures |empty| == Present(empty) + Empty(empty)
  {
    if empty != [] {
      PresentLength(empty[..|empty| - 1]);
    }
  }
}
