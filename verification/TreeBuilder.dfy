/** Building parse trees from child lists that are reused in place
    (`_ChildFilter`, `_ChildFilterLALR`, `_ExpandSingleChild` of tools/schema/matter_grammar.js). */
module TreeBuilder {
  type Name = string

  /** A parse tree as a value.  `Absent` is the null put in place of an optional item. */
  datatype Child = Token(typ: Name, text: string) | Sub(data: Name, kids: seq<Child>) | Absent

  /** One entry of `to_include`: which child, whether its own children replace it, and how many nulls precede it. */
  datatype Include = Include(index: nat, expand: bool, nones: nat)

  // ----- the copying filter

  function Nones(k: nat): seq<Child> {
    seq(k, _ => Absent)
  }

  predicate Fits(inc: seq<Include>, kids: seq<Child>) {
    (forall k :: 0 <= k < |inc| ==> inc[k].index < |kids| && (inc[k].expand ==> kids[inc[k].index].Sub?))
    && (forall j, k :: 0 <= j < k < |inc| ==> inc[j].index < inc[k].index)
  }

  function Picked(e: Include, kids: seq<Child>): seq<Child>
    requires e.index < |kids| && (e.expand ==> kids[e.index].Sub?)
  {
    Nones(e.nones) + if e.expand then kids[e.index].kids else [kids[e.index]]
  }

  /** `_ChildFilter`: a new list, entry by entry. */
  function Filtered(inc: seq<Include>, kids: seq<Child>): seq<Child>
    requires Fits(inc, kids)
  {
    if inc == [] then []
    else Filtered(inc[..|inc| - 1], kids) + Picked(inc[|inc| - 1], kids)
  }

  /** The tree node a rule builds; a rule marked to expand a single child hands that child on. */
  function Built(data: Name, expand1: bool, kids: seq<Child>): Child {
    if expand1 && |kids| == 1 then kids[0] else Sub(data, kids)
  }

  // ----- the same lists in the heap

  datatype Val = VToken(typ: Name, text: string) | VTree(data: Name, list: JsArray) | VAbsent

  class JsArray {
    var items: seq<Val>
    ghost var model: seq<Child>
    ghost var repr: set<JsArray>

    constructor ()
      ensures items == [] && model == [] && repr == {this} && Closed()
    {
      items := [];
      model := [];
      repr := {this};
    }

    /** This list and all below it form a tree, no list under two parents, that stands for `model`. */
    ghost predicate Closed()
      reads this, repr
      decreases repr, 0
    {
      this in repr && ClosedVals(items, model, repr - {this})
    }
  }

  ghost predicate ClosedVals(vs: seq<Val>, model: seq<Child>, below: set<JsArray>)
    reads below
    decreases below, 1
  {
    |vs| == |model|
    && (forall i :: 0 <= i < |vs| ==>
          match vs[i]
          case VToken(typ, text) => model[i] == Token(typ, text)
          case VAbsent => model[i] == Absent
          case VTree(data, list) =>
            list in below && list.repr <= below && list.Closed() && model[i] == Sub(data, list.model))
    && (forall i, j :: 0 <= i < j < |vs| && vs[i].VTree? && vs[j].VTree?
          ==> vs[i].list in below && vs[j].list in below && vs[i].list.repr !! vs[j].list.repr)
  }

  /** The lists that the trees among `vs` are made of. */
  ghost function Foot(vs: seq<Val>): (f: set<JsArray>)
    reads set v | v in vs && v.VTree? :: v.list
  {
    set v, c | v in vs && v.VTree? && c in v.list.repr :: c
  }

  lemma Narrow(vs: seq<Val>, model: seq<Child>, below: set<JsArray>)
    requires ClosedVals(vs, model, below)
    ensures Foot(vs) <= below
    ensures ClosedVals(vs, model, Foot(vs))
  {
    forall i | 0 <= i < |vs| && vs[i].VTree?
      ensures vs[i].list in Foot(vs) && vs[i].list.repr <= Foot(vs)
    {
      assert vs[i] in vs && vs[i].list.Closed();
    }
  }

  lemma Slice(vs: seq<Val>, model: seq<Child>, below: set<JsArray>, lo: nat, hi: nat)
    requires ClosedVals(vs, model, below) && lo <= hi <= |vs|
    ensures ClosedVals(vs[lo..hi], model[lo..hi], below)
  {
  }

  /** Two stretches of one closed list share nothing. */
  lemma StretchesApart(vs: seq<Val>, model: seq<Child>, below: set<JsArray>, m: nat, n: nat)
    requires ClosedVals(vs, model, below) && m <= n <= |vs|
    ensures Foot(vs[..m]) !! Foot(vs[n..])
  {
    forall c | c in Foot(vs[..m])
      ensures c !in Foot(vs[n..])
    {
      var i :| 0 <= i < m && vs[i].VTree? && c in vs[i].list.repr;
      forall v | v in vs[n..] && v.VTree?
        ensures c !in v.list.repr
      {
        var j :| n <= j < |vs| && vs[j] == v;
      }
    }
  }

  lemma Join(a: seq<Val>, ma: seq<Child>, fa: set<JsArray>, b: seq<Val>, mb: seq<Child>, fb: set<JsArray>)
    requires ClosedVals(a, ma, fa) && ClosedVals(b, mb, fb) && fa !! fb
    ensures ClosedVals(a + b, ma + mb, fa + fb)
  {
    var vs := a + b;
    assert forall i :: 0 <= i < |a| ==> vs[i] == a[i];
    assert forall i :: |a| <= i < |vs| ==> vs[i] == b[i - |a|];
    forall i, j | 0 <= i < j < |vs| && vs[i].VTree? && vs[j].VTree?
      ensures vs[i].list in fa + fb && vs[j].list in fa + fb && vs[i].list.repr !! vs[j].list.repr
    {
    }
  }

  lemma AbsentsAreClosed(k: nat)
    ensures ClosedVals(seq(k, _ => VAbsent), Nones(k), {})
  {
  }

  /** `filtered.push(...vs)` */
  method Push(filtered: JsArray, vs: seq<Val>, ghost model: seq<Child>, ghost below: set<JsArray>,
              ghost more: seq<Child>, ghost moreBelow: set<JsArray>)
    requires ClosedVals(filtered.items, model, below) && filtered !in below
    requires ClosedVals(vs, more, moreBelow) && filtered !in moreBelow && below !! moreBelow
    modifies filtered`items
    ensures ClosedVals(filtered.items, model + more, below + moreBelow)
    ensures filtered.items == old(filtered.items) + vs
  {
    Join(filtered.items, model, below, vs, more, moreBelow);
    filtered.items := filtered.items + vs;
  }

  /** What the filter holds while it works: the list built so far, and the children it has not reached, apart from
      it. */
  ghost predicate Working(filtered: JsArray, model: seq<Child>, below: set<JsArray>,
                          rest: seq<Val>, restModel: seq<Child>, restBelow: set<JsArray>)
    reads filtered, below, restBelow
  {
    ClosedVals(filtered.items, model, below) && filtered !in below
    && ClosedVals(rest, restModel, restBelow) && filtered !in restBelow && below !! restBelow
  }

  /** One child and those after it, each over lists of its own. */
  lemma TakeChild(rest: seq<Val>, restModel: seq<Child>, restBelow: set<JsArray>, at: nat)
    requires ClosedVals(rest, restModel, restBelow) && at < |rest|
    ensures |rest| == |restModel|
    ensures ClosedVals([rest[at]], [restModel[at]], Foot([rest[at]])) && Foot([rest[at]]) <= restBelow
    ensures ClosedVals(rest[at + 1..], restModel[at + 1..], Foot(rest[at + 1..])) && Foot(rest[at + 1..]) <= restBelow
    ensures Foot([rest[at]]) !! Foot(rest[at + 1..])
  {
    Slice(rest, restModel, restBelow, at, at + 1);
    Slice(rest, restModel, restBelow, at + 1, |rest|);
    assert rest[at..at + 1] == [rest[at]] && restModel[at..at + 1] == [restModel[at]];
    assert rest[at + 1..|rest|] == rest[at + 1..] && restModel[at + 1..|rest|] == restModel[at + 1..];
    Narrow([rest[at]], [restModel[at]], restBelow);
    Narrow(rest[at + 1..], restModel[at + 1..], restBelow);
    StretchesApart(rest, restModel, restBelow, at + 1, at + 1);
    assert rest[at] in rest[..at + 1];
  }

  /** A tree's list is closed over the lists below it. */
  lemma OpenTree(v: Val, m: Child)
    requires v.VTree? && ClosedVals([v], [m], Foot([v]))
    ensures m == Sub(v.data, v.list.model) && v.list in Foot([v]) && Foot([v]) == v.list.repr
    ensures ClosedVals(v.list.items, v.list.model, v.list.repr - {v.list})
  {
    assert [v][0] == v && v in [v];
    assert v.list.Closed();
  }

  /** `filtered.push(...children[i].children)`, or the children's own list while there is nothing to keep. */
  method Expand(filtered: JsArray, child: Val, ghost kid: Child, ghost model: seq<Child>, ghost below: set<JsArray>)
    returns (filtered': JsArray, ghost below': set<JsArray>)
    requires ClosedVals(filtered.items, model, below) && filtered !in below
    requires child.VTree? && ClosedVals([child], [kid], Foot([child])) && filtered !in Foot([child])
    requires below !! Foot([child])
    modifies filtered`items
    ensures kid.Sub? && ClosedVals(filtered'.items, model + kid.kids, below') && filtered' !in below'
    ensures filtered' == filtered || filtered' == child.list
    ensures below' <= below + Foot([child])
  {
    OpenTree(child, kid);
    var list := child.list;
    if |filtered.items| > 0 {
      Push(filtered, list.items, model, below, list.model, list.repr - {list});
      filtered', below' := filtered, below + (list.repr - {list});
    } else {
      filtered', below' := list, list.repr - {list};
      assert model + list.model == list.model;
    }
  }

  /** One entry of `to_include`.  The first expanded child gives its own list to be filled further. */
  method FilterStep(filtered: JsArray, e: Include, child: Val, ghost model: seq<Child>, ghost below: set<JsArray>,
                    ghost rest: seq<Val>, ghost at: nat, ghost restModel: seq<Child>, ghost restBelow: set<JsArray>)
    returns (filtered': JsArray, ghost below': set<JsArray>, ghost restBelow': set<JsArray>)
    requires Working(filtered, model, below, rest, restModel, restBelow)
    requires at < |rest| && child == rest[at] && (e.expand ==> restModel[at].Sub?)
    modifies filtered`items
    ensures var picked := Nones(e.nones) + if e.expand then restModel[at].kids else [restModel[at]];
            Working(filtered', model + picked, below', rest[at + 1..], restModel[at + 1..], restBelow')
    ensures filtered' == filtered || filtered' in restBelow
    ensures below' <= below + restBelow && restBelow' <= restBelow
  {
    hide ClosedVals;
    hide Foot;
    TakeChild(rest, restModel, restBelow, at);
    restBelow' := Foot(rest[at + 1..]);
    AbsentsAreClosed(e.nones);
    Push(filtered, seq(e.nones, _ => VAbsent), model, below, Nones(e.nones), {});
    ghost var padded := model + Nones(e.nones);
    assert below + {} == below;
    if e.expand {
      KindOfVal(child, restModel[at]);
      OpenTree(child, restModel[at]);
      filtered', below' := Expand(filtered, child, restModel[at], padded, below);
      assert model + (Nones(e.nones) + restModel[at].kids) == padded + restModel[at].kids;
    } else {
      Push(filtered, [child], padded, below, [restModel[at]], Foot([child]));
      filtered', below' := filtered, below + Foot([child]);
      assert model + (Nones(e.nones) + [restModel[at]]) == padded + [restModel[at]];
    }
  }

  lemma KindOfVal(v: Val, m: Child)
    requires ClosedVals([v], [m], Foot([v]))
    ensures v.VTree? <==> m.Sub?
  {
    assert [v][0] == v;
  }

  /** What `to_include` still asks for begins at child `next`. */
  predicate From(inc: seq<Include>, k: nat, next: nat) {
    forall j :: k <= j < |inc| ==> next <= inc[j].index
  }

  /** `_ChildFilterLALR`: the list that the copying filter gives, made in the first expanded child's own list. */
  method FilterInPlace(inc: seq<Include>, trailing: nat, children: seq<Val>, ghost kids: seq<Child>,
                       ghost all: set<JsArray>)
    returns (filtered: JsArray)
    requires ClosedVals(children, kids, all) && Fits(inc, kids)
    modifies all
    ensures filtered.Closed() && filtered.model == Filtered(inc, kids) + Nones(trailing)
    ensures forall c :: c in filtered.repr ==> fresh(c) || c in all
  {
    hide ClosedVals;
    hide Foot;
    hide Filtered;
    filtered := new JsArray();
    NothingClosed(filtered.items);
    ghost var below: set<JsArray>, restBelow := {}, all;
    ghost var next: nat := 0;
    ClosedLengths(children, kids, all);
    var k := 0;
    assert children[0..] == children && kids[0..] == kids;
    FilteredNone(kids);
    while k < |inc|
      invariant k <= |inc| && next <= |children| == |kids|
      invariant From(inc, k, next)
      invariant Working(filtered, Filtered(inc[..k], kids), below, children[next..], kids[next..], restBelow)
      invariant fresh(filtered) || filtered in all
      invariant restBelow <= all && below <= all
    {
      var e := inc[k];
      ghost var at := e.index - next;
      FilteredStep(inc, kids, k);
      Later(children, next, e.index);
      Later(kids, next, e.index);
      filtered, below, restBelow :=
        FilterStep(filtered, e, children[e.index], Filtered(inc[..k], kids), below, children[next..], at, kids[next..],
                   restBelow);
      next := e.index + 1;
      k := k + 1;
    }
    assert inc[..k] == inc;
    Seal(filtered, trailing, Filtered(inc, kids), below);
  }

  /** The placeholders at the end. */
  method Seal(filtered: JsArray, trailing: nat, ghost model: seq<Child>, ghost below: set<JsArray>)
    requires ClosedVals(filtered.items, model, below) && filtered !in below
    modifies filtered
    ensures filtered.Closed() && filtered.model == model + Nones(trailing) && filtered.repr == {filtered} + below
  {
    AbsentsAreClosed(trailing);
    Push(filtered, seq(trailing, _ => VAbsent), model, below, Nones(trailing), {});
    filtered.model := model + Nones(trailing);
    filtered.repr := {filtered} + below;
    assert filtered.repr - {filtered} == below + {};
  }

  lemma Later<T>(s: seq<T>, next: nat, index: nat)
    requires next <= index < |s|
    ensures s[next..][index - next] == s[index] && s[next..][index - next + 1..] == s[index + 1..]
  {
  }

  lemma FilteredNone(kids: seq<Child>)
    ensures Filtered([], kids) == []
  {
  }

  lemma FitsPrefix(inc: seq<Include>, kids: seq<Child>, k: nat)
    requires k <= |inc| && Fits(inc, kids)
    ensures Fits(inc[..k], kids)
  {
  }

  lemma FilteredStep(inc: seq<Include>, kids: seq<Child>, k: nat)
    requires k < |inc| && Fits(inc, kids)
    ensures Fits(inc[..k], kids) && Fits(inc[..k + 1], kids)
    ensures inc[k].index < |kids| && (inc[k].expand ==> kids[inc[k].index].Sub?)
    ensures Filtered(inc[..k + 1], kids) == Filtered(inc[..k], kids) + Picked(inc[k], kids)
  {
    hide Fits;
    hide Filtered;
    hide Picked;
    FitsPrefix(inc, kids, k);
    FitsPrefix(inc, kids, k + 1);
    var more := inc[..k + 1];
    assert more[..k] == inc[..k] && more[k] == inc[k];
    FilteredLast(more, kids, k);
  }

  lemma FilteredLast(inc: seq<Include>, kids: seq<Child>, n: nat)
    requires |inc| == n + 1 && Fits(inc, kids) && Fits(inc[..n], kids)
    ensures inc[n].index < |kids| && (inc[n].expand ==> kids[inc[n].index].Sub?)
    ensures Filtered(inc, kids) == Filtered(inc[..n], kids) + Picked(inc[n], kids)
  {
    hide Picked;
  }

  lemma ClosedLengths(vs: seq<Val>, model: seq<Child>, below: set<JsArray>)
    requires ClosedVals(vs, model, below)
    ensures |vs| == |model|
  {
  }

  lemma NothingClosed(vs: seq<Val>)
    requires vs == []
    ensures ClosedVals(vs, [], {})
  {
  }

  // ----- the driver's value stack

  /** What a turn of the driver does to the value stack: push a token, or build a rule's tree from the last `size`
      values. */
  datatype Turn =
    | ShiftToken(typ: Name, text: string)
    | ReduceRule(data: Name, size: nat, inc: seq<Include>, trailing: nat, expand1: bool)

  predicate CanTurn(turn: Turn, stack: seq<Child>) {
    turn.ReduceRule? ==> turn.size <= |stack| && Fits(turn.inc, stack[|stack| - turn.size..])
  }

  /** The turn with the copying filter. */
  function TurnCopying(turn: Turn, stack: seq<Child>): seq<Child>
    requires CanTurn(turn, stack)
  {
    match turn
    case ShiftToken(typ, text) => stack + [Token(typ, text)]
    case ReduceRule(data, size, inc, trailing, expand1) =>
      var n := |stack| - size;
      stack[..n] + [Built(data, expand1, Filtered(inc, stack[n..]) + Nones(trailing))]
  }

  predicate CanRun(turns: seq<Turn>, stack: seq<Child>)
    decreases turns
  {
    turns == [] || (CanTurn(turns[0], stack) && CanRun(turns[1..], TurnCopying(turns[0], stack)))
  }

  function RunCopying(turns: seq<Turn>, stack: seq<Child>): seq<Child>
    requires CanRun(turns, stack)
    decreases turns
  {
    if turns == [] then stack else RunCopying(turns[1..], TurnCopying(turns[0], stack))
  }

  /** The value stack with lists reused in place.  Each value is used by one reduction only, so the lists of different
      values stay apart, and the stack always stands for what the copying filter would have built. */
  class ValueStack {
    var values: seq<Val>
    ghost var model: seq<Child>
    ghost var repr: set<JsArray>

    ghost predicate Valid()
      reads this, repr
    {
      ClosedVals(values, model, repr)
    }

    constructor ()
      ensures Valid() && model == [] && repr == {}
    {
      values, model, repr := [], [], {};
    }

    method Turn(turn: Turn)
      requires Valid() && CanTurn(turn, model)
      modifies this, repr
      ensures Valid() && fresh(repr - old(repr))
      ensures model == TurnCopying(turn, old(model))
    {
      match turn
      case ShiftToken(typ, text) =>
        TokenIsClosed(typ, text);
        Join(values, model, repr, [VToken(typ, text)], [Token(typ, text)], {});
        assert repr + {} == repr;
        values, model := values + [VToken(typ, text)], model + [Token(typ, text)];
      case ReduceRule(data, size, inc, trailing, expand1) =>
        Reduce(data, size, inc, trailing, expand1);
    }

    method Reduce(data: Name, size: nat, inc: seq<Include>, trailing: nat, expand1: bool)
      requires Valid() && CanTurn(ReduceRule(data, size, inc, trailing, expand1), model)
      modifies this, repr
      ensures Valid() && fresh(repr - old(repr))
      ensures model == TurnCopying(ReduceRule(data, size, inc, trailing, expand1), old(model))
    {
      hide ClosedVals;
      hide Foot;
      ClosedLengths(values, model, repr);
      ghost var n := |values| - size;
      ghost var lower, upper := Foot(values[..n]), Foot(values[n..]);
      SplitStack(values, model, repr, n);
      ghost var kept, args := model[..n], model[n..];
      var s := values[|values| - size..];
      values := values[..|values| - size];
      var filtered := FilterInPlace(inc, trailing, s, args, upper);
      assert ClosedVals(values, kept, lower);
      ghost var built := filtered.model;
      OpenList(filtered);
      var value := VTree(data, filtered);
      ListAsTree(data, filtered);
      ghost var foot := filtered.repr;
      if expand1 && |filtered.items| == 1 {
        OnlyItem(filtered);
        value, foot := filtered.items[0], filtered.repr - {filtered};
      }
      Join(values, kept, lower, [value], [Built(data, expand1, built)], foot);
      values := values + [value];
      model := kept + [Built(data, expand1, built)];
      repr := lower + foot;
    }

    /** Any run of the driver. */
    method Run(turns: seq<Turn>)
      requires Valid() && CanRun(turns, model)
      modifies this, repr
      ensures Valid() && fresh(repr - old(repr))
      ensures model == RunCopying(turns, old(model))
    {
      var i := 0;
      while i < |turns|
        invariant i <= |turns|
        invariant Valid() && fresh(repr - old(repr))
        invariant CanRun(turns[i..], model)
        invariant RunCopying(turns[i..], model) == RunCopying(turns, old(model))
      {
        assert turns[i..][0] == turns[i] && turns[i..][1..] == turns[i + 1..];
        Turn(turns[i]);
        i := i + 1;
      }
    }
  }

  lemma TokenIsClosed(typ: Name, text: string)
    ensures ClosedVals([VToken(typ, text)], [Token(typ, text)], {})
  {
  }

  lemma SplitStack(vs: seq<Val>, model: seq<Child>, below: set<JsArray>, n: nat)
    requires ClosedVals(vs, model, below) && n <= |vs|
    ensures |vs| == |model|
    ensures ClosedVals(vs[..n], model[..n], Foot(vs[..n])) && Foot(vs[..n]) <= below
    ensures ClosedVals(vs[n..], model[n..], Foot(vs[n..])) && Foot(vs[n..]) <= below
    ensures Foot(vs[..n]) !! Foot(vs[n..])
  {
    Slice(vs, model, below, 0, n);
    Slice(vs, model, below, n, |vs|);
    assert vs[0..n] == vs[..n] && model[0..n] == model[..n];
    assert vs[n..|vs|] == vs[n..] && model[n..|vs|] == model[n..];
    Narrow(vs[..n], model[..n], below);
    Narrow(vs[n..], model[n..], below);
    StretchesApart(vs, model, below, n, n);
  }

  lemma OpenList(a: JsArray)
    requires a.Closed()
    ensures ClosedVals(a.items, a.model, a.repr - {a}) && |a.items| == |a.model|
  {
  }

  lemma ListAsTree(data: Name, a: JsArray)
    requires a.Closed()
    ensures ClosedVals([VTree(data, a)], [Sub(data, a.model)], a.repr)
  {
  }

  lemma OnlyItem(a: JsArray)
    requires a.Closed() && |a.items| == 1
    ensures |a.model| == 1 && ClosedVals([a.items[0]], [a.model[0]], a.repr - {a})
  {
    assert a.items == [a.items[0]] && a.model == [a.model[0]];
  }

  // ----- single children

  /** What a reduction leaves on top: of a rule that expands a single child, that child if there is just one; else a
      tree of the rule's name over the list that was kept. */
  lemma ReductionLeaves(data: Name, size: nat, inc: seq<Include>, trailing: nat, expand1: bool, stack: seq<Child>)
    requires CanTurn(ReduceRule(data, size, inc, trailing, expand1), stack)
    ensures var after := TurnCopying(ReduceRule(data, size, inc, trailing, expand1), stack);
            var kept := Filtered(inc, stack[|stack| - size..]) + Nones(trailing);
            && |after| == |stack| - size + 1 && after[..|stack| - size] == stack[..|stack| - size]
            && (expand1 && |kept| == 1 ==> [after[|after| - 1]] == kept)
            && (!expand1 || |kept| != 1 ==> after[|after| - 1].Sub? && after[|after| - 1].data == data
                                            && after[|after| - 1].kids == kept)
  {
  }

  /** No tree of these names has just one child, here or further below. */
  predicate NoSingles(c: Child, names: set<Name>) {
    c.Sub? ==> (c.data in names ==> |c.kids| != 1) && forall i :: 0 <= i < |c.kids| ==> NoSingles(c.kids[i], names)
  }

  predicate AllNoSingles(cs: seq<Child>, names: set<Name>) {
    forall i :: 0 <= i < |cs| ==> NoSingles(cs[i], names)
  }

  /** Rules of these names all expand a single child. */
  predicate AllExpand(turns: seq<Turn>, names: set<Name>) {
    forall i :: 0 <= i < |turns| && turns[i].ReduceRule? && turns[i].data in names ==> turns[i].expand1
  }

  lemma {:induction false} FilteredNoSingles(inc: seq<Include>, kids: seq<Child>, names: set<Name>)
    requires Fits(inc, kids) && AllNoSingles(kids, names)
    ensures AllNoSingles(Filtered(inc, kids), names)
  {
    if inc != [] {
      var n := |inc| - 1;
      FilteredNoSingles(inc[..n], kids, names);
      PickedNoSingles(inc[n], kids, names);
    }
  }

  lemma PickedNoSingles(e: Include, kids: seq<Child>, names: set<Name>)
    requires e.index < |kids| && (e.expand ==> kids[e.index].Sub?) && AllNoSingles(kids, names)
    ensures AllNoSingles(Picked(e, kids), names)
  {
    assert NoSingles(kids[e.index], names);
  }

  lemma TurnNoSingles(turn: Turn, stack: seq<Child>, names: set<Name>)
    requires CanTurn(turn, stack) && AllNoSingles(stack, names) && AllExpand([turn], names)
    ensures AllNoSingles(TurnCopying(turn, stack), names)
  {
    hide Fits;
    hide Filtered;
    match turn
    case ShiftToken(_, _) =>
    case ReduceRule(data, size, inc, trailing, expand1) =>
      var args := stack[|stack| - size..];
      FilteredNoSingles(inc, args, names);
      var kept := Filtered(inc, args) + Nones(trailing);
      assert AllNoSingles(kept, names);
      assert [turn][0] == turn;
      assert NoSingles(Built(data, expand1, kept), names) by {
        if expand1 && |kept| == 1 { assert NoSingles(kept[0], names); }
      }
  }

  /** Over every run of the driver, no tree made by a rule that expands a single child has just one. */
  lemma {:induction false} RunNoSingles(turns: seq<Turn>, stack: seq<Child>, names: set<Name>)
    requires CanRun(turns, stack) && AllNoSingles(stack, names) && AllExpand(turns, names)
    ensures AllNoSingles(RunCopying(turns, stack), names)
    decreases turns
  {
    hide CanTurn;
    hide TurnCopying;
    hide NoSingles;
    if turns != [] {
      TurnNoSingles(turns[0], stack, names);
      RunNoSingles(turns[1..], TurnCopying(turns[0], stack), names);
    }
  }

  // ----- left-recursive lists

  const FIRST_ITEM: seq<Include> := [Include(0, false, 0)]
  const LIST_THEN_ITEM: seq<Include> := [Include(0, true, 0), Include(1, false, 0)]

  /** `_list: item` and then `_list: _list item`, n times over. */
  function ListOf(list: Name, items: seq<Child>): (c: Child)
    requires items != []
    ensures c.Sub?
  {
    if |items| == 1 then Built(list, false, Filtered(FIRST_ITEM, items))
    else
      var n := |items| - 1;
      Built(list, false, Filtered(LIST_THEN_ITEM, [ListOf(list, items[..n]), items[n]]))
  }

  lemma FirstItemFilters(item: Child)
    ensures Filtered(FIRST_ITEM, [item]) == [item]
  {
    assert FIRST_ITEM[..0] == [];
    assert Filtered(FIRST_ITEM[..0], [item]) == [];
  }

  lemma ListThenItemFilters(list: Name, before: seq<Child>, item: Child)
    ensures Filtered(LIST_THEN_ITEM, [Sub(list, before), item]) == before + [item]
  {
    var args := [Sub(list, before), item];
    assert LIST_THEN_ITEM[..1] == [Include(0, true, 0)];
    var one := [Include(0, true, 0)];
    assert one[..0] == [];
    assert Filtered(one[..0], args) == [];
    assert Filtered(one, args) == before;
  }

  /** The children of a left-recursive list are its items, flat and in source order. */
  lemma {:induction false} LeftRecursiveListIsFlat(list: Name, items: seq<Child>)
    requires items != []
    ensures ListOf(list, items) == Sub(list, items)
  {
    var n := |items| - 1;
    if n == 0 {
      FirstItemFilters(items[0]);
      assert items == [items[0]];
    } else {
      LeftRecursiveListIsFlat(list, items[..n]);
      ListThenItemFilters(list, items[..n], items[n]);
      assert items == items[..n] + [items[n]];
    }
  }
}
