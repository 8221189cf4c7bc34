/** Completeness of the shift/reduce driver: over a table closed under lookaheads, every derivation is found. */
module LalrComplete {
  import opened Lalr

  // ----- tables with lookaheads

  /** A rule, how much of it has been seen, and the name that may follow it. */
  datatype LookItem = LookItem(rule: Rule, dot: nat, ahead: Name)

  /** The name of the first token, or what follows. */
  function First(ts: seq<Token>, otherwise: Name): Name {
    if ts == [] then otherwise else ts[0].typ
  }

  /** No token is named like what a rule makes. */
  ghost predicate Terminal(ts: seq<Token>, rules: set<Rule>) {
    forall i, r :: 0 <= i < |ts| && r in rules ==> r.origin != ts[i].typ
  }

  /** Derivations of the names, down to terminals. */
  ghost predicate Derives(ts: seq<Tree>, names: seq<Name>, rules: set<Rule>) {
    |ts| == |names| && Terminal(YieldAll(ts), rules)
    && forall i :: 0 <= i < |ts| ==> Derivation(ts[i], rules) && Root(ts[i]) == names[i]
  }

  /** `b` can be the first name of what the names derive when `a` follows. */
  ghost predicate CanBegin(rules: set<Rule>, names: seq<Name>, a: Name, b: Name) {
    exists ts :: Derives(ts, names, rules) && First(YieldAll(ts), a) == b
  }

  /** `look` certifies the table: the items with lookaheads of each state, as the generator of an LALR table has
      them.  They are closed under the rules that can come next and what can begin after those; every item has a
      successor in the state its next name leads to; a complete item is reduced at its lookahead; the start state
      expects the start symbol and then the end; and the end state, in which the driver returns, reduces nothing at the
      end.  A generator leaves its row empty, unless the start symbol is used in rules. */
  ghost predicate CompleteTable<V>(p: Conf<V>, rules: set<Rule>, look: map<nat, set<LookItem>>) {
    && look.Keys == p.states.Keys
    && (forall r :: r in rules ==> END.typ !in r.expansion && r.origin != END.typ)
    && Expects(p, rules, look, p.startState, p.start, [], END.typ)
    && Edge(p, p.startState, p.start, p.endState)
    && (p.endState in p.states && END.typ in p.states[p.endState] ==> p.states[p.endState][END.typ].Shift?)
    && (forall s, it :: s in look && it in look[s] ==> CompleteItem(p, rules, look, s, it))
  }

  ghost predicate CompleteItem<V>(p: Conf<V>, rules: set<Rule>, look: map<nat, set<LookItem>>, s: nat, it: LookItem)
    requires s in p.states
  {
    && it.rule in rules && it.dot <= |it.rule.expansion|
    && if it.dot == |it.rule.expansion| then
         it.ahead in p.states[s] && p.states[s][it.ahead] == Reduce(it.rule)
       else
         var name := it.rule.expansion[it.dot];
         && Expects(p, rules, look, s, name, it.rule.expansion[it.dot + 1..], it.ahead)
         && name in p.states[s] && p.states[s][name].Shift?
         && p.states[s][name].state in look && Next(it) in look[p.states[s][name].state]
  }

  function Next(it: LookItem): LookItem {
    it.(dot := it.dot + 1)
  }

  /** In state `s` a `name` may begin that the names and then `ahead` follow. */
  ghost predicate Expects<V>(p: Conf<V>, rules: set<Rule>, look: map<nat, set<LookItem>>, s: nat, name: Name,
                             names: seq<Name>, ahead: Name) {
    forall r, b :: r in rules && r.origin == name && CanBegin(rules, names, ahead, b) ==>
      s in look && LookItem(r, 0, b) in look[s]
  }

  // ----- the driver, turn by turn

  /** Stacks and tokens still to come, an end token behind them; or the value; or anything else. */
  datatype Progress<+V> = Going(s: Stacks<V>, input: seq<Token>) | Done(value: V) | Stuck

  function Turn<V>(p: Conf<V>, s: Stacks<V>, input: seq<Token>): Progress<V> {
    var token := if input == [] then END else input[0];
    if s.states == [] || Last(s.states) !in p.states || token.typ !in p.states[Last(s.states)] then Stuck
    else
      match p.states[Last(s.states)][token.typ]
      case Shift(state) =>
        if input == [] then Stuck else Going(Stacks(s.states + [state], s.values + [p.onToken(token)]), input[1..])
      case Reduce(rule) =>
        var next := ReduceOnce(p, s, rule);
        if !next.Running? then Stuck
        else if input == [] && Last(next.s.states) == p.endState then Done(Last(next.s.values))
        else Going(next.s, input)
  }

  function Turns<V>(p: Conf<V>, s: Stacks<V>, input: seq<Token>, n: nat): Progress<V>
    decreases n
  {
    if n == 0 then Going(s, input)
    else
      match Turn(p, s, input)
      case Going(t, rest) => Turns(p, t, rest, n - 1)
      case Done(value) => Done(value)
      case Stuck => Stuck
  }

  lemma {:induction false} TurnsOn<V>(p: Conf<V>, s: Stacks<V>, input: seq<Token>, m: nat, t: Stacks<V>,
                                      rest: seq<Token>, n: nat)
    requires Turns(p, s, input, m) == Going(t, rest)
    ensures Turns(p, s, input, m + n) == Turns(p, t, rest, n)
    decreases m
  {
    hide Turn;
    if m > 0 {
      var next := Turn(p, s, input);
      TurnsOn(p, next.s, next.input, m - 1, t, rest, n);
    }
  }

  /** `parse_from_state` in the middle of feeding a token. */
  function ParseOn<V>(p: Conf<V>, s: Stacks<V>, input: seq<Token>, fuel: nat, left: nat): Fed<V> {
    if input == [] then Feed(p, s, END, true, left)
    else
      var fed := Feed(p, s, input[0], false, left);
      if fed.Shifted? then ParseFrom(p, fed.s, input[1..], fuel) else fed
  }

  /** Turns that end make the driver end: with their value, or without any. */
  lemma {:induction false} TurnsEnd<V>(p: Conf<V>, s: Stacks<V>, input: seq<Token>, n: nat, fuel: nat, left: nat)
    requires !Turns(p, s, input, n).Going? && n <= fuel && n <= left
    ensures var fed, end := ParseOn(p, s, input, fuel, left), Turns(p, s, input, n);
            && !fed.Running?
            && (end.Done? ==> fed.Returned? && fed.value == end.value)
            && (end.Stuck? ==> !fed.Returned?)
    decreases n
  {
    hide ReduceOnce;
    if n > 0 {
      var next := Turn(p, s, input);
      if next.Going? {
        if next.input == input {
          TurnsEnd(p, next.s, input, n - 1, fuel, left - 1);
        } else {
          TurnsEnd(p, next.s, next.input, n - 1, fuel, fuel);
        }
      }
    }
  }

  // ----- what the table says

  lemma ItemFacts<V>(p: Conf<V>, rules: set<Rule>, look: map<nat, set<LookItem>>, s: nat, it: LookItem)
    requires CompleteTable(p, rules, look) && s in look && it in look[s]
    ensures s in p.states && CompleteItem(p, rules, look, s, it)
  {
  }

  /** Derived tokens are never the end token. */
  predicate NoEnd(ts: seq<Token>) {
    forall i :: 0 <= i < |ts| ==> ts[i].typ != END.typ
  }

  ghost predicate EndFree(rules: set<Rule>) {
    forall r :: r in rules ==> END.typ !in r.expansion && r.origin != END.typ
  }

  lemma {:induction false} TreeHasNoEnd(t: Tree, rules: set<Rule>)
    requires EndFree(rules) && Derivation(t, rules) && Root(t) != END.typ
    ensures NoEnd(Yield(t))
    decreases t, 1
  {
    if t.Node? {
      assert forall i :: 0 <= i < |t.kids| ==>
          Root(t.kids[i]) == t.rule.expansion[i] && t.rule.expansion[i] in t.rule.expansion;
      ForestHasNoEnd(t.kids, rules);
    }
  }

  lemma {:induction false} ForestHasNoEnd(ts: seq<Tree>, rules: set<Rule>)
    requires EndFree(rules) && forall i :: 0 <= i < |ts| ==> Derivation(ts[i], rules) && Root(ts[i]) != END.typ
    ensures NoEnd(YieldAll(ts))
    decreases ts, 0
  {
    if ts != [] {
      TreeHasNoEnd(ts[0], rules);
      ForestHasNoEnd(ts[1..], rules);
    }
  }

  lemma FirstOfCat(a: seq<Token>, b: seq<Token>, otherwise: Name)
    ensures First(a + b, otherwise) == First(a, First(b, otherwise))
  {
  }

  // ----- nothing is left to be done in the end state

  /** Where only nothing can come before the end, the end is reduced at. */
  lemma {:induction false} EmptyReduces<V>(p: Conf<V>, rules: set<Rule>, look: map<nat, set<LookItem>>, s: nat,
                                           it: LookItem,
                                           ts: seq<Tree>)
    requires CompleteTable(p, rules, look) && s in look && it in look[s] && it.ahead == END.typ
    requires Derives(ts, it.rule.expansion[it.dot..], rules) && YieldAll(ts) == [] && it.dot <= |it.rule.expansion|
    ensures END.typ in p.states[s] && p.states[s][END.typ].Reduce?
    decreases ts
  {
    hide CompleteTable;
    ItemFacts(p, rules, look, s, it);
    if ts != [] {
      var t, rest := ts[0], ts[1..];
      var names := it.rule.expansion[it.dot..];
      assert Derivation(t, rules) && Root(t) == names[0];
      assert it.rule.expansion[it.dot + 1..] == names[1..];
      assert Derives(rest, names[1..], rules) by {
        assert forall i :: 0 <= i < |rest| ==> rest[i] == ts[i + 1] && names[1..][i] == names[i + 1];
      }
      assert First(YieldAll(rest), END.typ) == END.typ;
      assert CanBegin(rules, names[1..], END.typ, END.typ);
      assert t.Node?;
      var next := LookItem(t.rule, 0, END.typ);
      assert t.rule in rules && next in look[s];
      assert t.rule.expansion[0..] == t.rule.expansion;
      EmptyReduces(p, rules, look, s, next, t.kids);
    }
  }

  lemma NotInEndState<V>(p: Conf<V>, rules: set<Rule>, look: map<nat, set<LookItem>>, s: nat, it: LookItem)
    requires CompleteTable(p, rules, look) && s in look && it in look[s]
    requires it.dot <= |it.rule.expansion| && CanBegin(rules, it.rule.expansion[it.dot..], it.ahead, END.typ)
    ensures s != p.endState
  {
    ItemFacts(p, rules, look, s, it);
    var names := it.rule.expansion[it.dot..];
    var ts :| Derives(ts, names, rules) && First(YieldAll(ts), it.ahead) == END.typ;
    assert END.typ !in names by { assert forall n :: n in names ==> n in it.rule.expansion; }
    assert forall i :: 0 <= i < |ts| ==> Root(ts[i]) == names[i] && names[i] in names;
    ForestHasNoEnd(ts, rules);
    EmptyReduces(p, rules, look, s, it, ts);
  }

  // ----- a derivation is driven through

  function Push<V>(s: Stacks<V>, state: nat, value: V): Stacks<V> {
    Stacks(s.states + [state], s.values + [value])
  }

  /** The stacks with the states and values of children on them. */
  ghost predicate Above<V>(s: Stacks<V>, t: Stacks<V>, k: nat) {
    && s.states != [] && |s.values| + 1 == |s.states|
    && |t.states| == |s.states| + k && |t.values| == |s.values| + k
    && t.states[..|s.states|] == s.states && t.values[..|s.values|] == s.values
  }

  /** One reduction, of all children of a rule. */
  lemma ReduceAbove<V>(p: Conf<V>, s: Stacks<V>, t: Stacks<V>, rule: Rule, state: nat)
    requires Above(s, t, |rule.expansion|) && Edge(p, Last(s.states), rule.origin, state)
    ensures ReduceOnce(p, t, rule) == Running(Push(s, state, p.onRule(rule, t.values[|s.values|..])))
  {
    assert t.states[..|t.states| - |rule.expansion|] == s.states;
    assert t.values[..|t.values| - |rule.expansion|] == s.values;
  }

  lemma OneTurn<V>(p: Conf<V>, s: Stacks<V>, input: seq<Token>)
    ensures Turns(p, s, input, 1) == Turn(p, s, input)
  {
  }

  /** Where a name is expected, a tree of that name is driven through: its state and its value come onto the stacks. */
  lemma {:induction false} Drive<V>(p: Conf<V>, rules: set<Rule>, look: map<nat, set<LookItem>>, s: Stacks<V>, t: Tree,
                                    it: LookItem, rest: seq<Token>) returns (n: nat)
    requires CompleteTable(p, rules, look) && Derivation(t, rules) && Terminal(Yield(t), rules) && NoEnd(rest)
    requires s.states != [] && |s.values| + 1 == |s.states| && Last(s.states) in look && it in look[Last(s.states)]
    requires it.dot < |it.rule.expansion| && it.rule.expansion[it.dot] == Root(t)
    requires CanBegin(rules, it.rule.expansion[it.dot + 1..], it.ahead, First(rest, END.typ))
    ensures Last(s.states) in p.states && Root(t) in p.states[Last(s.states)]
    ensures p.states[Last(s.states)][Root(t)].Shift?
    ensures Turns(p, s, Yield(t) + rest, n)
            == Going(Push(s, p.states[Last(s.states)][Root(t)].state, Eval(p, t)), rest)
    decreases t, 1, 0
  {
    hide CompleteTable;
    hide ReduceOnce;
    hide Turns;
    var top := Last(s.states);
    ItemFacts(p, rules, look, top, it);
    var state := p.states[top][Root(t)].state;
    match t
    case Leaf(token) =>
      assert [token] + rest != [] && ([token] + rest)[0] == token && ([token] + rest)[1..] == rest;
      OneTurn(p, s, [token] + rest);
      n := 1;
    case Node(rule, kids) =>
      var e;
      n, e := DriveUnder(p, rules, look, s, t, rest);
      assert Next(it) in look[state];
      EndNotReached(p, rules, look, state, Next(it), rest);
      ReduceTurn(p, s, e, rule, state, rest, First(rest, END.typ));
      TurnsOn(p, s, Yield(t) + rest, n, e, rest, 1);
      OneTurn(p, e, rest);
      n := n + 1;
  }

  lemma EndNotReached<V>(p: Conf<V>, rules: set<Rule>, look: map<nat, set<LookItem>>, state: nat, it: LookItem,
                         rest: seq<Token>)
    requires CompleteTable(p, rules, look) && state in look && it in look[state] && it.dot <= |it.rule.expansion|
    requires CanBegin(rules, it.rule.expansion[it.dot..], it.ahead, First(rest, END.typ))
    ensures rest == [] ==> state != p.endState
  {
    if rest == [] {
      NotInEndState(p, rules, look, state, it);
    }
  }

  /** The turn after the last child. */
  lemma ReduceTurn<V>(p: Conf<V>, s: Stacks<V>, e: Stacks<V>, rule: Rule, state: nat, rest: seq<Token>, ahead: Name)
    requires Above(s, e, |rule.expansion|) && Edge(p, Last(s.states), rule.origin, state)
    requires ahead == First(rest, END.typ)
    requires Last(e.states) in p.states && ahead in p.states[Last(e.states)]
    requires p.states[Last(e.states)][ahead] == Reduce(rule)
    ensures var value := p.onRule(rule, e.values[|s.values|..]);
            Turn(p, e, rest)
            == if rest == [] && state == p.endState then Done(value) else Going(Push(s, state, value), rest)
  {
    ReduceAbove(p, s, e, rule, state);
    hide ReduceOnce;
    var next := Push(s, state, p.onRule(rule, e.values[|s.values|..]));
    assert Last(next.states) == state && Last(next.values) == p.onRule(rule, e.values[|s.values|..]);
  }

  /** The children of a rule that can begin here are driven through, up to its reduction. */
  lemma {:induction false} DriveUnder<V>(p: Conf<V>, rules: set<Rule>, look: map<nat, set<LookItem>>, s: Stacks<V>,
                                         t: Tree,
                                         rest: seq<Token>) returns (n: nat, e: Stacks<V>)
    requires CompleteTable(p, rules, look) && t.Node? && Derivation(t, rules) && NoEnd(rest)
    requires Terminal(Yield(t), rules)
    requires s.states != [] && |s.values| + 1 == |s.states| && Last(s.states) in look
    requires LookItem(t.rule, 0, First(rest, END.typ)) in look[Last(s.states)]
    ensures Turns(p, s, Yield(t) + rest, n) == Going(e, rest)
    ensures Above(s, e, |t.kids|) && |t.kids| == |t.rule.expansion| && e.values[|s.values|..] == EvalAll(p, t.kids)
    ensures Last(e.states) in p.states && First(rest, END.typ) in p.states[Last(e.states)]
    ensures p.states[Last(e.states)][First(rest, END.typ)] == Reduce(t.rule)
    decreases t, 0, |t.kids| + 1
  {
    hide CompleteTable;
    hide Turns;
    assert EvalAll(p, t.kids[..0]) == [];
    assert t.kids[0..] == t.kids && t.kids[..|t.kids|] == t.kids;
    n, e := DriveKids(p, rules, look, s, s, t, 0, |t.kids|, rest);
    assert YieldAll(t.kids[|t.kids|..]) + rest == rest;
    ItemFacts(p, rules, look, Last(e.states), LookItem(t.rule, |t.rule.expansion|, First(rest, END.typ)));
  }

  /** The states above the base are where the kids' names lead. */
  ghost predicate Along<V>(p: Conf<V>, base: seq<nat>, states: seq<nat>, kids: seq<Tree>, k: nat) {
    && base != [] && |states| == |base| + k && states[..|base|] == base && k <= |kids|
    && (forall m :: 0 <= m < k ==> Edge(p, states[|base| + m - 1], Root(kids[m]), states[|base| + m]))
  }

  lemma PushAlong<V>(p: Conf<V>, base: seq<nat>, states: seq<nat>, kids: seq<Tree>, k: nat, state: nat)
    requires Along(p, base, states, kids, k) && k < |kids| && Edge(p, Last(states), Root(kids[k]), state)
    ensures Along(p, base, states + [state], kids, k + 1)
  {
  }

  /** The children from `i` up to `to` are driven through. */
  lemma {:induction false} DriveKids<V>(p: Conf<V>, rules: set<Rule>, look: map<nat, set<LookItem>>, s0: Stacks<V>,
                                        s: Stacks<V>, t: Tree, i: nat, to: nat, rest: seq<Token>)
    returns (n: nat, e: Stacks<V>)
    requires CompleteTable(p, rules, look) && t.Node? && Derivation(t, rules) && NoEnd(rest)
    requires Terminal(YieldAll(t.kids), rules)
    requires i <= to <= |t.kids| && Above(s0, s, i) && s.values[|s0.values|..] == EvalAll(p, t.kids[..i])
    requires Along(p, s0.states, s.states, t.kids, i)
    requires Last(s.states) in look && LookItem(t.rule, i, First(rest, END.typ)) in look[Last(s.states)]
    ensures Turns(p, s, YieldAll(t.kids[i..]) + rest, n) == Going(e, YieldAll(t.kids[to..]) + rest)
    ensures Above(s0, e, to) && e.values[|s0.values|..] == EvalAll(p, t.kids[..to])
    ensures Along(p, s0.states, e.states, t.kids, to)
    ensures Last(e.states) in look && LookItem(t.rule, to, First(rest, END.typ)) in look[Last(e.states)]
    decreases t, 0, to - i
  {
    hide CompleteTable;
    hide Turns;
    hide YieldAll;
    hide Yield;
    hide EvalAll;
    hide Eval;
    hide Derivation;
    hide Above;
    hide Along;
    hide Terminal;
    var kids, ahead := t.kids, First(rest, END.typ);
    KidsFit(t, rules);
    if i == to {
      n, e := 0, s;
      NoTurns(p, s, YieldAll(kids[i..]) + rest);
    } else {
      var it, later := LookItem(t.rule, i, ahead), YieldAll(kids[i + 1..]) + rest;
      KidsCanBegin(t, rules, i + 1, ahead);
      KidIsTerminal(t.kids, i, rules);
      FirstOfCat(YieldAll(kids[i + 1..]), rest, END.typ);
      LaterHasNoEnd(p, rules, look, t, i + 1, rest);
      AboveHolds(s0, s, i);
      var k := Drive(p, rules, look, s, kids[i], it, later);
      ItemFacts(p, rules, look, Last(s.states), it);
      var state := p.states[Last(s.states)][Root(kids[i])].state;
      var next := Push(s, state, Eval(p, kids[i]));
      KidValues(p, kids, i);
      PushAbove(s0, s, i, state, Eval(p, kids[i]));
      PushAlong(p, s0.states, s.states, kids, i, state);
      n, e := DriveKids(p, rules, look, s0, next, t, i + 1, to, rest);
      KidYields(kids, i, rest);
      TurnsOn(p, s, Yield(kids[i]) + later, k, next, later, n);
      n := k + n;
    }
  }

  lemma NoTurns<V>(p: Conf<V>, s: Stacks<V>, input: seq<Token>)
    ensures Turns(p, s, input, 0) == Going(s, input)
  {
  }

  lemma KidsFit(t: Tree, rules: set<Rule>)
    requires t.Node? && Derivation(t, rules)
    ensures |t.kids| == |t.rule.expansion| && t.rule in rules
    ensures forall i :: 0 <= i < |t.kids| ==> Derivation(t.kids[i], rules) && Root(t.kids[i]) == t.rule.expansion[i]
  {
  }

  lemma AboveHolds<V>(s: Stacks<V>, t: Stacks<V>, k: nat)
    requires Above(s, t, k)
    ensures s.states != [] && t.states != [] && |t.values| + 1 == |t.states|
  {
  }

  lemma PushAbove<V>(s: Stacks<V>, t: Stacks<V>, k: nat, state: nat, value: V)
    requires Above(s, t, k)
    ensures Above(s, Push(t, state, value), k + 1)
    ensures |s.values| <= |t.values| && Push(t, state, value).values[|s.values|..] == t.values[|s.values|..] + [value]
  {
  }

  lemma KidYields(kids: seq<Tree>, i: nat, rest: seq<Token>)
    requires i < |kids|
    ensures YieldAll(kids[i..]) + rest == Yield(kids[i]) + (YieldAll(kids[i + 1..]) + rest)
  {
    assert kids[i..][1..] == kids[i + 1..];
    var a, b := Yield(kids[i]), YieldAll(kids[i + 1..]);
    assert a + b + rest == a + (b + rest);
  }

  lemma KidValues<V>(p: Conf<V>, kids: seq<Tree>, i: nat)
    requires i < |kids|
    ensures EvalAll(p, kids[..i + 1]) == EvalAll(p, kids[..i]) + [Eval(p, kids[i])]
  {
    assert kids[..i + 1] == kids[..i] + [kids[i]];
    EvalAppend(p, kids[..i], [kids[i]]);
    EvalOne(p, kids[i]);
  }

  /** The children still to come show that what they begin with can begin there. */
  lemma KidsCanBegin(t: Tree, rules: set<Rule>, i: nat, ahead: Name)
    requires t.Node? && Derivation(t, rules) && i <= |t.kids| && Terminal(YieldAll(t.kids), rules)
    ensures CanBegin(rules, t.rule.expansion[i..], ahead, First(YieldAll(t.kids[i..]), ahead))
  {
    YieldAppend(t.kids[..i], t.kids[i..]);
    assert t.kids == t.kids[..i] + t.kids[i..];
    TerminalParts(YieldAll(t.kids[..i]), YieldAll(t.kids[i..]), rules);
    assert Derives(t.kids[i..], t.rule.expansion[i..], rules);
  }

  lemma TerminalParts(a: seq<Token>, b: seq<Token>, rules: set<Rule>)
    ensures Terminal(a + b, rules) <==> Terminal(a, rules) && Terminal(b, rules)
  {
    var all := a + b;
    assert forall i :: 0 <= i < |a| ==> all[i] == a[i];
    assert forall i :: 0 <= i < |b| ==> all[|a| + i] == b[i];
    assert forall i :: |a| <= i < |all| ==> all[i] == b[i - |a|];
  }

  lemma KidIsTerminal(kids: seq<Tree>, i: nat, rules: set<Rule>)
    requires i < |kids| && Terminal(YieldAll(kids), rules)
    ensures Terminal(Yield(kids[i]), rules)
  {
    hide Terminal;
    hide Yield;
    hide YieldAll;
    YieldAppend(kids[..i], kids[i..]);
    assert kids == kids[..i] + kids[i..];
    TerminalParts(YieldAll(kids[..i]), YieldAll(kids[i..]), rules);
    YieldAppend([kids[i]], kids[i + 1..]);
    YieldOne(kids[i]);
    assert kids[i..] == [kids[i]] + kids[i + 1..];
    TerminalParts(Yield(kids[i]), YieldAll(kids[i + 1..]), rules);
  }

  lemma LaterHasNoEnd<V>(p: Conf<V>, rules: set<Rule>, look: map<nat, set<LookItem>>, t: Tree, i: nat, rest: seq<Token>)
    requires CompleteTable(p, rules, look) && t.Node? && Derivation(t, rules) && i <= |t.kids| && NoEnd(rest)
    ensures NoEnd(YieldAll(t.kids[i..]) + rest)
  {
    assert EndFree(rules);
    assert forall k :: 0 <= k < |t.kids| ==>
        Root(t.kids[k]) == t.rule.expansion[k] && t.rule.expansion[k] in t.rule.expansion;
    ForestHasNoEnd(t.kids[i..], rules);
  }

  // ----- completeness

  /** The start symbol is expected, and then the end. */
  lemma StartExpects<V>(p: Conf<V>, rules: set<Rule>, look: map<nat, set<LookItem>>, rule: Rule)
    requires CompleteTable(p, rules, look) && rule in rules && rule.origin == p.start
    ensures p.startState in look && LookItem(rule, 0, END.typ) in look[p.startState]
    ensures Edge(p, p.startState, p.start, p.endState)
  {
    assert Derives([], [], rules) && First(YieldAll([]), END.typ) == END.typ;
    assert CanBegin(rules, [], END.typ, END.typ);
  }

  lemma TurnsComplete<V>(p: Conf<V>, rules: set<Rule>, look: map<nat, set<LookItem>>, t: Tree) returns (n: nat)
    requires CompleteTable(p, rules, look) && t.Node? && Derivation(t, rules) && Root(t) == p.start
    requires Terminal(Yield(t), rules)
    ensures Turns(p, Stacks([p.startState], []), Yield(t), n) == Done(Eval(p, t))
  {
    hide CompleteTable;
    hide Turns;
    hide ReduceOnce;
    var s: Stacks<V> := Stacks([p.startState], []);
    KidsFit(t, rules);
    StartExpects(p, rules, look, t.rule);
    var e;
    n, e := DriveUnder(p, rules, look, s, t, []);
    assert Yield(t) + [] == Yield(t);
    ReduceTurn(p, s, e, t.rule, p.endState, [], END.typ);
    assert e.values[|s.values|..] == EvalAll(p, t.kids);
    TurnsOn(p, s, Yield(t), n, e, [], 1);
    OneTurn(p, e, []);
    n := n + 1;
  }

  /** Completeness of the parser: over a complete table, every derivation of the start symbol is found: with turns
      enough, parsing its frontier returns what the callbacks make of it. */
  lemma ParseComplete<V>(p: Conf<V>, rules: set<Rule>, look: map<nat, set<LookItem>>, t: Tree) returns (n: nat)
    requires CompleteTable(p, rules, look) && t.Node? && Derivation(t, rules) && Root(t) == p.start
    requires Terminal(Yield(t), rules)
    ensures forall fuel: nat :: n <= fuel ==>
              Parse(p, Yield(t), fuel).Returned? && Parse(p, Yield(t), fuel).value == Eval(p, t)
  {
    hide CompleteTable;
    hide Turns;
    n := TurnsComplete(p, rules, look, t);
    forall fuel: nat | n <= fuel
      ensures Parse(p, Yield(t), fuel).Returned? && Parse(p, Yield(t), fuel).value == Eval(p, t)
    {
      TurnsEnd(p, Stacks([p.startState], []), Yield(t), n, fuel, fuel);
      ParseIsParseOn(p, Yield(t), fuel);
    }
  }

  lemma ParseIsParseOn<V>(p: Conf<V>, tokens: seq<Token>, fuel: nat)
    ensures Parse(p, tokens, fuel) == ParseOn(p, Stacks([p.startState], []), tokens, fuel, fuel)
  {
  }

  /** Exactly the frontiers of derivations of the start symbol are accepted. */
  lemma AcceptedIffDerived<V>(p: Conf<V>, rules: set<Rule>, items: map<nat, set<Item>>, look: map<nat, set<LookItem>>,
                              tokens: seq<Token>)
    requires ValidTable(p, rules, items) && CompleteTable(p, rules, look) && Terminal(tokens, rules)
    ensures (exists fuel: nat :: Parse(p, tokens, fuel).Returned?)
            <==> exists t: Tree :: Derivation(t, rules) && t.Node? && Root(t) == p.start && Yield(t) == tokens
  {
    hide ValidTable;
    hide CompleteTable;
    hide Parse;
    if fuel: nat :| Parse(p, tokens, fuel).Returned? {
      ParseSound(p, rules, items, tokens, fuel);
    }
    if t: Tree :| Derivation(t, rules) && t.Node? && Root(t) == p.start && Yield(t) == tokens {
      var n := ParseComplete(p, rules, look, t);
      assert Parse(p, tokens, n).Returned?;
    }
  }

  // ----- one derivation

  /** The same table with callbacks that build the derivation itself. */
  function Building<V>(p: Conf<V>): Conf<Tree> {
    Conf(p.states, p.startState, p.endState, p.start, token => Leaf(token), (rule, kids) => Node(rule, kids))
  }

  lemma {:induction false} BuildsItself<V>(p: Conf<V>, t: Tree)
    ensures Eval(Building(p), t) == t
    decreases t, 1
  {
    if t.Node? {
      BuildAll(p, t.kids);
    }
  }

  lemma {:induction false} BuildAll<V>(p: Conf<V>, ts: seq<Tree>)
    ensures EvalAll(Building(p), ts) == ts
    decreases ts, 0
  {
    if ts != [] {
      BuildsItself(p, ts[0]);
      BuildAll(p, ts[1..]);
    }
  }

  lemma BuildingIsComplete<V>(p: Conf<V>, rules: set<Rule>, look: map<nat, set<LookItem>>)
    requires CompleteTable(p, rules, look)
    ensures CompleteTable(Building(p), rules, look)
  {
    var q := Building(p);
    hide CanBegin;
    forall s, it | s in look && it in look[s]
      ensures CompleteItem(q, rules, look, s, it)
    {
      assert CompleteItem(p, rules, look, s, it);
      if it.dot < |it.rule.expansion| {
        SameExpects(p, rules, look, s, it.rule.expansion[it.dot], it.rule.expansion[it.dot + 1..], it.ahead);
      }
    }
    SameExpects(p, rules, look, p.startState, p.start, [], END.typ);
  }

  lemma SameExpects<V>(p: Conf<V>, rules: set<Rule>, look: map<nat, set<LookItem>>, s: nat, name: Name,
                       names: seq<Name>,
                       ahead: Name)
    requires Expects(p, rules, look, s, name, names, ahead)
    ensures Expects(Building(p), rules, look, s, name, names, ahead)
  {
  }

  /** A grammar with a complete table is not ambiguous: tokens have one derivation at most. */
  lemma Unambiguous<V>(p: Conf<V>, rules: set<Rule>, look: map<nat, set<LookItem>>, t: Tree, u: Tree)
    requires CompleteTable(p, rules, look)
    requires t.Node? && Derivation(t, rules) && Root(t) == p.start
    requires u.Node? && Derivation(u, rules) && Root(u) == p.start
    requires Yield(t) == Yield(u) && Terminal(Yield(t), rules)
    ensures t == u
  {
    hide CompleteTable;
    hide Parse;
    var q := Building(p);
    BuildingIsComplete(p, rules, look);
    BuildsItself(p, t);
    BuildsItself(p, u);
    var m := ParseComplete(q, rules, look, t);
    var n := ParseComplete(q, rules, look, u);
    assert Parse(q, Yield(t), m + n).value == t;
    assert Parse(q, Yield(u), m + n).value == u;
  }

  // ----- a table of this kind

  const MORE := Rule("list", ["list", "item"], 0)
  const ONE := Rule("list", ["item"], 1)
  const LIST_RULES: set<Rule> := {MORE, ONE}

  /** The table of a left-recursive list. */
  function ListTable(): Conf<Tree> {
    Conf(
      map[0 := map["item" := Shift(2), "list" := Shift(1)],
          1 := map["item" := Shift(3)],
          2 := map["item" := Reduce(ONE), END.typ := Reduce(ONE)],
          3 := map["item" := Reduce(MORE), END.typ := Reduce(MORE)]],
      0, 1, "list", token => Leaf(token), (rule, kids) => Node(rule, kids))
  }

  const LIST_ITEMS: map<nat, set<Item>> :=
    map[0 := {(MORE, 0), (ONE, 0)}, 1 := {(MORE, 1)}, 2 := {(ONE, 1)}, 3 := {(MORE, 2)}]

  function Ahead(rule: Rule, dot: nat): set<LookItem> {
    {LookItem(rule, dot, "item"), LookItem(rule, dot, END.typ)}
  }

  function ListLook(): map<nat, set<LookItem>> {
    map[0 := Ahead(MORE, 0) + Ahead(ONE, 0), 1 := Ahead(MORE, 1), 2 := Ahead(ONE, 1), 3 := Ahead(MORE, 2)]
  }

  /** Only an item begins with an item. */
  lemma ItemBegins(names: seq<Name>, a: Name, b: Name)
    requires CanBegin(LIST_RULES, names, a, b) && (names == [] || names[0] == "item")
    ensures b == if names == [] then a else "item"
  {
    var ts: seq<Tree> :| Derives(ts, names, LIST_RULES) && First(YieldAll(ts), a) == b;
    if names != [] {
      assert Derivation(ts[0], LIST_RULES) && Root(ts[0]) == names[0];
      assert ts[0].Leaf?;
      assert Yield(ts[0])[0].typ == "item";
    }
  }

  /** The table of a left-recursive list is valid and complete. */
  lemma ListTableIsComplete()
    ensures ValidTable(ListTable(), LIST_RULES, LIST_ITEMS)
    ensures CompleteTable(ListTable(), LIST_RULES, ListLook())
  {
    hide ValidTable;
    hide Expects;
    hide CompleteItem;
    ListTableIsValid();
    ListStartExpects("list", [], END.typ);
    forall s, it | s in ListLook() && it in ListLook()[s]
      ensures CompleteItem(ListTable(), LIST_RULES, ListLook(), s, it)
    {
      ListItemIsComplete(s, it);
    }
  }

  lemma ListTableIsValid()
    ensures ValidTable(ListTable(), LIST_RULES, LIST_ITEMS)
  {
    hide ValidEntry;
    var p := ListTable();
    forall s, n | s in p.states && n in p.states[s]
      ensures ValidEntry(p, LIST_ITEMS, s, n)
    {
      ListEntryIsValid(s, n);
    }
  }

  lemma ListEntryIsValid(s: nat, n: Name)
    requires s in ListTable().states && n in ListTable().states[s]
    ensures ValidEntry(ListTable(), LIST_ITEMS, s, n)
  {
  }

  lemma ListStartExpects(name: Name, names: seq<Name>, a: Name)
    requires (names == [] || names[0] == "item") && (a == "item" || a == END.typ)
    ensures Expects(ListTable(), LIST_RULES, ListLook(), 0, name, names, a)
  {
    forall r, b | r in LIST_RULES && r.origin == name && CanBegin(LIST_RULES, names, a, b)
      ensures LookItem(r, 0, b) in ListLook()[0]
    {
      ItemBegins(names, a, b);
    }
  }

  lemma ListItemIsComplete(s: nat, it: LookItem)
    requires s in ListLook() && it in ListLook()[s]
    ensures CompleteItem(ListTable(), LIST_RULES, ListLook(), s, it)
  {
    if it.dot == 0 {
      ListStartExpects(it.rule.expansion[0], it.rule.expansion[1..], it.ahead);
    }
  }
}
