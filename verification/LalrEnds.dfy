/** Termination of the shift/reduce driver: over a generated table it stops on all tokens, derivable or not. */
module LalrEnds {
  import opened Lalr
  import opened LalrComplete

  // ----- generated tables

  /** The items without their lookaheads. */
  function Cores(look: map<nat, set<LookItem>>): map<nat, set<Item>> {
    map s | s in look :: set it | it in look[s] :: (it.rule, it.dot)
  }

  /** A valid table, closed under lookaheads, as a generator makes it for a grammar without unproductive names: an
      item with nothing seen is there because another item of the state, ranked before it, comes to its name next. */
  ghost predicate Generated<V>(p: Conf<V>, rules: set<Rule>, look: map<nat, set<LookItem>>, rank: (nat, Rule) -> nat) {
    && ValidTable(p, rules, Cores(look)) && CompleteTable(p, rules, look)
    && (forall s, it :: s in look && it in look[s] && it.dot == 0 ==> Justified(p, look, rank, s, it.rule))
    && (forall r, n :: r in rules && n in r.expansion ==> Productive(rules, n))
  }

  ghost predicate Justified<V>(p: Conf<V>, look: map<nat, set<LookItem>>, rank: (nat, Rule) -> nat, s: nat, r: Rule)
    requires s in look
  {
    (s == p.startState && r.origin == p.start) || exists it :: it in look[s] && Calls(it, rank, s, r)
  }

  /** The item comes to the rule's name next. */
  predicate Calls(it: LookItem, rank: (nat, Rule) -> nat, s: nat, r: Rule) {
    it.dot < |it.rule.expansion| && it.rule.expansion[it.dot] == r.origin
        && (it.dot == 0 ==> rank(s, it.rule) < rank(s, r))
  }

  ghost predicate Productive(rules: set<Rule>, n: Name) {
    exists t :: Derives([t], [n], rules)
  }

  /** Derivations of names, one for each. */
  lemma {:induction false} Fill(rules: set<Rule>, names: seq<Name>) returns (ts: seq<Tree>)
    requires forall n :: n in names ==> Productive(rules, n)
    ensures Derives(ts, names, rules)
  {
    if names == [] {
      ts := [];
    } else {
      assert names[0] in names;
      var t :| Derives([t], [names[0]], rules);
      var more := Fill(rules, names[1..]);
      ts := [t] + more;
      DerivesCons(t, names[0], more, names[1..], rules);
      assert [names[0]] + names[1..] == names;
    }
  }

  lemma DerivesCons(t: Tree, n: Name, ts: seq<Tree>, names: seq<Name>, rules: set<Rule>)
    requires Derives([t], [n], rules) && Derives(ts, names, rules)
    ensures Derives([t] + ts, [n] + names, rules)
  {
    YieldAppend([t], ts);
    TerminalParts(YieldAll([t]), YieldAll(ts), rules);
    assert [t][0] == t && [n][0] == n;
  }

  // ----- every stack is the beginning of a derivation

  lemma CoreIn(look: map<nat, set<LookItem>>, s: nat, it: LookItem)
    requires s in look && it in look[s]
    ensures s in Cores(look) && (it.rule, it.dot) in Cores(look)[s]
  {
  }

  lemma CoresKeys(look: map<nat, set<LookItem>>)
    ensures Cores(look).Keys == look.Keys
  {
  }

  lemma CoreOf(look: map<nat, set<LookItem>>, s: nat, rule: Rule, dot: nat) returns (it: LookItem)
    requires s in look && (rule, dot) in Cores(look)[s]
    ensures it in look[s] && it.rule == rule && it.dot == dot
  {
    it :| it in look[s] && (it.rule, it.dot) == (rule, dot);
  }

  lemma SplitYield(ts: seq<Tree>, h: nat, rules: set<Rule>)
    requires h <= |ts|
    ensures YieldAll(ts) == YieldAll(ts[..h]) + YieldAll(ts[h..])
    ensures Terminal(YieldAll(ts), rules) <==> Terminal(YieldAll(ts[..h]), rules) && Terminal(YieldAll(ts[h..]), rules)
  {
    hide Terminal;
    hide YieldAll;
    YieldAppend(ts[..h], ts[h..]);
    assert ts == ts[..h] + ts[h..];
    TerminalParts(YieldAll(ts[..h]), YieldAll(ts[h..]), rules);
  }

  /** The rule's children so far, from the stack. */
  ghost predicate Seen(trees: seq<Tree>, h: nat, rule: Rule, dot: nat) {
    dot <= h <= |trees| && dot <= |rule.expansion|
    && forall i :: 0 <= i < dot ==> Root(trees[h - dot + i]) == rule.expansion[i]
  }

  lemma SeenOnStack<V>(p: Conf<V>, rules: set<Rule>, look: map<nat, set<LookItem>>, rank: (nat, Rule) -> nat,
                       stack: seq<nat>, trees: seq<Tree>, h: nat, it: LookItem)
    requires Generated(p, rules, look, rank) && Path(p, stack, trees) && h <= |trees|
    requires stack[h] in look && it in look[stack[h]]
    ensures Seen(trees, h, it.rule, it.dot) && it.rule in rules
    ensures stack[h - it.dot] in look && (it.rule, 0) in Cores(look)[stack[h - it.dot]]
  {
    hide ValidTable;
    hide CompleteTable;
    hide Cores;
    hide Justified;
    hide Productive;
    CoreIn(look, stack[h], it);
    CoresKeys(look);
    ItemOnStack(p, rules, Cores(look), stack, trees, h, it.rule, it.dot);
    ItemIsOfRule(p, rules, Cores(look), stack[h], (it.rule, it.dot));
    forall i | 0 <= i < it.dot
      ensures Root(trees[h - it.dot + i]) == it.rule.expansion[i]
    {
      var j := h - it.dot + i;
      assert Root(trees[j]) == it.rule.expansion[j - (h - it.dot)];
    }
  }

  /** The node that the rule's children so far, a tree for its next name and derivations of the rest make. */
  function Around(trees: seq<Tree>, h: nat, rule: Rule, dot: nat, u: Tree, fill: seq<Tree>): Tree
    requires dot <= h <= |trees|
  {
    Node(rule, trees[h - dot..h] + ([u] + fill))
  }

  lemma AroundYields(rules: set<Rule>, trees: seq<Tree>, h: nat, rule: Rule, dot: nat, u: Tree, fill: seq<Tree>)
    requires dot <= h <= |trees|
    ensures var v := Around(trees, h, rule, dot, u, fill);
            && v.Node? && v.rule == rule && dot <= |v.kids|
            && v.kids[..dot] == trees[h - dot..h] && v.kids[dot..] == [u] + fill
            && YieldAll(v.kids[dot..]) == Yield(u) + YieldAll(fill)
            && YieldAll(trees[..h - dot]) + Yield(v) == YieldAll(trees[..h]) + (Yield(u) + YieldAll(fill))
  {
    var below, v := trees[h - dot..h], Around(trees, h, rule, dot, u, fill);
    assert v.kids[..dot] == below && v.kids[dot..] == [u] + fill;
    YieldAppend([u], fill);
    YieldOne(u);
    YieldAppend(below, [u] + fill);
    assert trees[..h] == trees[..h - dot] + below;
    YieldAppend(trees[..h - dot], below);
    assert Yield(v) == YieldAll(v.kids);
    hide YieldAll;
    hide Yield;
    var a, b, c := YieldAll(trees[..h - dot]), YieldAll(below), Yield(u) + YieldAll(fill);
    assert a + (b + c) == a + b + c;
  }

  lemma AroundDerives(rules: set<Rule>, trees: seq<Tree>, h: nat, rule: Rule, dot: nat, u: Tree, fill: seq<Tree>)
    requires AllDerive(trees, rules) && Terminal(YieldAll(trees), rules) && Seen(trees, h, rule, dot) && rule in rules
    requires dot < |rule.expansion| && rule.expansion[dot] == Root(u) && Derivation(u, rules)
    requires Terminal(Yield(u), rules)
    requires Derives(fill, rule.expansion[dot + 1..], rules)
    ensures var v := Around(trees, h, rule, dot, u, fill); Derivation(v, rules) && Terminal(Yield(v), rules)
  {
    hide YieldAll;
    hide Yield;
    hide Terminal;
    var v := Around(trees, h, rule, dot, u, fill);
    assert Derivation(v, rules) by {
      AroundFits(rules, trees, h, rule, dot, u, fill);
    }
    hide Derivation;
    SplitYield(trees, h, rules);
    AroundYields(rules, trees, h, rule, dot, u, fill);
    TerminalParts(Yield(u), YieldAll(fill), rules);
    TerminalParts(YieldAll(trees[..h]), Yield(u) + YieldAll(fill), rules);
    TerminalParts(YieldAll(trees[..h - dot]), Yield(v), rules);
  }

  lemma AroundFits(rules: set<Rule>, trees: seq<Tree>, h: nat, rule: Rule, dot: nat, u: Tree, fill: seq<Tree>)
    requires AllDerive(trees, rules) && Seen(trees, h, rule, dot) && rule in rules
    requires dot < |rule.expansion| && rule.expansion[dot] == Root(u) && Derivation(u, rules)
    requires Derives(fill, rule.expansion[dot + 1..], rules)
    ensures Derivation(Around(trees, h, rule, dot, u, fill), rules)
  {
    hide YieldAll;
    hide Yield;
    hide Terminal;
    hide Root;
    var all := trees[h - dot..h] + ([u] + fill);
    forall i | 0 <= i < |all|
      ensures Derivation(all[i], rules) && Root(all[i]) == rule.expansion[i]
    {
      AroundKid(rules, trees, h, rule, dot, u, fill, i);
    }
  }

  lemma AroundKid(rules: set<Rule>, trees: seq<Tree>, h: nat, rule: Rule, dot: nat, u: Tree, fill: seq<Tree>, i: nat)
    requires AllDerive(trees, rules) && Seen(trees, h, rule, dot) && i < dot + 1 + |fill|
    requires dot < |rule.expansion| && rule.expansion[dot] == Root(u) && Derivation(u, rules)
    requires Derives(fill, rule.expansion[dot + 1..], rules)
    ensures var all := trees[h - dot..h] + ([u] + fill);
            |all| == dot + 1 + |fill| == |rule.expansion|
            && Derivation(all[i], rules) && Root(all[i]) == rule.expansion[i]
  {
    hide YieldAll;
    hide Yield;
    hide Terminal;
    hide Derivation;
    hide Root;
    var all := trees[h - dot..h] + ([u] + fill);
    if i < dot {
      assert all[i] == trees[h - dot + i];
    } else if i > dot {
      assert all[i] == fill[i - dot - 1] && rule.expansion[dot + 1..][i - dot - 1] == rule.expansion[i];
    }
  }

  function Start<V>(p: Conf<V>): Stacks<V> {
    Stacks([p.startState], [])
  }

  function Below<V>(p: Conf<V>, stack: seq<nat>, trees: seq<Tree>, h: nat): Stacks<V>
    requires h <= |trees| && |stack| == |trees| + 1
  {
    Stacks(stack[..h + 1], EvalAll(p, trees[..h]))
  }

  /** The states that a path goes through are determined by its names. */
  lemma {:induction false} SamePath<V>(p: Conf<V>, stack: seq<nat>, trees: seq<Tree>, h: nat, h': nat, states: seq<nat>,
                                       kids: seq<Tree>)
    requires Path(p, stack, trees) && h' <= h <= |trees| && h - h' <= |kids| && kids[..h - h'] == trees[h'..h]
    requires Along(p, stack[..h' + 1], states, kids, h - h')
    ensures states == stack[..h + 1]
    decreases h
  {
    if h' < h {
      var k := h - h';
      var before := states[..|states| - 1];
      assert kids[..k - 1] == trees[h'..h - 1];
      SamePath(p, stack, trees, h - 1, h', before, kids);
      assert kids[k - 1] == kids[..k][k - 1] == trees[h - 1];
      assert Edge(p, stack[h - 1], Root(trees[h - 1]), stack[h]);
      assert Edge(p, states[h' + 1 + (k - 1) - 1], Root(kids[k - 1]), states[h' + 1 + (k - 1)]);
      assert states == before + [states[h]];
    }
  }

  /** What a generated table says, one part at a time. */
  lemma Facts<V>(p: Conf<V>, rules: set<Rule>, look: map<nat, set<LookItem>>, rank: (nat, Rule) -> nat)
    requires Generated(p, rules, look, rank)
    ensures ValidTable(p, rules, Cores(look)) && CompleteTable(p, rules, look)
    ensures forall s, it :: s in look && it in look[s] && it.dot == 0 ==> Justified(p, look, rank, s, it.rule)
    ensures forall r, n :: r in rules && n in r.expansion ==> Productive(rules, n)
  {
  }

  /** What stands around a node on the stack: a derivation of the start symbol, and the tokens in it behind the node. */
  ghost predicate Stands<V>(p: Conf<V>, rules: set<Rule>, look: map<nat, set<LookItem>>, stack: seq<nat>,
                            trees: seq<Tree>,
                            h: nat, u: Tree, n: nat, after: seq<Token>, d: Tree)
    requires h <= |trees| && |stack| == |trees| + 1
  {
    && d.Node? && Derivation(d, rules) && Root(d) == p.start && Terminal(Yield(d), rules)
    && Yield(d) == YieldAll(trees[..h]) + (Yield(u) + after)
    && u.Node? && stack[h] in look && LookItem(u.rule, 0, First(after, END.typ)) in look[stack[h]]
    && Turns(p, Start(p), Yield(d), n) == Going(Below(p, stack, trees, h), Yield(u) + after)
  }

  /** Who brought a rule to where it begins: the start, at the bottom, or an item on the stack below. */
  lemma Caller<V>(p: Conf<V>, rules: set<Rule>, look: map<nat, set<LookItem>>, rank: (nat, Rule) -> nat,
                  stack: seq<nat>, trees: seq<Tree>, h: nat, r: Rule) returns (bottom: bool, it: LookItem)
    requires Generated(p, rules, look, rank) && Path(p, stack, trees) && h <= |trees|
    requires stack[h] in look && (r, 0) in Cores(look)[stack[h]]
    ensures bottom ==> h == 0 && stack[h] == p.startState && r.origin == p.start
    ensures !bottom ==>
              && it.dot < |it.rule.expansion| && it.rule.expansion[it.dot] == r.origin
              && Seen(trees, h, it.rule, it.dot) && it.rule in rules
              && stack[h - it.dot] in look && (it.rule, 0) in Cores(look)[stack[h - it.dot]]
              && (it.dot == 0 ==> rank(stack[h], it.rule) < rank(stack[h], r))
              && (forall n :: n in it.rule.expansion[it.dot + 1..] ==> Productive(rules, n))
  {
    hide ValidTable;
    hide CompleteTable;
    hide Cores;
    hide Productive;
    PathLength(p, stack, trees);
    it := CoreOf(look, stack[h], r, 0);
    bottom := stack[h] == p.startState && r.origin == p.start;
    if bottom {
      StartIsBottom(p, rules, look, rank, stack, trees, h);
    } else {
      assert Justified(p, look, rank, stack[h], r);
      it :| it in look[stack[h]] && Calls(it, rank, stack[h], r);
      SeenOnStack(p, rules, look, rank, stack, trees, h, it);
      assert forall n :: n in it.rule.expansion[it.dot + 1..] ==> n in it.rule.expansion;
    }
  }

  /** Every node that can stand on the stack stands in a derivation of the start symbol, and parsing the derivation's
      frontier leads to where the node begins. */
  lemma {:induction false} Context<V>(p: Conf<V>, rules: set<Rule>, look: map<nat, set<LookItem>>,
                                      rank: (nat, Rule) -> nat, stack: seq<nat>, trees: seq<Tree>, h: nat, u: Tree)
    returns (n: nat, after: seq<Token>, d: Tree)
    requires Generated(p, rules, look, rank)
    requires Path(p, stack, trees) && AllDerive(trees, rules) && Terminal(YieldAll(trees), rules) && h <= |trees|
    requires u.Node? && Derivation(u, rules) && Terminal(Yield(u), rules)
    requires stack[h] in look && (u.rule, 0) in Cores(look)[stack[h]]
    ensures |stack| == |trees| + 1 && Stands(p, rules, look, stack, trees, h, u, n, after, d)
    decreases h, rank(stack[h], u.rule)
  {
    hide *;
    PathLength(p, stack, trees);
    Facts(p, rules, look, rank);
    var bottom, it := Caller(p, rules, look, rank, stack, trees, h, u.rule);
    if bottom {
      n, after, d := 0, [], u;
      StandsAtBottom(p, rules, look, stack, trees, u);
    } else {
      SeenBounds(trees, h, it.rule, it.dot);
      var fill := Fill(rules, it.rule.expansion[it.dot + 1..]);
      var v := Around(trees, h, it.rule, it.dot, u, fill);
      NodeRoot(u);
      AroundDerives(rules, trees, h, it.rule, it.dot, u, fill);
      AroundNode(trees, h, it.rule, it.dot, u, fill);
      var m, rest;
      m, rest, d := Context(p, rules, look, rank, stack, trees, h - it.dot, v);
      n := StandsWithin(p, rules, look, stack, trees, h, u, it, fill, v, m, rest, d);
      after := YieldAll(fill) + rest;
    }
  }

  lemma NodeRoot(u: Tree)
    requires u.Node?
    ensures Root(u) == u.rule.origin
  {
  }

  lemma SeenBounds(trees: seq<Tree>, h: nat, rule: Rule, dot: nat)
    requires Seen(trees, h, rule, dot)
    ensures dot <= h <= |trees|
  {
  }

  lemma AroundNode(trees: seq<Tree>, h: nat, rule: Rule, dot: nat, u: Tree, fill: seq<Tree>)
    requires dot <= h <= |trees|
    ensures Around(trees, h, rule, dot, u, fill).Node? && Around(trees, h, rule, dot, u, fill).rule == rule
  {
  }

  lemma PathLength<V>(p: Conf<V>, stack: seq<nat>, trees: seq<Tree>)
    requires Path(p, stack, trees)
    ensures |stack| == |trees| + 1 && stack[0] == p.startState
  {
  }

  lemma StartIsBottom<V>(p: Conf<V>, rules: set<Rule>, look: map<nat, set<LookItem>>, rank: (nat, Rule) -> nat,
                         stack: seq<nat>, trees: seq<Tree>, h: nat)
    requires Generated(p, rules, look, rank) && Path(p, stack, trees) && h <= |trees| && stack[h] == p.startState
    ensures h == 0
  {
    hide ValidTable;
    hide CompleteTable;
    Facts(p, rules, look, rank);
    if h > 0 {
      StartIsNeverReentered(p, rules, Cores(look), stack, trees, h);
    }
  }

  lemma StandsAtBottom<V>(p: Conf<V>, rules: set<Rule>, look: map<nat, set<LookItem>>, stack: seq<nat>,
                          trees: seq<Tree>,
                          u: Tree)
    requires CompleteTable(p, rules, look) && |stack| == |trees| + 1 && stack[0] == p.startState
    requires u.Node? && Derivation(u, rules) && Terminal(Yield(u), rules) && u.rule.origin == p.start
    ensures Stands(p, rules, look, stack, trees, 0, u, 0, [], u)
  {
    hide CompleteTable;
    KidsFit(u, rules);
    StartExpects(p, rules, look, u.rule);
    assert trees[..0] == [] && stack[..1] == [p.startState];
    assert Yield(u) + [] == Yield(u) && [] + Yield(u) == Yield(u);
  }

  /** From the node around to the node within it. */
  lemma StandsWithin<V>(p: Conf<V>, rules: set<Rule>, look: map<nat, set<LookItem>>, stack: seq<nat>, trees: seq<Tree>,
                        h: nat, u: Tree, it: LookItem, fill: seq<Tree>, v: Tree, m: nat, rest: seq<Token>, d: Tree)
    returns (n: nat)
    requires CompleteTable(p, rules, look) && Path(p, stack, trees) && h <= |trees| && |stack| == |trees| + 1
    requires stack[h] in look && u.Node? && Derivation(u, rules)
    requires it.dot <= h && it.dot < |it.rule.expansion| && it.rule.expansion[it.dot] == u.rule.origin
    requires Derives(fill, it.rule.expansion[it.dot + 1..], rules)
    requires v == Around(trees, h, it.rule, it.dot, u, fill) && Derivation(v, rules) && Terminal(Yield(v), rules)
    requires Stands(p, rules, look, stack, trees, h - it.dot, v, m, rest, d)
    ensures Stands(p, rules, look, stack, trees, h, u, n, YieldAll(fill) + rest, d)
  {
    hide CompleteTable;
    hide Derivation;
    hide Terminal;
    hide Turns;
    hide Yield;
    hide YieldAll;
    hide EvalAll;
    hide Path;
    hide Stands;
    hide Derives;
    hide Below;
    hide Around;
    hide Start;
    hide First;
    hide NoEnd;
    var h', after := h - it.dot, YieldAll(fill) + rest;
    StandsParts(p, rules, look, stack, trees, h', v, m, rest, d);
    YieldsWithin(rules, trees, h, it.rule, it.dot, u, fill, rest);
    RestHasNoEnd(p, rules, look, d, YieldAll(trees[..h']), Yield(v), rest);
    var k, e := Drives(p, rules, look, Below(p, stack, trees, h'), v, it.dot, rest, stack, trees, h);
    n := m + k;
    assert Turns(p, Start(p), Yield(d), n) == Going(Below(p, stack, trees, h), Yield(u) + after) by {
      TurnsOn(p, Start(p), Yield(d), m, Below(p, stack, trees, h'), Yield(v) + rest, k);
    }
    KidsFit(u, rules);
    NextIsExpected(p, rules, look, stack[h], it, u, fill, rest);
    MakeStands(p, rules, look, stack, trees, h, u, n, after, d);
  }

  lemma YieldsWithin(rules: set<Rule>, trees: seq<Tree>, h: nat, rule: Rule, dot: nat, u: Tree, fill: seq<Tree>,
                     rest: seq<Token>)
    requires dot <= h <= |trees|
    ensures var v, after := Around(trees, h, rule, dot, u, fill), YieldAll(fill) + rest;
            && v.Node? && v.rule == rule && dot <= |v.kids| && v.kids[..dot] == trees[h - dot..h]
            && YieldAll(v.kids[dot..]) + rest == Yield(u) + after
            && YieldAll(trees[..h - dot]) + (Yield(v) + rest) == YieldAll(trees[..h]) + (Yield(u) + after)
  {
    hide Yield;
    hide YieldAll;
    var v, after := Around(trees, h, rule, dot, u, fill), YieldAll(fill) + rest;
    AroundYields(rules, trees, h, rule, dot, u, fill);
    assert Yield(u) + YieldAll(fill) + rest == Yield(u) + after;
    AssociateYield(YieldAll(trees[..h - dot]), Yield(v), rest, YieldAll(trees[..h]), Yield(u), YieldAll(fill));
  }

  lemma StandsParts<V>(p: Conf<V>, rules: set<Rule>, look: map<nat, set<LookItem>>, stack: seq<nat>, trees: seq<Tree>,
                       h: nat, u: Tree, n: nat, after: seq<Token>, d: Tree)
    requires h <= |trees| && |stack| == |trees| + 1 && Stands(p, rules, look, stack, trees, h, u, n, after, d)
    ensures d.Node? && Derivation(d, rules) && Root(d) == p.start && Terminal(Yield(d), rules)
    ensures Yield(d) == YieldAll(trees[..h]) + (Yield(u) + after)
    ensures u.Node? && stack[h] in look && LookItem(u.rule, 0, First(after, END.typ)) in look[stack[h]]
    ensures Turns(p, Start(p), Yield(d), n) == Going(Below(p, stack, trees, h), Yield(u) + after)
  {
  }

  lemma MakeStands<V>(p: Conf<V>, rules: set<Rule>, look: map<nat, set<LookItem>>, stack: seq<nat>, trees: seq<Tree>,
                      h: nat, u: Tree, n: nat, after: seq<Token>, d: Tree)
    requires h <= |trees| && |stack| == |trees| + 1
    requires d.Node? && Derivation(d, rules) && Root(d) == p.start && Terminal(Yield(d), rules)
    requires Yield(d) == YieldAll(trees[..h]) + (Yield(u) + after)
    requires u.Node? && stack[h] in look && LookItem(u.rule, 0, First(after, END.typ)) in look[stack[h]]
    requires Turns(p, Start(p), Yield(d), n) == Going(Below(p, stack, trees, h), Yield(u) + after)
    ensures Stands(p, rules, look, stack, trees, h, u, n, after, d)
  {
  }

  lemma YieldOfNode(v: Tree)
    requires v.Node?
    ensures Yield(v) == YieldAll(v.kids)
  {
  }

  lemma AssociateYield(a: seq<Token>, v: seq<Token>, rest: seq<Token>, b: seq<Token>, u: seq<Token>, f: seq<Token>)
    requires a + v == b + (u + f)
    ensures a + (v + rest) == b + (u + (f + rest))
  {
    assert a + (v + rest) == a + v + rest;
    assert b + (u + (f + rest)) == b + (u + f) + rest;
  }

  lemma RestHasNoEnd<V>(p: Conf<V>, rules: set<Rule>, look: map<nat, set<LookItem>>, d: Tree, a: seq<Token>,
                        b: seq<Token>,
                        rest: seq<Token>)
    requires CompleteTable(p, rules, look) && d.Node? && Derivation(d, rules) && Yield(d) == a + (b + rest)
    ensures NoEnd(rest)
  {
    assert EndFree(rules);
    KidsFit(d, rules);
    TreeHasNoEnd(d, rules);
    var k := |a| + |b|;
    assert forall i :: 0 <= i < |rest| ==> rest[i] == (a + (b + rest))[k + i];
  }

  /** The children that are on the stack already are driven through, to the stack as it is. */
  lemma Drives<V>(p: Conf<V>, rules: set<Rule>, look: map<nat, set<LookItem>>, s: Stacks<V>, v: Tree, dot: nat,
                  rest: seq<Token>, stack: seq<nat>, trees: seq<Tree>, h: nat) returns (k: nat, e: Stacks<V>)
    requires CompleteTable(p, rules, look) && Path(p, stack, trees) && |stack| == |trees| + 1
    requires v.Node? && Derivation(v, rules) && Terminal(Yield(v), rules) && NoEnd(rest)
    requires dot <= h <= |trees| && dot <= |v.kids| && v.kids[..dot] == trees[h - dot..h]
    requires s == Below(p, stack, trees, h - dot)
    requires stack[h - dot] in look && LookItem(v.rule, 0, First(rest, END.typ)) in look[stack[h - dot]]
    ensures e == Below(p, stack, trees, h)
    ensures Turns(p, s, Yield(v) + rest, k) == Going(e, YieldAll(v.kids[dot..]) + rest)
    ensures stack[h] in look && LookItem(v.rule, dot, First(rest, END.typ)) in look[stack[h]]
  {
    hide CompleteTable;
    hide Turns;
    hide Derivation;
    hide Terminal;
    hide YieldAll;
    hide EvalAll;
    YieldOfNode(v);
    NoKids(p, s, v);
    k, e := DriveKids(p, rules, look, s, s, v, 0, dot, rest);
    hide Path;
    SamePath(p, stack, trees, h, h - dot, e.states, v.kids);
    ValuesUpTo(p, trees, h, dot, e.values);
  }

  /** The values below and those of the children are the values up to there. */
  lemma ValuesUpTo<V>(p: Conf<V>, trees: seq<Tree>, h: nat, dot: nat, values: seq<V>)
    requires dot <= h <= |trees|
    requires var below := EvalAll(p, trees[..h - dot]);
             |below| <= |values| && values[..|below|] == below && values[|below|..] == EvalAll(p, trees[h - dot..h])
    ensures values == EvalAll(p, trees[..h])
  {
    hide EvalAll;
    assert trees[..h] == trees[..h - dot] + trees[h - dot..h];
    EvalAppend(p, trees[..h - dot], trees[h - dot..h]);
    var below := EvalAll(p, trees[..h - dot]);
    assert values == values[..|below|] + values[|below|..];
  }

  lemma NoKids<V>(p: Conf<V>, s: Stacks<V>, v: Tree)
    requires v.Node? && s.states != [] && |s.values| + 1 == |s.states|
    ensures v.kids[0..] == v.kids && EvalAll(p, v.kids[..0]) == [] && s.values[|s.values|..] == []
    ensures Above(s, s, 0) && Along(p, s.states, s.states, v.kids, 0)
  {
  }

  lemma NextIsExpected<V>(p: Conf<V>, rules: set<Rule>, look: map<nat, set<LookItem>>, s: nat, it: LookItem, u: Tree,
                          fill: seq<Tree>, rest: seq<Token>)
    requires CompleteTable(p, rules, look) && s in look && LookItem(it.rule, it.dot, First(rest, END.typ)) in look[s]
    requires it.dot < |it.rule.expansion| && u.Node? && u.rule in rules && it.rule.expansion[it.dot] == u.rule.origin
    requires Derives(fill, it.rule.expansion[it.dot + 1..], rules)
    ensures LookItem(u.rule, 0, First(YieldAll(fill) + rest, END.typ)) in look[s]
  {
    hide CompleteTable;
    var b := First(rest, END.typ);
    ItemFacts(p, rules, look, s, LookItem(it.rule, it.dot, b));
    FirstOfCat(YieldAll(fill), rest, END.typ);
    assert CanBegin(rules, it.rule.expansion[it.dot + 1..], b, First(YieldAll(fill), b));
  }

  // ----- only so many reductions before a token

  /** The token of a name, and nothing for the end. */
  function Input(name: Name): seq<Token> {
    if name == END.typ then [] else [Token(name, "")]
  }

  ghost predicate Reducing<V>(p: Conf<V>, s: Stacks<V>, input: seq<Token>, m: nat) {
    var t := Turns(p, s, input, m);
    t.Going? && t.input == input
  }

  lemma TurnShortens<V>(p: Conf<V>, s: Stacks<V>, input: seq<Token>)
    ensures var t := Turn(p, s, input);
            t.Going? ==> t.input == input || (input != [] && t.input == input[1..])
  {
    hide ReduceOnce;
  }

  lemma {:induction false} TurnsShorten<V>(p: Conf<V>, s: Stacks<V>, input: seq<Token>, m: nat)
    ensures var t := Turns(p, s, input, m); t.Going? ==> |t.input| <= |input|
    decreases m
  {
    hide Turn;
    if m > 0 {
      TurnShortens(p, s, input);
      var t := Turn(p, s, input);
      if t.Going? {
        TurnsShorten(p, t.s, t.input, m - 1);
      }
    }
  }

  /** The first of many reductions. */
  lemma ReducingFirst<V>(p: Conf<V>, s: Stacks<V>, input: seq<Token>, m: nat)
    requires m > 0 && Reducing(p, s, input, m)
    ensures Turn(p, s, input).Going? && Turn(p, s, input).input == input
    ensures Reducing(p, Turn(p, s, input).s, input, m - 1)
    ensures Turns(p, s, input, m) == Turns(p, Turn(p, s, input).s, input, m - 1)
  {
    hide Turn;
    TurnShortens(p, s, input);
    var t := Turn(p, s, input);
    TurnsShorten(p, t.s, t.input, m - 1);
  }

  lemma {:induction false} ReducingLess<V>(p: Conf<V>, s: Stacks<V>, input: seq<Token>, m: nat, k: nat)
    requires Reducing(p, s, input, m) && k <= m
    ensures Reducing(p, s, input, k)
    decreases m
  {
    hide Turn;
    if k > 0 {
      ReducingFirst(p, s, input, m);
      ReducingLess(p, Turn(p, s, input).s, input, m - 1, k - 1);
    }
  }

  /** Reductions depend on the next name alone. */
  lemma {:induction false} SameAhead<V>(p: Conf<V>, s: Stacks<V>, a: seq<Token>, b: seq<Token>, m: nat)
    requires NoEnd(a) && NoEnd(b) && First(a, END.typ) == First(b, END.typ) && Reducing(p, s, a, m)
    ensures Reducing(p, s, b, m) && Turns(p, s, b, m).s == Turns(p, s, a, m).s
    decreases m
  {
    hide Turn;
    if m > 0 {
      ReducingFirst(p, s, a, m);
      SameTurn(p, s, a, b);
      SameAhead(p, Turn(p, s, a).s, a, b, m - 1);
    }
  }

  lemma SameTurn<V>(p: Conf<V>, s: Stacks<V>, a: seq<Token>, b: seq<Token>)
    requires NoEnd(a) && NoEnd(b) && First(a, END.typ) == First(b, END.typ)
    requires Turn(p, s, a).Going? && Turn(p, s, a).input == a
    ensures Turn(p, s, b) == Going(Turn(p, s, a).s, b)
  {
    hide ReduceOnce;
    assert a == [] <==> b == [];
  }

  // ----- nodes on the stack

  function Size(t: Tree): nat
    decreases t, 1
  {
    match t
    case Leaf(_) => 0
    case Node(_, kids) => 1 + SizeAll(kids)
  }

  function SizeAll(ts: seq<Tree>): nat
    decreases ts, 0
  {
    if ts == [] then 0 else Size(ts[0]) + SizeAll(ts[1..])
  }

  lemma {:induction false} SizeCat(a: seq<Tree>, b: seq<Tree>)
    ensures SizeAll(a + b) == SizeAll(a) + SizeAll(b)
  {
    if a == [] {
      assert a + b == b;
    } else {
      assert (a + b)[1..] == a[1..] + b;
      SizeCat(a[1..], b);
    }
  }

  lemma FoldedSize(trees: seq<Tree>, rule: Rule)
    requires |rule.expansion| <= |trees|
    ensures SizeAll(Folded(trees, rule)) == SizeAll(trees) + 1
  {
    var n := |trees| - |rule.expansion|;
    var node := Node(rule, trees[n..]);
    SizeCat(trees[..n], trees[n..]);
    SizeCat(trees[..n], [node]);
    assert SizeAll([node]) == Size(node) + SizeAll([]);
    assert trees == trees[..n] + trees[n..];
  }

  /** The callbacks build the derivation itself. */
  ghost predicate Builds(q: Conf<Tree>) {
    forall ts :: EvalAll(q, ts) == ts
  }

  /** The stacks spell the trees that are on them, for the tokens. */
  ghost predicate Holds(q: Conf<Tree>, rules: set<Rule>, s: Stacks<Tree>, y: seq<Token>) {
    Spells(q, rules, s, s.values) && YieldAll(s.values) == y
  }

  /** A turn that keeps the tokens is a reduction, of a complete item. */
  lemma OneReduction(q: Conf<Tree>, rules: set<Rule>, items: map<nat, set<Item>>, s: Stacks<Tree>, y: seq<Token>,
                     input: seq<Token>) returns (rule: Rule)
    requires Builds(q) && ValidTable(q, rules, items) && Holds(q, rules, s, y)
    requires Turn(q, s, input).Going? && Turn(q, s, input).input == input
    ensures var t := Turn(q, s, input).s; Holds(q, rules, t, y) && SizeAll(t.values) == SizeAll(s.values) + 1
    ensures s.states != [] && Last(s.states) in items && (rule, |rule.expansion|) in items[Last(s.states)]
  {
    hide ValidTable;
    hide Spells;
    hide ReduceOnce;
    hide Folded;
    hide YieldAll;
    var token := if input == [] then END else input[0];
    StacksOfSpelling(q, rules, s, s.values);
    TopIsValid(q, rules, items, s.states, s.values, token.typ);
    rule := q.states[Last(s.states)][token.typ].rule;
    ReduceKeeps(q, rules, items, s, s.values, rule);
    FoldKeepsYield(s.values, rule);
    FoldedSize(s.values, rule);
    SpelledValues(q, rules, ReduceOnce(q, s, rule).s, Folded(s.values, rule));
  }

  lemma SpelledValues(q: Conf<Tree>, rules: set<Rule>, s: Stacks<Tree>, trees: seq<Tree>)
    requires Builds(q) && Spells(q, rules, s, trees)
    ensures s.values == trees
  {
  }

  lemma {:induction false} Reductions(q: Conf<Tree>, rules: set<Rule>, items: map<nat, set<Item>>, s: Stacks<Tree>,
                                      y: seq<Token>, input: seq<Token>, m: nat)
    requires Builds(q) && ValidTable(q, rules, items) && Holds(q, rules, s, y) && Reducing(q, s, input, m)
    ensures var t := Turns(q, s, input, m).s; Holds(q, rules, t, y) && SizeAll(t.values) == SizeAll(s.values) + m
    decreases m
  {
    hide Builds;
    hide ValidTable;
    hide Holds;
    hide Turn;
    hide SizeAll;
    if m > 0 {
      ReducingFirst(q, s, input, m);
      var rule := OneReduction(q, rules, items, s, y, input);
      Reductions(q, rules, items, Turn(q, s, input).s, y, input, m - 1);
    }
  }

  // ----- what could follow

  function Aheads(look: map<nat, set<LookItem>>): set<Name> {
    set s, it | s in look && it in look[s] :: it.ahead
  }

  /** Where a complete item is on top, some tokens could follow: the driver comes by here with them, and stops. */
  lemma Follows(q: Conf<Tree>, rules: set<Rule>, look: map<nat, set<LookItem>>, rank: (nat, Rule) -> nat,
                t: Stacks<Tree>,
                y: seq<Token>, rule: Rule) returns (after: seq<Token>, n: nat, end: nat)
    requires Generated(q, rules, look, rank) && Builds(q) && Holds(q, rules, t, y) && Terminal(y, rules)
    requires t.states != [] && Last(t.states) in look && (rule, |rule.expansion|) in Cores(look)[Last(t.states)]
    ensures NoEnd(after) && First(after, END.typ) in Aheads(look)
    ensures Turns(q, Start(q), y + after, n) == Going(t, after)
    ensures Turns(q, Start(q), y + after, end).Done?
  {
    hide Generated;
    hide ValidTable;
    hide CompleteTable;
    hide Cores;
    hide Productive;
    hide Stands;
    hide Derivation;
    hide Terminal;
    hide Turns;
    hide Yield;
    hide YieldAll;
    hide Seen;
    hide NoEnd;
    hide Builds;
    hide Path;
    hide AllDerive;
    hide EvalAll;
    hide Below;
    hide First;
    hide Aheads;
    Facts(q, rules, look, rank);
    var stack, trees := t.states, t.values;
    StacksOfSpelling(q, rules, t, trees);
    var top := |trees|;
    var it := CoreOf(look, stack[top], rule, |rule.expansion|);
    SeenOnStack(q, rules, look, rank, stack, trees, top, it);
    var h, u := NodeOnTop(rules, trees, rule);
    var m, d;
    m, after, d := Context(q, rules, look, rank, stack, trees, h, u);
    StandsParts(q, rules, look, stack, trees, h, u, m, after, d);
    RestHasNoEnd(q, rules, look, d, YieldAll(trees[..h]), Yield(u), after);
    var k, e := Drives(q, rules, look, Below(q, stack, trees, h), u, |u.kids|, after, stack, trees, top);
    TurnsOn(q, Start(q), Yield(d), m, Below(q, stack, trees, h), Yield(u) + after, k);
    n := m + k;
    AllOnStack(q, stack, trees, u, after);
    assert Yield(d)
        == y + after by { assert YieldAll(trees[..h]) + (Yield(u) + after) == YieldAll(trees[..h]) + Yield(u) + after; }
    AheadIn(look, stack[h], LookItem(u.rule, 0, First(after, END.typ)));
    end := TurnsComplete(q, rules, look, d);
  }

  lemma AheadIn(look: map<nat, set<LookItem>>, s: nat, it: LookItem)
    requires s in look && it in look[s]
    ensures it.ahead in Aheads(look)
  {
  }

  /** The node that reducing the top of the stack makes. */
  lemma NodeOnTop(rules: set<Rule>, trees: seq<Tree>, rule: Rule) returns (h: nat, u: Tree)
    requires Seen(trees, |trees|, rule, |rule.expansion|) && rule in rules && AllDerive(trees, rules)
    requires Terminal(YieldAll(trees), rules)
    ensures h + |rule.expansion| == |trees| && u == Node(rule, trees[h..]) && |u.kids| == |rule.expansion|
    ensures Derivation(u, rules) && Terminal(Yield(u), rules) && YieldAll(trees[..h]) + Yield(u) == YieldAll(trees)
    ensures u.kids[..|u.kids|] == trees[|trees| - |u.kids|..|trees|]
  {
    h := |trees| - |rule.expansion|;
    u := Node(rule, trees[h..]);
    SplitYield(trees, h, rules);
    forall i | 0 <= i < |u.kids|
      ensures Derivation(u.kids[i], rules) && Root(u.kids[i]) == rule.expansion[i]
    {
      assert u.kids[i] == trees[h + i];
    }
  }

  lemma AllOnStack(q: Conf<Tree>, stack: seq<nat>, trees: seq<Tree>, u: Tree, after: seq<Token>)
    requires Builds(q) && |stack| == |trees| + 1 && u.Node?
    ensures Below(q, stack, trees, |trees|) == Stacks(stack, trees)
    ensures YieldAll(u.kids[|u.kids|..]) + after == after
  {
    assert stack[..|trees| + 1] == stack && trees[..|trees|] == trees;
    assert [] + after == after;
  }

  // ----- reductions end

  /** From here, only so many reductions are made in front of the name. */
  ghost predicate Stops(q: Conf<Tree>, s: Stacks<Tree>, c: Name) {
    exists m :: !Reducing(q, s, Input(c), m)
  }

  /** One bound for all names before which reductions stop. */
  lemma {:induction false} CommonBound(q: Conf<Tree>, s: Stacks<Tree>, names: set<Name>) returns (b: nat)
    ensures forall c :: c in names && Stops(q, s, c) ==> !Reducing(q, s, Input(c), b)
    decreases |names|
  {
    hide Reducing;
    if names == {} {
      b := 0;
    } else {
      var c :| c in names;
      var rest := CommonBound(q, s, names - {c});
      var own: nat := 0;
      if Stops(q, s, c) {
        own :| !Reducing(q, s, Input(c), own);
      }
      b := rest + own;
      forall d | d in names && Stops(q, s, d)
        ensures !Reducing(q, s, Input(d), b)
      {
        if Reducing(q, s, Input(d), b) {
          ReducingLess(q, s, Input(d), b, if d == c then own else rest);
        }
      }
    }
  }

  /** The driver comes to these stacks with these tokens consumed, whatever follows. */
  ghost predicate Arrived(q: Conf<Tree>, y: seq<Token>, s: Stacks<Tree>, n: nat) {
    forall rest :: NoEnd(rest) ==> Turns(q, Start(q), y + rest, n) == Going(s, rest)
  }

  lemma {:induction false} DoneStays<V>(p: Conf<V>, s: Stacks<V>, input: seq<Token>, n: nat, m: nat)
    requires Turns(p, s, input, n).Done? && n <= m
    ensures Turns(p, s, input, m).Done?
    decreases n
  {
    hide Turn;
    if n > 0 {
      var t := Turn(p, s, input);
      if t.Going? {
        DoneStays(p, t.s, t.input, n - 1, m - 1);
      }
    }
  }

  /** Two stacks that the same run comes by with the same tokens left are as many reductions apart as they differ in
      nodes. */
  lemma Between(q: Conf<Tree>, rules: set<Rule>, items: map<nat, set<Item>>, y: seq<Token>, s: Stacks<Tree>, n0: nat,
                t: Stacks<Tree>, n: nat, after: seq<Token>, m: nat)
    requires Builds(q) && ValidTable(q, rules, items) && Holds(q, rules, s, y) && Holds(q, rules, t, y)
    requires SizeAll(t.values) == SizeAll(s.values) + m
    requires Turns(q, Start(q), y + after, n0) == Going(s, after) && Turns(q, Start(q), y + after, n) == Going(t, after)
    ensures Reducing(q, s, after, m)
  {
    hide ValidTable;
    hide Builds;
    hide Holds;
    hide Turns;
    hide SizeAll;
    if n >= n0 {
      TurnsOn(q, Start(q), y + after, n0, s, after, n - n0);
      Reductions(q, rules, items, s, y, after, n - n0);
    } else {
      TurnsOn(q, Start(q), y + after, n, t, after, n0 - n);
      Reductions(q, rules, items, t, y, after, n0 - n);
    }
  }

  /** As many reductions as are made in front of some token are made in front of a name that could follow, and in
      front of that one they stop. */
  lemma OtherName(q: Conf<Tree>, rules: set<Rule>, look: map<nat, set<LookItem>>, rank: (nat, Rule) -> nat,
                  y: seq<Token>,
                  s: Stacks<Tree>, n0: nat, input: seq<Token>, m: nat) returns (c: Name)
    requires Generated(q, rules, look, rank) && Builds(q) && Holds(q, rules, s, y) && Terminal(y, rules)
    requires Arrived(q, y, s, n0) && Reducing(q, s, input, m + 1)
    ensures c in Aheads(look) && Reducing(q, s, Input(c), m) && Stops(q, s, c)
  {
    hide Generated;
    hide ValidTable;
    hide CompleteTable;
    hide Builds;
    hide Holds;
    hide Turns;
    hide Turn;
    hide SizeAll;
    hide Cores;
    hide Aheads;
    hide NoEnd;
    Facts(q, rules, look, rank);
    ReducingLess(q, s, input, m + 1, m);
    Reductions(q, rules, Cores(look), s, y, input, m);
    var t := Turns(q, s, input, m).s;
    LastReduction(q, s, input, m);
    var rule := OneReduction(q, rules, Cores(look), t, y, input);
    CoresKeys(look);
    var after, n, end := Follows(q, rules, look, rank, t, y, rule);
    assert Turns(q, Start(q), y + after, n0) == Going(s, after);
    Between(q, rules, Cores(look), y, s, n0, t, n, after, m);
    c := First(after, END.typ);
    NameOf(after);
    SameAhead(q, s, after, Input(c), m);
    DoneStays(q, Start(q), y + after, end, n0 + end);
    TurnsOn(q, Start(q), y + after, n0, s, after, end);
    if Reducing(q, s, Input(c), end) {
      SameAhead(q, s, Input(c), after, end);
    }
  }

  lemma LastReduction(q: Conf<Tree>, s: Stacks<Tree>, input: seq<Token>, m: nat)
    requires Reducing(q, s, input, m + 1) && Reducing(q, s, input, m)
    ensures var t := Turns(q, s, input, m).s; Turn(q, t, input).Going? && Turn(q, t, input).input == input
  {
    hide Turn;
    var t := Turns(q, s, input, m).s;
    TurnsOn(q, s, input, m, t, input, 1);
    OneTurn(q, t, input);
  }

  lemma NameOf(after: seq<Token>)
    requires NoEnd(after)
    ensures NoEnd(Input(First(after, END.typ))) && First(Input(First(after, END.typ)), END.typ) == First(after, END.typ)
  {
  }

  /** In front of any token only so many reductions are made. */
  lemma ReductionsEnd(q: Conf<Tree>, rules: set<Rule>, look: map<nat, set<LookItem>>, rank: (nat, Rule) -> nat,
                      y: seq<Token>, s: Stacks<Tree>, n0: nat, input: seq<Token>) returns (b: nat)
    requires Generated(q, rules, look, rank) && Builds(q) && Holds(q, rules, s, y) && Terminal(y, rules)
    requires Arrived(q, y, s, n0)
    ensures !Reducing(q, s, input, b)
  {
    hide *;
    var bound := CommonBound(q, s, Aheads(look));
    b := bound + 1;
    if Reducing(q, s, input, b) {
      var c := OtherName(q, rules, look, rank, y, s, n0, input, bound);
    }
  }

  /** The last reduction in front of a token. */
  lemma {:induction false} LastOf(q: Conf<Tree>, s: Stacks<Tree>, input: seq<Token>, b: nat) returns (m: nat)
    requires !Reducing(q, s, input, b)
    ensures Reducing(q, s, input, m) && !Reducing(q, s, input, m + 1)
    decreases b
  {
    assert Reducing(q, s, input, 0);
    if Reducing(q, s, input, b - 1) {
      m := b - 1;
    } else {
      m := LastOf(q, s, input, b - 1);
    }
  }

  // ----- the driver stops

  /** A turn that takes a token shifts it, whatever follows. */
  lemma OneShift(q: Conf<Tree>, rules: set<Rule>, t: Stacks<Tree>, y: seq<Token>, input: seq<Token>)
    requires Builds(q) && Holds(q, rules, t, y) && Turn(q, t, input).Going? && Turn(q, t, input).input != input
    ensures input != [] && Turn(q, t, input).input == input[1..]
    ensures Holds(q, rules, Turn(q, t, input).s, y + [input[0]])
    ensures forall rest :: Turn(q, t, [input[0]] + rest) == Going(Turn(q, t, input).s, rest)
  {
    hide ReduceOnce;
    hide YieldAll;
    TurnShortens(q, t, input);
    var token, next := input[0], Turn(q, t, input).s;
    StacksOfSpelling(q, rules, t, t.values);
    ShiftKeeps(q, rules, t, t.values, token, Last(next.states));
    SpelledValues(q, rules, next, t.values + [Leaf(token)]);
    forall rest
      ensures Turn(q, t, [token] + rest) == Going(next, rest)
    {
      var all := [token] + rest;
      assert all != [] && all[0] == token && all[1..] == rest;
    }
  }

  lemma ArrivedNext(q: Conf<Tree>, y: seq<Token>, s: Stacks<Tree>, n0: nat, input: seq<Token>, m: nat, t: Stacks<Tree>,
                    next: Stacks<Tree>)
    requires Arrived(q, y, s, n0) && NoEnd(input) && input != []
    requires Turns(q, s, input, m) == Going(t, input)
    requires forall rest :: Turn(q, t, [input[0]] + rest) == Going(next, rest)
    ensures Arrived(q, y + [input[0]], next, n0 + m + 1)
  {
    hide Turn;
    hide Turns;
    hide Reducing;
    hide NoEnd;
    forall rest | NoEnd(rest)
      ensures Turns(q, Start(q), y + [input[0]] + rest, n0 + m + 1) == Going(next, rest)
    {
      var all := [input[0]] + rest;
      assert y + [input[0]] + rest == y + all;
      SameFirst(input, rest);
      assert Turns(q, Start(q), y + all, n0) == Going(s, all);
      assert Reducing(q, s, input, m) by { IsReducing(q, s, input, m, t); }
      SameAhead(q, s, input, all, m);
      assert Turns(q, s, all, m) == Going(t, all) by { ReducingGoes(q, s, all, m); }
      TurnsOn(q, Start(q), y + all, n0, s, all, m + 1);
      TurnsOn(q, s, all, m, t, all, 1);
      OneTurn(q, t, all);
    }
  }

  lemma SameFirst(input: seq<Token>, rest: seq<Token>)
    requires NoEnd(input) && input != [] && NoEnd(rest)
    ensures NoEnd([input[0]] + rest) && First([input[0]] + rest, END.typ) == First(input, END.typ)
  {
  }

  lemma IsReducing<V>(q: Conf<V>, s: Stacks<V>, input: seq<Token>, m: nat, t: Stacks<V>)
    requires Turns(q, s, input, m) == Going(t, input)
    ensures Reducing(q, s, input, m)
  {
  }

  lemma ReducingGoes<V>(q: Conf<V>, s: Stacks<V>, input: seq<Token>, m: nat)
    requires Reducing(q, s, input, m)
    ensures Turns(q, s, input, m) == Going(Turns(q, s, input, m).s, input)
  {
  }

  /** From wherever the driver is, with whatever tokens left, it stops. */
  lemma {:induction false} Stopping(q: Conf<Tree>, rules: set<Rule>, look: map<nat, set<LookItem>>,
                                    rank: (nat, Rule) -> nat, y: seq<Token>, s: Stacks<Tree>, n0: nat, rest: seq<Token>)
    returns (n: nat)
    requires Generated(q, rules, look, rank) && Builds(q) && Holds(q, rules, s, y) && Arrived(q, y, s, n0)
    requires Terminal(y, rules) && Terminal(rest, rules) && NoEnd(rest)
    ensures !Turns(q, Start(q), y + rest, n).Going?
    decreases rest
  {
    hide Generated;
    hide ValidTable;
    hide CompleteTable;
    hide Builds;
    hide Holds;
    hide Turns;
    hide Turn;
    hide SizeAll;
    Facts(q, rules, look, rank);
    var b := ReductionsEnd(q, rules, look, rank, y, s, n0, rest);
    var m := LastOf(q, s, rest, b);
    var t := Turns(q, s, rest, m).s;
    Reductions(q, rules, Cores(look), s, y, rest, m);
    assert Turns(q, Start(q), y + rest, n0) == Going(s, rest);
    TurnsOn(q, Start(q), y + rest, n0, s, rest, m + 1);
    TurnsOn(q, s, rest, m, t, rest, 1);
    OneTurn(q, t, rest);
    n := n0 + m + 1;
    if Turn(q, t, rest).Going? {
      OneShift(q, rules, t, y, rest);
      var next := Turn(q, t, rest).s;
      ArrivedNext(q, y, s, n0, rest, m, t, next);
      assert y + [rest[0]] + rest[1..] == y + rest;
      TerminalParts(y, [rest[0]], rules);
      n := Stopping(q, rules, look, rank, y + [rest[0]], next, n, rest[1..]);
    }
  }

  lemma AtStart(q: Conf<Tree>, rules: set<Rule>)
    ensures Holds(q, rules, Start(q), []) && Arrived(q, [], Start(q), 0)
  {
    forall rest | NoEnd(rest)
      ensures Turns(q, Start(q), [] + rest, 0) == Going(Start(q), rest)
    {
      assert [] + rest == rest;
    }
  }

  // ----- with any callbacks

  lemma SameTurnKind<V>(p: Conf<V>, s: Stacks<V>, t: Stacks<Tree>, input: seq<Token>)
    requires s.states == t.states && |s.values| == |t.values|
    ensures var a, b := Turn(p, s, input), Turn(Building(p), t, input);
            && (a.Going? <==> b.Going?)
            && (a.Going? ==> a.input == b.input && a.s.states == b.s.states && |a.s.values| == |b.s.values|)
  {
  }

  /** Where the driver goes does not depend on the callbacks. */
  lemma {:induction false} SameKind<V>(p: Conf<V>, s: Stacks<V>, t: Stacks<Tree>, input: seq<Token>, n: nat)
    requires s.states == t.states && |s.values| == |t.values|
    ensures Turns(p, s, input, n).Going? <==> Turns(Building(p), t, input, n).Going?
    decreases n
  {
    hide Turn;
    if n > 0 {
      SameTurnKind(p, s, t, input);
      var a, b := Turn(p, s, input), Turn(Building(p), t, input);
      if a.Going? {
        SameKind(p, a.s, b.s, a.input, n - 1);
      }
    }
  }

  lemma BuildingIsGenerated<V>(p: Conf<V>, rules: set<Rule>, look: map<nat, set<LookItem>>, rank: (nat, Rule) -> nat)
    requires Generated(p, rules, look, rank)
    ensures Generated(Building(p), rules, look, rank) && Builds(Building(p))
  {
    hide CompleteTable;
    hide Productive;
    hide Cores;
    BuildingIsComplete(p, rules, look);
    BuildingIsValid(p, rules, Cores(look));
    hide ValidTable;
    forall ts
      ensures EvalAll(Building(p), ts) == ts
    {
      BuildAll(p, ts);
    }
    forall s, it | s in look && it in look[s] && it.dot == 0
      ensures Justified(Building(p), look, rank, s, it.rule)
    {
      assert Justified(p, look, rank, s, it.rule);
    }
  }

  lemma BuildingIsValid<V>(p: Conf<V>, rules: set<Rule>, items: map<nat, set<Item>>)
    requires ValidTable(p, rules, items)
    ensures ValidTable(Building(p), rules, items)
  {
    forall s, n | s in p.states && n in p.states[s]
      ensures ValidEntry(Building(p), items, s, n)
    {
      assert ValidEntry(p, items, s, n);
    }
  }

  /** Over a generated table the driver stops on all tokens, and with turns enough it returns a value exactly when
      the tokens have a derivation. */
  lemma DriverEnds<V>(p: Conf<V>, rules: set<Rule>, look: map<nat, set<LookItem>>, rank: (nat, Rule) -> nat,
                      tokens: seq<Token>) returns (n: nat)
    requires Generated(p, rules, look, rank) && Terminal(tokens, rules) && NoEnd(tokens)
    ensures forall fuel: nat :: n <= fuel ==>
              && !Parse(p, tokens, fuel).Running?
              && (Parse(p, tokens, fuel).Returned? <==>
                    exists t: Tree :: Derivation(t, rules) && t.Node? && Root(t) == p.start && Yield(t) == tokens)
  {
    hide Generated;
    hide ValidTable;
    hide CompleteTable;
    hide Turns;
    hide Parse;
    hide Derivation;
    Facts(p, rules, look, rank);
    BuildingIsGenerated(p, rules, look, rank);
    AtStart(Building(p), rules);
    var stops := Stopping(Building(p), rules, look, rank, [], Start(Building(p)), 0, tokens);
    assert [] + tokens == tokens;
    SameKind(p, Start(p), Start(Building(p)), tokens, stops);
    n := stops;
    if t: Tree :| Derivation(t, rules) && t.Node? && Root(t) == p.start && Yield(t) == tokens {
      var found := ParseComplete(p, rules, look, t);
      n := stops + found;
    }
    forall fuel: nat | n <= fuel
      ensures !Parse(p, tokens, fuel).Running?
      ensures Parse(p, tokens, fuel).Returned? <==>
              exists t: Tree :: Derivation(t, rules) && t.Node? && Root(t) == p.start && Yield(t) == tokens
    {
      TurnsEnd(p, Start(p), tokens, stops, fuel, fuel);
      ParseIsParseOn(p, tokens, fuel);
      ParseSound(p, rules, Cores(look), tokens, fuel);
    }
  }

  // ----- a table of this kind

  /** The table of a left-recursive list is generated. */
  lemma ListTableIsGenerated()
    ensures Generated(ListTable(), LIST_RULES, ListLook(), (s, r) => 0)
  {
    hide ValidTable;
    hide CompleteTable;
    ListTableIsComplete();
    ListCores();
    ListNamesDerive();
    forall s, it | s in ListLook() && it in ListLook()[s] && it.dot == 0
      ensures Justified(ListTable(), ListLook(), (s, r) => 0, s, it.rule)
    {
    }
  }

  lemma ListCores()
    ensures Cores(ListLook()) == LIST_ITEMS
  {
    var cores, look := Cores(ListLook()), ListLook();
    assert cores.Keys == LIST_ITEMS.Keys;
    forall s | s in look
      ensures cores[s] == LIST_ITEMS[s]
    {
      ListCoresAt(s);
    }
  }

  lemma ListCoresAt(s: nat)
    requires s in ListLook()
    ensures (set it | it in ListLook()[s] :: (it.rule, it.dot)) == LIST_ITEMS[s]
  {
    forall c | c in LIST_ITEMS[s]
      ensures LookItem(c.0, c.1, END.typ) in ListLook()[s]
    {
    }
  }

  lemma ListNamesDerive()
    ensures forall r, n :: r in LIST_RULES && n in r.expansion ==> Productive(LIST_RULES, n)
  {
    var item := Leaf(Token("item", ""));
    var list := Node(ONE, [item]);
    YieldOne(item);
    YieldOne(list);
    assert Derivation(list, LIST_RULES);
    assert Derives([item], ["item"], LIST_RULES);
    assert Derives([list], ["list"], LIST_RULES);
  }
}
