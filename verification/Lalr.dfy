/** The shift/reduce driver of tools/schema/matter_grammar.js, over any parse table. */
module Lalr {
  type Name = string

  datatype Token = Token(typ: Name, text: string)

  datatype Rule = Rule(origin: Name, expansion: seq<Name>, order: nat)

  datatype Action = Shift(state: nat) | Reduce(rule: Rule)

  /** `ParseConf`: `states[state][name]`, the two distinguished states and the callbacks. */
  datatype Conf<!V> = Conf(
    states: map<nat, map<Name, Action>>,
    startState: nat,
    endState: nat,
    start: Name,
    onToken: Token -> V,
    onRule: (Rule, seq<V>) -> V)

  // ----- derivations

  datatype Tree = Leaf(token: Token) | Node(rule: Rule, kids: seq<Tree>)

  function Root(t: Tree): Name {
    match t
    case Leaf(token) => token.typ
    case Node(rule, _) => rule.origin
  }

  /** The tokens below a tree, in order. */
  function Yield(t: Tree): seq<Token>
    decreases t, 1
  {
    match t
    case Leaf(token) => [token]
    case Node(_, kids) => YieldAll(kids)
  }

  function YieldAll(ts: seq<Tree>): seq<Token>
    decreases ts, 0
  {
    if ts == [] then [] else Yield(ts[0]) + YieldAll(ts[1..])
  }

  /** Every node applies one of the grammar's rules to children with the right roots. */
  predicate Derivation(t: Tree, rules: set<Rule>) {
    match t
    case Leaf(_) => true
    case Node(rule, kids) =>
      rule in rules
      && |kids| == |rule.expansion|
      && (forall i :: 0 <= i < |kids| ==> Root(kids[i]) == rule.expansion[i])
      && (forall i :: 0 <= i < |kids| ==> Derivation(kids[i], rules))
  }

  /** What the callbacks make of a derivation. */
  function Eval<V>(p: Conf<V>, t: Tree): V
    decreases t, 1
  {
    match t
    case Leaf(token) => p.onToken(token)
    case Node(rule, kids) => p.onRule(rule, EvalAll(p, kids))
  }

  function EvalAll<V>(p: Conf<V>, ts: seq<Tree>): (vs: seq<V>)
    ensures |vs| == |ts|
    decreases ts, 0
  {
    if ts == [] then [] else [Eval(p, ts[0])] + EvalAll(p, ts[1..])
  }

  // ----- the driver

  datatype Stacks<+V> = Stacks(states: seq<nat>, values: seq<V>)

  /** `feed_token` returns after a shift, returns the parse result, throws `UnexpectedToken`, fails on an undefined
      table entry, or is still reducing after `fuel` turns. */
  datatype Fed<+V> =
    | Shifted(s: Stacks<V>)
    | Returned(value: V, s: Stacks<V>)
    | Unexpected(s: Stacks<V>)
    | Undefined(s: Stacks<V>)
    | Running(s: Stacks<V>)

  function Last<T>(s: seq<T>): T
    requires s != []
  {
    s[|s| - 1]
  }

  /** One reduction: the last |expansion| states and values make way for one of each. */
  function ReduceOnce<V>(p: Conf<V>, s: Stacks<V>, rule: Rule): (fed: Fed<V>)
    ensures fed.Running? || fed.Undefined?
    ensures fed.Running? ==> fed.s.states != [] && fed.s.values != []
  {
    var size := |rule.expansion|;
    if size >= |s.states| || size > |s.values| then Undefined(s)
    else
      var states := s.states[..|s.states| - size];
      var values := s.values[..|s.values| - size];
      var args := s.values[|s.values| - size..];
      if Last(states) !in p.states || rule.origin !in p.states[Last(states)] then Undefined(s)
      else
        match p.states[Last(states)][rule.origin]
        case Reduce(_) => Undefined(s)
        case Shift(state) => Running(Stacks(states + [state], values + [p.onRule(rule, args)]))
  }

  function Feed<V>(p: Conf<V>, s: Stacks<V>, token: Token, isEnd: bool, fuel: nat): Fed<V>
    decreases fuel
  {
    if fuel == 0 then Running(s)
    else if s.states == [] || Last(s.states) !in p.states then Undefined(s)
    else if token.typ !in p.states[Last(s.states)] then Unexpected(s)
    else
      match p.states[Last(s.states)][token.typ]
      case Shift(state) => Shifted(Stacks(s.states + [state], s.values + [p.onToken(token)]))
      case Reduce(rule) =>
        var next := ReduceOnce(p, s, rule);
        if !next.Running? then next
        else if isEnd && Last(next.s.states) == p.endState then Returned(Last(next.s.values), next.s)
        else Feed(p, next.s, token, isEnd, fuel - 1)
  }

  const END := Token("$END", "")

  /** `parse_from_state`: every token, then the end token. */
  function ParseFrom<V>(p: Conf<V>, s: Stacks<V>, tokens: seq<Token>, fuel: nat): Fed<V>
    decreases tokens
  {
    if tokens == [] then Feed(p, s, END, true, fuel)
    else
      var fed := Feed(p, s, tokens[0], false, fuel);
      if fed.Shifted? then ParseFrom(p, fed.s, tokens[1..], fuel) else fed
  }

  function Parse<V>(p: Conf<V>, tokens: seq<Token>, fuel: nat): Fed<V> {
    ParseFrom(p, Stacks([p.startState], []), tokens, fuel)
  }

  // ----- valid tables

  type Item = (Rule, nat)

  /** `items` certifies the table: the rules each state is in the middle of, as an LR automaton has them.
      A state is entered only on the symbol before the dot of its items, from states with the dot one back;
      it reduces complete items only; items at their start have a goto on their origin;
      nothing leads back to the start state, and only the start symbol from the start state leads to the end state. */
  predicate ValidTable<V>(p: Conf<V>, rules: set<Rule>, items: map<nat, set<Item>>) {
    && items.Keys == p.states.Keys
    && p.startState in p.states
    && (forall it :: it in items[p.startState] ==> it.1 == 0)
    && (forall s, it :: s in items && it in items[s] ==> it.1 <= |it.0.expansion| && it.0 in rules)
    && (forall s, n :: s in p.states && n in p.states[s] ==> ValidEntry(p, items, s, n))
    && (forall s, it :: s in items && it in items[s] && it.1 == 0 ==>
          it.0.origin in p.states[s] && p.states[s][it.0.origin].Shift?)
  }

  predicate ValidEntry<V>(p: Conf<V>, items: map<nat, set<Item>>, s: nat, n: Name)
    requires items.Keys == p.states.Keys && s in p.states && n in p.states[s]
  {
    match p.states[s][n]
    case Reduce(rule) => (rule, |rule.expansion|) in items[s]
    case Shift(t) =>
      && t in p.states
      && t != p.startState
      && (t == p.endState ==> s == p.startState && n == p.start)
      && (forall it :: it in items[t] && it.1 > 0 ==>
            it.1 <= |it.0.expansion| && it.0.expansion[it.1 - 1] == n && (it.0, it.1 - 1) in items[s])
  }

  // ----- the invariant of the driver

  /** The state stack is the path from the start state along the roots of `trees`. */
  ghost predicate Path<V>(p: Conf<V>, stack: seq<nat>, trees: seq<Tree>) {
    && |stack| == |trees| + 1
    && stack[0] == p.startState
    && (forall i :: 0 <= i < |trees| ==> Edge(p, stack[i], Root(trees[i]), stack[i + 1]))
  }

  predicate Edge<V>(p: Conf<V>, s: nat, n: Name, t: nat) {
    s in p.states && n in p.states[s] && p.states[s][n] == Shift(t)
  }

  ghost predicate AllDerive(trees: seq<Tree>, rules: set<Rule>) {
    forall i :: 0 <= i < |trees| ==> Derivation(trees[i], rules)
  }

  /** The stacks spell a forest of derivations, with their values on the value stack. */
  ghost predicate Spells<V>(p: Conf<V>, rules: set<Rule>, s: Stacks<V>, trees: seq<Tree>) {
    Path(p, s.states, trees) && AllDerive(trees, rules) && s.values == EvalAll(p, trees)
  }

  lemma EdgeIsValid<V>(p: Conf<V>, rules: set<Rule>, items: map<nat, set<Item>>, s: nat, n: Name, t: nat)
    requires ValidTable(p, rules, items) && Edge(p, s, n, t)
    ensures t in items && t != p.startState
    ensures t == p.endState ==> s == p.startState && n == p.start
    ensures forall it :: it in items[t] && it.1 > 0 ==>
              it.1 <= |it.0.expansion| && it.0.expansion[it.1 - 1] == n && s in items && (it.0, it.1 - 1) in items[s]
  {
    assert ValidEntry(p, items, s, n);
  }

  lemma StartIsFresh<V>(p: Conf<V>, rules: set<Rule>, items: map<nat, set<Item>>)
    requires ValidTable(p, rules, items)
    ensures p.startState in items && forall it :: it in items[p.startState] ==> it.1 == 0
  {
  }

  lemma ItemIsOfRule<V>(p: Conf<V>, rules: set<Rule>, items: map<nat, set<Item>>, s: nat, it: Item)
    requires ValidTable(p, rules, items) && s in items && it in items[s]
    ensures it.1 <= |it.0.expansion| && it.0 in rules
    ensures it.1 == 0 ==> s in p.states && it.0.origin in p.states[s] && p.states[s][it.0.origin].Shift?
  {
  }

  /** The symbols before the dot of an item lie on top of the stack, above a state with the item at its start. */
  lemma {:induction false} ItemOnStack<V>(p: Conf<V>, rules: set<Rule>, items: map<nat, set<Item>>, stack: seq<nat>,
                                          trees: seq<Tree>, top: nat, rule: Rule, dot: nat)
    requires ValidTable(p, rules, items) && Path(p, stack, trees)
    requires top < |stack| && stack[top] in items && (rule, dot) in items[stack[top]]
    ensures dot <= top && dot <= |rule.expansion|
    ensures forall j :: top - dot <= j < top ==> Root(trees[j]) == rule.expansion[j - (top - dot)]
    ensures stack[top - dot] in items && (rule, 0) in items[stack[top - dot]]
    decreases dot
  {
    hide ValidTable;
    ItemIsOfRule(p, rules, items, stack[top], (rule, dot));
    StartIsFresh(p, rules, items);
    if dot > 0 {
      assert Edge(p, stack[top - 1], Root(trees[top - 1]), stack[top]);
      EdgeIsValid(p, rules, items, stack[top - 1], Root(trees[top - 1]), stack[top]);
      ItemOnStack(p, rules, items, stack, trees, top - 1, rule, dot - 1);
    }
  }

  lemma {:induction false} YieldAppend(a: seq<Tree>, b: seq<Tree>)
    ensures YieldAll(a + b) == YieldAll(a) + YieldAll(b)
  {
    if a == [] {
      assert a + b == b;
    } else {
      assert (a + b)[1..] == a[1..] + b;
      YieldAppend(a[1..], b);
    }
  }

  lemma {:induction false} EvalAppend<V>(p: Conf<V>, a: seq<Tree>, b: seq<Tree>)
    ensures EvalAll(p, a + b) == EvalAll(p, a) + EvalAll(p, b)
  {
    if a == [] {
      assert a + b == b;
    } else {
      assert (a + b)[1..] == a[1..] + b;
      EvalAppend(p, a[1..], b);
    }
  }

  lemma EvalOne<V>(p: Conf<V>, t: Tree)
    ensures EvalAll(p, [t]) == [Eval(p, t)]
  {
  }

  lemma YieldOne(t: Tree)
    ensures YieldAll([t]) == Yield(t)
  {
    assert YieldAll([t]) == Yield(t) + [];
  }

  /** The top of the stack folded into one node. */
  function Folded(trees: seq<Tree>, rule: Rule): seq<Tree>
    requires |rule.expansion| <= |trees|
  {
    trees[..|trees| - |rule.expansion|] + [Node(rule, trees[|trees| - |rule.expansion|..])]
  }

  lemma FoldKeepsYield(trees: seq<Tree>, rule: Rule)
    requires |rule.expansion| <= |trees|
    ensures YieldAll(Folded(trees, rule)) == YieldAll(trees)
  {
    var n := |trees| - |rule.expansion|;
    YieldAppend(trees[..n], trees[n..]);
    YieldAppend(trees[..n], [Node(rule, trees[n..])]);
    YieldOne(Node(rule, trees[n..]));
    assert trees == trees[..n] + trees[n..];
  }

  lemma FoldEndsInNode(trees: seq<Tree>, rule: Rule)
    requires |rule.expansion| <= |trees|
    ensures Folded(trees, rule) != [] && Last(Folded(trees, rule)).Node?
  {
  }

  lemma FoldEvaluates<V>(p: Conf<V>, trees: seq<Tree>, rule: Rule)
    requires |rule.expansion| <= |trees|
    ensures var n := |trees| - |rule.expansion|; var values := EvalAll(p, trees);
            EvalAll(p, Folded(trees, rule)) == values[..n] + [p.onRule(rule, values[n..])]
  {
    var n := |trees| - |rule.expansion|;
    EvalAppend(p, trees[..n], trees[n..]);
    EvalAppend(p, trees[..n], [Node(rule, trees[n..])]);
    EvalOne(p, Node(rule, trees[n..]));
    assert trees == trees[..n] + trees[n..];
  }

  lemma FoldDerives(trees: seq<Tree>, rules: set<Rule>, rule: Rule)
    requires AllDerive(trees, rules) && rule in rules && |rule.expansion| <= |trees|
    requires var n := |trees| - |rule.expansion|;
             forall j :: n <= j < |trees| ==> Root(trees[j]) == rule.expansion[j - n]
    ensures AllDerive(Folded(trees, rule), rules)
  {
    var n := |trees| - |rule.expansion|;
    var kids := trees[n..];
    assert forall i :: 0 <= i < |kids| ==> kids[i] == trees[n + i];
    assert Derivation(Node(rule, kids), rules);
  }

  lemma PathPush<V>(p: Conf<V>, stack: seq<nat>, trees: seq<Tree>, t: Tree, state: nat)
    requires Path(p, stack, trees) && Edge(p, Last(stack), Root(t), state)
    ensures Path(p, stack + [state], trees + [t])
  {
  }

  lemma PathPop<V>(p: Conf<V>, stack: seq<nat>, trees: seq<Tree>, n: nat)
    requires Path(p, stack, trees) && n <= |trees|
    ensures Path(p, stack[..n + 1], trees[..n]) && Last(stack[..n + 1]) == stack[n]
  {
  }

  /** A reduction never meets an undefined entry, and keeps the frontier. */
  lemma ReduceKeeps<V>(p: Conf<V>, rules: set<Rule>, items: map<nat, set<Item>>, s: Stacks<V>, trees: seq<Tree>,
                       rule: Rule)
    requires ValidTable(p, rules, items) && Spells(p, rules, s, trees)
    requires Last(s.states) in items && (rule, |rule.expansion|) in items[Last(s.states)]
    ensures |rule.expansion| <= |trees|
    ensures ReduceOnce(p, s, rule).Running?
    ensures Spells(p, rules, ReduceOnce(p, s, rule).s, Folded(trees, rule))
  {
    hide ValidTable;
    var size := |rule.expansion|;
    ItemOnStack(p, rules, items, s.states, trees, |trees|, rule, size);
    var n := |trees| - size;
    var below := s.states[n];
    ItemIsOfRule(p, rules, items, below, (rule, 0));
    FoldDerives(trees, rules, rule);
    FoldEvaluates(p, trees, rule);
    PathPop(p, s.states, trees, n);
    PathPush(p, s.states[..n + 1], trees[..n], Node(rule, trees[n..]), p.states[below][rule.origin].state);
  }

  lemma ShiftKeeps<V>(p: Conf<V>, rules: set<Rule>, s: Stacks<V>, trees: seq<Tree>, token: Token, state: nat)
    requires Spells(p, rules, s, trees) && s.states != [] && Edge(p, Last(s.states), token.typ, state)
    ensures Spells(p, rules, Stacks(s.states + [state], s.values + [p.onToken(token)]), trees + [Leaf(token)])
    ensures YieldAll(trees + [Leaf(token)]) == YieldAll(trees) + [token]
  {
    PathPush(p, s.states, trees, Leaf(token), state);
    EvalAppend(p, trees, [Leaf(token)]);
    EvalOne(p, Leaf(token));
    YieldAppend(trees, [Leaf(token)]);
    YieldOne(Leaf(token));
  }

  /** The top state has items, and its entries are valid. */
  lemma TopIsValid<V>(p: Conf<V>, rules: set<Rule>, items: map<nat, set<Item>>, stack: seq<nat>, trees: seq<Tree>,
                      n: Name)
    requires ValidTable(p, rules, items) && Path(p, stack, trees)
    ensures Last(stack) in p.states && Last(stack) in items
    ensures n in p.states[Last(stack)] && p.states[Last(stack)][n].Reduce? ==>
              var rule := p.states[Last(stack)][n].rule; (rule, |rule.expansion|) in items[Last(stack)]
  {
    if |trees| > 0 {
      var k := |trees| - 1;
      assert Edge(p, stack[k], Root(trees[k]), stack[k + 1]);
      EdgeIsValid(p, rules, items, stack[k], Root(trees[k]), stack[k + 1]);
    }
    if n in p.states[Last(stack)] {
      assert ValidEntry(p, items, Last(stack), n);
    }
  }

  /** After any call of `feed_token`: no undefined entry was met, the stacks spell a forest whose frontier is the tokens
      consumed, and a returned value is that of one derivation of the start symbol. */
  lemma {:induction false} FeedKeeps<V>(p: Conf<V>, rules: set<Rule>, items: map<nat, set<Item>>, s: Stacks<V>,
                                        trees: seq<Tree>, token: Token, isEnd: bool, fuel: nat)
    returns (after: seq<Tree>)
    requires ValidTable(p, rules, items) && Spells(p, rules, s, trees)
    ensures var fed := Feed(p, s, token, isEnd, fuel);
            && !fed.Undefined?
            && Spells(p, rules, fed.s, after)
            && YieldAll(after) == YieldAll(trees) + (if fed.Shifted? then [token] else [])
            && (fed.Returned? ==>
                  |after| == 1 && after[0].Node? && Root(after[0]) == p.start && fed.value == Eval(p, after[0]))
    decreases fuel
  {
    hide ValidTable;
    hide Spells;
    hide Feed;
    hide ReduceOnce;
    hide Folded;
    hide Path;
    hide YieldAll;
    after := trees;
    assert YieldAll(trees) + [] == YieldAll(trees);
    StacksOfSpelling(p, rules, s, trees);
    TopIsValid(p, rules, items, s.states, trees, token.typ);
    FeedTurn(p, s, token, isEnd, fuel);
    var top := Last(s.states);
    if fuel > 0 && token.typ in p.states[top] {
      match p.states[top][token.typ]
      case Shift(state) =>
        ShiftKeeps(p, rules, s, trees, token, state);
        after := trees + [Leaf(token)];
      case Reduce(rule) =>
        ReduceKeeps(p, rules, items, s, trees, rule);
        FoldKeepsYield(trees, rule);
        FoldEndsInNode(trees, rule);
        var next := ReduceOnce(p, s, rule).s;
        after := Folded(trees, rule);
        StacksOfSpelling(p, rules, next, after);
        if isEnd && Last(next.states) == p.endState {
          EndMeansOneTree(p, rules, items, next, after);
        } else {
          after := FeedKeeps(p, rules, items, next, after, token, isEnd, fuel - 1);
        }
    }
  }

  lemma FeedTurn<V>(p: Conf<V>, s: Stacks<V>, token: Token, isEnd: bool, fuel: nat)
    requires s.states != [] && Last(s.states) in p.states
    ensures var here := p.states[Last(s.states)];
            Feed(p, s, token, isEnd, fuel) ==
            if fuel == 0 then Running(s)
            else if token.typ !in here then Unexpected(s)
            else if here[token.typ].Shift? then
              Shifted(Stacks(s.states + [here[token.typ].state], s.values + [p.onToken(token)]))
            else
              var next := ReduceOnce(p, s, here[token.typ].rule);
              if !next.Running? then next
              else if isEnd && Last(next.s.states) == p.endState then Returned(Last(next.s.values), next.s)
              else Feed(p, next.s, token, isEnd, fuel - 1)
  {
  }

  lemma StacksOfSpelling<V>(p: Conf<V>, rules: set<Rule>, s: Stacks<V>, trees: seq<Tree>)
    requires Spells(p, rules, s, trees)
    ensures |s.states| == |s.values| + 1 == |trees| + 1
    ensures Path(p, s.states, trees)
  {
  }

  /** Only the start symbol, on top of the start state, leads to the end state. */
  lemma EndMeansOneTree<V>(p: Conf<V>, rules: set<Rule>, items: map<nat, set<Item>>, s: Stacks<V>, trees: seq<Tree>)
    requires ValidTable(p, rules, items) && Spells(p, rules, s, trees)
    requires |trees| > 0 && Last(s.states) == p.endState
    ensures |trees| == 1 && Root(trees[0]) == p.start && Last(s.values) == Eval(p, trees[0])
  {
    var n := |trees|;
    assert Edge(p, s.states[n - 1], Root(trees[n - 1]), s.states[n]);
    EdgeIsValid(p, rules, items, s.states[n - 1], Root(trees[n - 1]), s.states[n]);
    if n > 1 {
      StartIsNeverReentered(p, rules, items, s.states, trees, n - 1);
    }
    EvalOne(p, trees[0]);
    assert trees == [trees[0]];
  }

  lemma StartIsNeverReentered<V>(p: Conf<V>, rules: set<Rule>, items: map<nat, set<Item>>, stack: seq<nat>,
                                 trees: seq<Tree>, i: nat)
    requires ValidTable(p, rules, items) && Path(p, stack, trees) && 0 < i < |stack|
    ensures stack[i] != p.startState
  {
    assert Edge(p, stack[i - 1], Root(trees[i - 1]), stack[i]);
    EdgeIsValid(p, rules, items, stack[i - 1], Root(trees[i - 1]), stack[i]);
  }

  lemma {:induction false} ParseFromSound<V>(p: Conf<V>, rules: set<Rule>, items: map<nat, set<Item>>, s: Stacks<V>,
                                             trees: seq<Tree>, tokens: seq<Token>, fuel: nat) returns (t: Tree)
    requires ValidTable(p, rules, items) && Spells(p, rules, s, trees)
    ensures var fed := ParseFrom(p, s, tokens, fuel);
            && !fed.Undefined?
            && (fed.Returned? ==> Derivation(t, rules) && t.Node? && Root(t) == p.start
                                  && Yield(t) == YieldAll(trees) + tokens && fed.value == Eval(p, t))
    decreases tokens
  {
    hide ValidTable;
    hide Spells;
    hide Feed;
    hide Derivation;
    if tokens == [] {
      var after := FeedKeeps(p, rules, items, s, trees, END, true, fuel);
      t := Leaf(END);
      if Feed(p, s, END, true, fuel).Returned? {
        t := after[0];
        SpelledTreeDerives(p, rules, Feed(p, s, END, true, fuel).s, after);
        YieldOne(t);
        assert after == [t];
      }
    } else {
      var after := FeedKeeps(p, rules, items, s, trees, tokens[0], false, fuel);
      var fed := Feed(p, s, tokens[0], false, fuel);
      FeedReturnsOnlyAtEnd(p, s, tokens[0], fuel);
      t := Leaf(END);
      if fed.Shifted? {
        t := ParseFromSound(p, rules, items, fed.s, after, tokens[1..], fuel);
        assert YieldAll(trees) + [tokens[0]] + tokens[1..] == YieldAll(trees) + tokens;
      }
    }
  }

  lemma SpelledTreeDerives<V>(p: Conf<V>, rules: set<Rule>, s: Stacks<V>, trees: seq<Tree>)
    requires Spells(p, rules, s, trees)
    ensures AllDerive(trees, rules)
  {
  }

  lemma {:induction false} FeedReturnsOnlyAtEnd<V>(p: Conf<V>, s: Stacks<V>, token: Token, fuel: nat)
    ensures !Feed(p, s, token, false, fuel).Returned?
    decreases fuel
  {
    if fuel > 0 && s.states != [] && Last(s.states) in p.states && token.typ in p.states[Last(s.states)] {
      match p.states[Last(s.states)][token.typ]
      case Shift(_) =>
      case Reduce(rule) =>
        var next := ReduceOnce(p, s, rule);
        if next.Running? {
          FeedReturnsOnlyAtEnd(p, next.s, token, fuel - 1);
        }
    }
  }

  /** Soundness of the parser: over a valid table, however long it runs, it never reads an undefined entry, and a value
      it returns is what the callbacks make of a derivation of the start symbol whose frontier is the tokens. */
  lemma ParseSound<V>(p: Conf<V>, rules: set<Rule>, items: map<nat, set<Item>>, tokens: seq<Token>, fuel: nat)
    requires ValidTable(p, rules, items)
    ensures !Parse(p, tokens, fuel).Undefined?
    ensures Parse(p, tokens, fuel).Returned? ==>
              exists t: Tree :: Derivation(t, rules) && t.Node? && Root(t) == p.start && Yield(t) == tokens
                                && Parse(p, tokens, fuel).value == Eval(p, t)
  {
    var t := ParseFromSound(p, rules, items, Stacks([p.startState], []), [], tokens, fuel);
    assert YieldAll([]) + tokens == tokens;
  }

  // ----- the driver in place

  /** `ParserState`: two stacks that every token updates in place. */
  class ParserState<V> {
    const conf: Conf<V>
    var stateStack: seq<nat>
    var valueStack: seq<V>

    constructor (conf: Conf<V>)
      ensures this.conf == conf && Now() == Stacks([conf.startState], [])
    {
      this.conf := conf;
      stateStack := [conf.startState];
      valueStack := [];
    }

    function Now(): Stacks<V>
      reads this
    {
      Stacks(stateStack, valueStack)
    }

    method FeedToken(token: Token, isEnd: bool, fuel: nat) returns (fed: Fed<V>)
      modifies this
      ensures fed == Feed(conf, old(Now()), token, isEnd, fuel)
      ensures !fed.Undefined? ==> Now() == fed.s
    {
      hide ReduceOnce;
      var turns := 0;
      while turns < fuel
        invariant turns <= fuel
        invariant Feed(conf, Now(), token, isEnd, fuel - turns) == Feed(conf, old(Now()), token, isEnd, fuel)
      {
        if stateStack == [] || Last(stateStack) !in conf.states {
          return Undefined(Now());
        }
        var state := Last(stateStack);
        if token.typ !in conf.states[state] {
          return Unexpected(Now());
        }
        match conf.states[state][token.typ]
        case Shift(arg) =>
          stateStack := stateStack + [arg];
          valueStack := valueStack + [conf.onToken(token)];
          return Shifted(Now());
        case Reduce(rule) =>
          var undefined := ReduceInPlace(rule);
          if undefined {
            return ReduceOnce(conf, Now(), rule);
          }
          if isEnd && Last(stateStack) == conf.endState {
            return Returned(Last(valueStack), Now());
          }
          turns := turns + 1;
      }
      fed := Running(Now());
    }

    /** The body of the reduce branch. */
    method ReduceInPlace(rule: Rule) returns (undefined: bool)
      modifies this
      ensures undefined <==> !ReduceOnce(conf, old(Now()), rule).Running?
      ensures undefined ==> Now() == old(Now())
      ensures !undefined ==> Now() == ReduceOnce(conf, old(Now()), rule).s && stateStack != [] && valueStack != []
    {
      var size := |rule.expansion|;
      if size >= |stateStack| || size > |valueStack| {
        return true;
      }
      var args := valueStack[|valueStack| - size..];
      var top := stateStack[|stateStack| - size - 1];
      if top !in conf.states || rule.origin !in conf.states[top] || conf.states[top][rule.origin].Reduce? {
        return true;
      }
      stateStack := stateStack[..|stateStack| - size];
      valueStack := valueStack[..|valueStack| - size];
      stateStack := stateStack + [conf.states[top][rule.origin].state];
      valueStack := valueStack + [conf.onRule(rule, args)];
      undefined := false;
    }
  }
}
