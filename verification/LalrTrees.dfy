/** The driver's value stack with lists reused in place: what parsing builds in the heap. */
module LalrTrees {
  import opened Lalr
  import opened LalrComplete
  import TreeBuilder

  type Child = TreeBuilder.Child

  /** How a rule's callback builds its tree: its name, `to_include`, the nulls at the end, and whether a single child
      stands for it. */
  datatype Shape = Shape(data: Name, inc: seq<TreeBuilder.Include>, trailing: nat, expand1: bool)

  /** The table with the tree builder's callbacks, which copy. */
  function Copying(p: Conf<Tree>, shape: Rule -> Shape): Conf<Child> {
    Conf(p.states, p.startState, p.endState, p.start,
         (token: Token) => TreeBuilder.Token(token.typ, token.text),
         (rule, kids) => Copied(shape(rule), kids))
  }

  function Copied(x: Shape, kids: seq<Child>): Child {
    if TreeBuilder.Fits(x.inc, kids) then
      TreeBuilder.Built(x.data, x.expand1, TreeBuilder.Filtered(x.inc, kids) + TreeBuilder.Nones(x.trailing))
    else TreeBuilder.Absent
  }

  // ----- what the driver does to the value stack

  function StackTurn(p: Conf<Child>, shape: Rule -> Shape, s: Stacks<Child>, input: seq<Token>): seq<TreeBuilder.Turn> {
    var token := if input == [] then END else input[0];
    if s.states == [] || Last(s.states) !in p.states || token.typ !in p.states[Last(s.states)] then []
    else
      match p.states[Last(s.states)][token.typ]
      case Shift(_) => [TreeBuilder.ShiftToken(token.typ, token.text)]
      case Reduce(rule) =>
        var x := shape(rule);
        [TreeBuilder.ReduceRule(x.data, |rule.expansion|, x.inc, x.trailing, x.expand1)]
  }

  /** The turns of the value stack in so many turns of the driver. */
  function Trace(p: Conf<Child>, shape: Rule -> Shape, s: Stacks<Child>, input: seq<Token>,
                 n: nat): seq<TreeBuilder.Turn>
    decreases n
  {
    if n == 0 then []
    else
      StackTurn(p, shape, s, input)
      + match Turn(p, s, input)
        case Going(t, rest) => Trace(p, shape, t, rest, n - 1)
        case _ => []
  }

  /** One turn of the driver is its turn of the value stack. */
  lemma TurnRuns(p: Conf<Tree>, shape: Rule -> Shape, s: Stacks<Child>, input: seq<Token>)
    requires var q := Copying(p, shape); TreeBuilder.CanRun(StackTurn(q, shape, s, input), s.values)
    ensures var q := Copying(p, shape); var t := Turn(q, s, input);
            !t.Stuck? ==>
              |StackTurn(q, shape, s, input)| == 1
              && var turn := StackTurn(q, shape, s, input)[0];
                 TreeBuilder.CanTurn(turn, s.values)
                 && (t.Going? ==> TreeBuilder.TurnCopying(turn, s.values) == t.s.values)
                 && (t.Done? ==> TreeBuilder.TurnCopying(turn, s.values) != []
                                 && Last(TreeBuilder.TurnCopying(turn, s.values)) == t.value)
  {
    hide TreeBuilder.Filtered;
    hide TreeBuilder.Built;
    hide TreeBuilder.Fits;
    var q := Copying(p, shape);
    var turns := StackTurn(q, shape, s, input);
    if turns != [] {
      assert TreeBuilder.CanTurn(turns[0], s.values);
    }
  }

  /** What the driver has on its value stack is what its turns make there; and so is the value that it returns. */
  lemma {:induction false} DriverRuns(p: Conf<Tree>, shape: Rule -> Shape, s: Stacks<Child>, input: seq<Token>, n: nat)
    requires TreeBuilder.CanRun(Trace(Copying(p, shape), shape, s, input, n), s.values)
    ensures var q := Copying(p, shape);
            var end, made := Turns(q, s, input, n), TreeBuilder.RunCopying(Trace(q, shape, s, input, n), s.values);
            && (end.Going? ==> made == end.s.values)
            && (end.Done? ==> made != [] && Last(made) == end.value)
    decreases n
  {
    hide Turn;
    hide StackTurn;
    hide TreeBuilder.TurnCopying;
    hide TreeBuilder.CanTurn;
    if n > 0 {
      var q := Copying(p, shape);
      var here, t := StackTurn(q, shape, s, input), Turn(q, s, input);
      var later := if t.Going? then Trace(q, shape, t.s, t.input, n - 1) else [];
      assert Trace(q, shape, s, input, n) == here + later;
      RunSplits(here, later, s.values);
      TurnRuns(p, shape, s, input);
      if !t.Stuck? {
        OneRun(here, s.values);
        if t.Going? {
          DriverRuns(p, shape, t.s, t.input, n - 1);
        } else {
          assert here + later == here;
        }
      }
    }
  }

  lemma OneRun(turns: seq<TreeBuilder.Turn>, s: seq<Child>)
    requires |turns| == 1 && TreeBuilder.CanTurn(turns[0], s)
    ensures TreeBuilder.CanRun(turns, s) && TreeBuilder.RunCopying(turns, s) == TreeBuilder.TurnCopying(turns[0], s)
  {
    assert turns[1..] == [];
  }

  lemma {:induction false} RunSplits(a: seq<TreeBuilder.Turn>, b: seq<TreeBuilder.Turn>, s: seq<Child>)
    ensures TreeBuilder.CanRun(a + b, s) <==>
            TreeBuilder.CanRun(a, s) && TreeBuilder.CanRun(b, TreeBuilder.RunCopying(a, s))
    ensures TreeBuilder.CanRun(a + b, s) ==>
            TreeBuilder.RunCopying(a + b, s) == TreeBuilder.RunCopying(b, TreeBuilder.RunCopying(a, s))
    decreases a
  {
    hide TreeBuilder.CanTurn;
    hide TreeBuilder.TurnCopying;
    if a == [] {
      assert a + b == b;
    } else {
      assert (a + b)[0] == a[0] && (a + b)[1..] == a[1..] + b;
      if TreeBuilder.CanTurn(a[0], s) {
        RunSplits(a[1..], b, TreeBuilder.TurnCopying(a[0], s));
      }
    }
  }

  // ----- no turn fails

  /** What a generator of callbacks keeps to: a rule takes its children in order, each once, and only those are
      replaced by their own children whose rules all make trees. */
  predicate ShapesFit(rules: set<Rule>, shape: Rule -> Shape) {
    forall r :: r in rules ==> ShapeFits(rules, shape, r)
  }

  predicate ShapeFits(rules: set<Rule>, shape: Rule -> Shape, r: Rule) {
    var inc := shape(r).inc;
    && (forall k :: 0 <= k < |inc| ==>
          inc[k].index < |r.expansion| && (inc[k].expand ==> MakesTrees(rules, shape, r.expansion[inc[k].index])))
    && (forall j, k :: 0 <= j < k < |inc| ==> inc[j].index < inc[k].index)
  }

  predicate MakesTrees(rules: set<Rule>, shape: Rule -> Shape, name: Name) {
    (exists r :: r in rules && r.origin == name) && forall r :: r in rules && r.origin == name ==> !shape(r).expand1
  }

  /** The children of a derivation are what the rule's filter takes. */
  lemma {:induction false} KidsAreTaken(p: Conf<Tree>, rules: set<Rule>, shape: Rule -> Shape, t: Tree)
    requires ShapesFit(rules, shape) && t.Node? && Derivation(t, rules) && Terminal(Yield(t), rules)
    ensures TreeBuilder.Fits(shape(t.rule).inc, EvalAll(Copying(p, shape), t.kids))
    decreases t, 0
  {
    hide Terminal;
    var q, inc := Copying(p, shape), shape(t.rule).inc;
    assert ShapeFits(rules, shape, t.rule);
    forall k | 0 <= k < |inc|
      ensures inc[k].index < |t.kids|
      ensures inc[k].expand ==> EvalAll(q, t.kids)[inc[k].index].Sub?
    {
      var i := inc[k].index;
      var kid := t.kids[i];
      EvalAt(q, t.kids, i);
      if inc[k].expand {
        KidIsTerminal(t.kids, i, rules);
        assert Derivation(kid, rules) && Root(kid) == t.rule.expansion[i];
        TreeIsMade(p, rules, shape, kid);
      }
    }
  }

  lemma {:induction false} TreeIsMade(p: Conf<Tree>, rules: set<Rule>, shape: Rule -> Shape, t: Tree)
    requires ShapesFit(rules, shape) && Derivation(t, rules) && Terminal(Yield(t), rules)
    requires MakesTrees(rules, shape, Root(t))
    ensures Eval(Copying(p, shape), t).Sub?
    decreases t, 1
  {
    var r :| r in rules && r.origin == Root(t);
    MadeByRule(t, rules, r);
    KidsAreTaken(p, rules, shape, t);
  }

  lemma MadeByRule(t: Tree, rules: set<Rule>, r: Rule)
    requires Terminal(Yield(t), rules) && r in rules && r.origin == Root(t)
    ensures t.Node?
  {
    assert Yield(t) != [] ==> Yield(t)[0].typ != r.origin;
  }

  lemma {:induction false} EvalAt<V>(p: Conf<V>, ts: seq<Tree>, i: nat)
    requires i < |ts|
    ensures EvalAll(p, ts)[i] == Eval(p, ts[i])
  {
    if i > 0 {
      EvalAt(p, ts[1..], i - 1);
    }
  }

  /** A valid table is valid with any callbacks. */
  lemma CopyingIsValid(p: Conf<Tree>, rules: set<Rule>, items: map<nat, set<Item>>, shape: Rule -> Shape)
    requires ValidTable(p, rules, items)
    ensures ValidTable(Copying(p, shape), rules, items)
  {
    forall s, n | s in p.states && n in p.states[s]
      ensures ValidEntry(Copying(p, shape), items, s, n)
    {
      assert ValidEntry(p, items, s, n);
    }
  }

  /** The stacks spell derivations whose frontier, and the input, are terminals. */
  ghost predicate Spelled(q: Conf<Child>, rules: set<Rule>, s: Stacks<Child>, trees: seq<Tree>, input: seq<Token>) {
    Spells(q, rules, s, trees) && Terminal(YieldAll(trees) + input, rules)
  }

  /** The next turn can be made on the value stack, and the stacks stay spelled. */
  lemma TurnFits(p: Conf<Tree>, rules: set<Rule>, items: map<nat, set<Item>>, shape: Rule -> Shape, s: Stacks<Child>,
                 trees: seq<Tree>, input: seq<Token>) returns (after: seq<Tree>)
    requires var q := Copying(p, shape); ValidTable(q, rules, items) && Spelled(q, rules, s, trees, input)
    requires ShapesFit(rules, shape)
    ensures var q := Copying(p, shape);
            && TreeBuilder.CanRun(StackTurn(q, shape, s, input), s.values)
            && (Turn(q, s, input).Going? ==> Spelled(q, rules, Turn(q, s, input).s, after, Turn(q, s, input).input))
  {
    hide ValidTable;
    hide ShapesFit;
    hide Terminal;
    hide ReduceOnce;
    hide Spells;
    hide YieldAll;
    hide TreeBuilder.Fits;
    hide TreeBuilder.TurnCopying;
    var q := Copying(p, shape);
    var token := if input == [] then END else input[0];
    after := trees;
    StacksOfSpelling(q, rules, s, trees);
    TopIsValid(q, rules, items, s.states, trees, token.typ);
    if token.typ in q.states[Last(s.states)] {
      match q.states[Last(s.states)][token.typ]
      case Shift(state) =>
        if input != [] {
          ShiftKeeps(q, rules, s, trees, token, state);
          after := trees + [Leaf(token)];
          assert YieldAll(trees) + [token] + input[1..] == YieldAll(trees) + input;
        }
      case Reduce(rule) =>
        ReduceKeeps(q, rules, items, s, trees, rule);
        FoldKeepsYield(trees, rule);
        after := Folded(trees, rule);
        SpelledTreeDerives(q, rules, ReduceOnce(q, s, rule).s, after);
        ReductionFits(p, rules, shape, s, trees, input, rule);
    }
  }

  lemma ReductionFits(p: Conf<Tree>, rules: set<Rule>, shape: Rule -> Shape, s: Stacks<Child>, trees: seq<Tree>,
                      input: seq<Token>, rule: Rule)
    requires var q := Copying(p, shape);
             Spelled(q, rules, s, trees, input) && |rule.expansion| <= |trees| && AllDerive(Folded(trees, rule), rules)
    requires ShapesFit(rules, shape)
    ensures |rule.expansion| <= |s.values|
    ensures TreeBuilder.Fits(shape(rule).inc, s.values[|s.values| - |rule.expansion|..])
  {
    hide ShapesFit;
    hide Terminal;
    hide TreeBuilder.Fits;
    var q, n := Copying(p, shape), |trees| - |rule.expansion|;
    var node := Node(rule, trees[n..]);
    assert Folded(trees, rule)[n] == node;
    EvalAppend(q, trees[..n], trees[n..]);
    YieldAppend(trees[..n], trees[n..]);
    assert trees == trees[..n] + trees[n..];
    TerminalParts(YieldAll(trees), input, rules);
    TerminalParts(YieldAll(trees[..n]), YieldAll(trees[n..]), rules);
    KidsAreTaken(p, rules, shape, node);
    assert s.values[n..] == EvalAll(q, trees[n..]);
  }

  /** Over a valid table all turns can be made on the value stack. */
  lemma {:induction false} TraceFits(p: Conf<Tree>, rules: set<Rule>, items: map<nat, set<Item>>, shape: Rule -> Shape,
                                     s: Stacks<Child>, trees: seq<Tree>, input: seq<Token>, n: nat)
    requires var q := Copying(p, shape); ValidTable(q, rules, items) && Spelled(q, rules, s, trees, input)
    requires ShapesFit(rules, shape)
    ensures TreeBuilder.CanRun(Trace(Copying(p, shape), shape, s, input, n), s.values)
    decreases n
  {
    hide ValidTable;
    hide ShapesFit;
    hide Spelled;
    hide Turn;
    hide StackTurn;
    hide TreeBuilder.TurnCopying;
    hide TreeBuilder.CanTurn;
    if n > 0 {
      var q := Copying(p, shape);
      var here, t := StackTurn(q, shape, s, input), Turn(q, s, input);
      var after := TurnFits(p, rules, items, shape, s, trees, input);
      TurnRuns(p, shape, s, input);
      if t.Going? {
        OneRun(here, s.values);
        TraceFits(p, rules, items, shape, t.s, after, t.input, n - 1);
        RunSplits(here, Trace(q, shape, t.s, t.input, n - 1), s.values);
      } else {
        assert here + [] == here;
      }
    }
  }

  function Start(p: Conf<Tree>): Stacks<Child> {
    Stacks([p.startState], [])
  }

  /** The driver's turns with the callbacks that reuse lists in place, over any valid table and any tokens: at every
      turn the value stack stands for what the copying callbacks would have put there, and a value that is returned,
      for that of a derivation of the tokens. */
  method RunInPlace(p: Conf<Tree>, ghost rules: set<Rule>, ghost items: map<nat, set<Item>>, shape: Rule -> Shape,
                    tokens: seq<Token>, n: nat)
    returns (stack: TreeBuilder.ValueStack)
    requires ValidTable(p, rules, items) && ShapesFit(rules, shape) && Terminal(tokens, rules)
    ensures stack.Valid()
    ensures var end := Turns(Copying(p, shape), Start(p), tokens, n);
            && (end.Going? ==> stack.model == end.s.values)
            && (end.Done? ==>
                  && stack.model != [] && Last(stack.model) == end.value
                  && exists t :: Derivation(t, rules) && t.Node? && Root(t) == p.start && Yield(t) == tokens
                                 && end.value == Eval(Copying(p, shape), t))
  {
    hide ValidTable;
    hide ShapesFit;
    hide Turns;
    hide Parse;
    hide Derivation;
    ghost var q := Copying(p, shape);
    CopyingIsValid(p, rules, items, shape);
    NothingSpelled(q, rules, tokens);
    TraceFits(p, rules, items, shape, Start(p), [], tokens, n);
    DriverRuns(p, shape, Start(p), tokens, n);
    if Turns(q, Start(p), tokens, n).Done? {
      TurnsEnd(q, Start(p), tokens, n, n, n);
      ParseIsParseOn(q, tokens, n);
      ParseSound(q, rules, items, tokens, n);
    }
    stack := new TreeBuilder.ValueStack();
    stack.Run(Trace(Copying(p, shape), shape, Start(p), tokens, n));
  }

  lemma NothingSpelled(q: Conf<Child>, rules: set<Rule>, tokens: seq<Token>)
    requires Terminal(tokens, rules)
    ensures Spelled(q, rules, Stacks([q.startState], []), [], tokens)
  {
    assert YieldAll([]) + tokens == tokens;
  }

  // ----- a left-recursive list

  function ListShape(rule: Rule): Shape {
    Shape("list", if rule == ONE then TreeBuilder.FIRST_ITEM else TreeBuilder.LIST_THEN_ITEM, 0, false)
  }

  function ListConf(): Conf<Child> {
    Copying(ListTable(), ListShape)
  }

  predicate AreItems(tokens: seq<Token>) {
    forall i :: 0 <= i < |tokens| ==> tokens[i].typ == "item"
  }

  function ItemsOf(tokens: seq<Token>): (cs: seq<Child>)
    ensures |cs| == |tokens|
  {
    seq(|tokens|, i requires 0 <= i < |tokens| => TreeBuilder.Token(tokens[i].typ, tokens[i].text))
  }

  lemma ListShapesFit()
    ensures ShapesFit(LIST_RULES, ListShape)
  {
    assert ONE.origin == "list" && MORE.expansion[0] == "list";
    assert MakesTrees(LIST_RULES, ListShape, "list");
  }

  lemma ItemsAreTerminal(tokens: seq<Token>)
    requires AreItems(tokens)
    ensures Terminal(tokens, LIST_RULES)
  {
  }

  /** The children of a derived list are its tokens, flat and in source order. */
  lemma {:induction false} DerivedListIsFlat(t: Tree)
    requires t.Node? && Derivation(t, LIST_RULES) && Terminal(Yield(t), LIST_RULES)
    ensures Eval(ListConf(), t) == TreeBuilder.Sub("list", ItemsOf(Yield(t)))
    decreases t
  {
    hide Terminal;
    hide TreeBuilder.Filtered;
    hide TreeBuilder.Fits;
    var kids, q := t.kids, ListConf();
    var last := kids[|kids| - 1];
    KidIsTerminal(kids, |kids| - 1, LIST_RULES);
    KidIsTerminal(kids, 0, LIST_RULES);
    ItemIsToken(last);
    var item := TreeBuilder.Token(last.token.typ, last.token.text);
    if t.rule == ONE {
      assert kids == [last];
      YieldOne(last);
      EvalOne(q, last);
      OneIsCopied(item);
      assert ItemsOf([last.token]) == [item];
    } else {
      var first := kids[0];
      MadeByRule(first, LIST_RULES, ONE);
      DerivedListIsFlat(first);
      assert kids == [first] + [last];
      YieldAppend([first], [last]);
      YieldOne(first);
      YieldOne(last);
      EvalAppend(q, [first], [last]);
      EvalOne(q, first);
      EvalOne(q, last);
      MoreIsCopied(ItemsOf(Yield(first)), item);
      assert EvalAll(q, kids) == [TreeBuilder.Sub("list", ItemsOf(Yield(first))), item];
      assert Yield(t) == Yield(first) + [last.token];
      assert ItemsOf(Yield(first) + [last.token]) == ItemsOf(Yield(first)) + [item];
    }
  }

  lemma ItemIsToken(t: Tree)
    requires Derivation(t, LIST_RULES) && Root(t) == "item"
    ensures t.Leaf? && Yield(t) == [t.token]
    ensures Eval(ListConf(), t) == TreeBuilder.Token(t.token.typ, t.token.text)
  {
  }

  lemma OneIsCopied(item: Child)
    ensures Copied(ListShape(ONE), [item]) == TreeBuilder.Sub("list", [item])
  {
    hide TreeBuilder.Filtered;
    TreeBuilder.FirstItemFilters(item);
    assert [item] + TreeBuilder.Nones(0) == [item];
  }

  lemma MoreIsCopied(before: seq<Child>, item: Child)
    ensures Copied(ListShape(MORE), [TreeBuilder.Sub("list", before), item]) == TreeBuilder.Sub("list", before + [item])
  {
    hide TreeBuilder.Filtered;
    TreeBuilder.ListThenItemFilters("list", before, item);
    assert before + [item] + TreeBuilder.Nones(0) == before + [item];
  }

  /** Items have a derivation as a list. */
  lemma {:induction false} ItemsDerive(tokens: seq<Token>) returns (t: Tree)
    requires AreItems(tokens) && tokens != []
    ensures t.Node? && Derivation(t, LIST_RULES) && Root(t) == "list" && Yield(t) == tokens
    decreases |tokens|
  {
    var n := |tokens| - 1;
    var last := Leaf(tokens[n]);
    YieldOne(last);
    if n == 0 {
      t := Node(ONE, [last]);
      assert tokens == [tokens[0]];
    } else {
      var first := ItemsDerive(tokens[..n]);
      t := Node(MORE, [first] + [last]);
      YieldAppend([first], [last]);
      YieldOne(first);
      assert tokens == tokens[..n] + [tokens[n]];
    }
  }

  /** The driver parses items as a list, and what it returns is flat. */
  lemma ListIsParsed(tokens: seq<Token>) returns (n: nat)
    requires AreItems(tokens) && tokens != []
    ensures Turns(ListConf(), Start(ListTable()), tokens, n) == Done(TreeBuilder.Sub("list", ItemsOf(tokens)))
  {
    hide Turns;
    hide CompleteTable;
    var t := ItemsDerive(tokens);
    ItemsAreTerminal(tokens);
    ListTableIsComplete();
    CopyingIsComplete(ListTable(), LIST_RULES, ListLook(), ListShape);
    n := TurnsComplete(ListConf(), LIST_RULES, ListLook(), t);
    DerivedListIsFlat(t);
  }

  lemma CopyingIsComplete(p: Conf<Tree>, rules: set<Rule>, look: map<nat, set<LookItem>>, shape: Rule -> Shape)
    requires CompleteTable(p, rules, look)
    ensures CompleteTable(Copying(p, shape), rules, look)
  {
    hide CanBegin;
    var q := Copying(p, shape);
    forall s, it | s in look && it in look[s]
      ensures CompleteItem(q, rules, look, s, it)
    {
      assert CompleteItem(p, rules, look, s, it);
      if it.dot < |it.rule.expansion| {
        CopyingExpects(p, rules, look, shape, s, it.rule.expansion[it.dot], it.rule.expansion[it.dot + 1..], it.ahead);
      }
    }
    CopyingExpects(p, rules, look, shape, p.startState, p.start, [], END.typ);
  }

  lemma CopyingExpects(p: Conf<Tree>, rules: set<Rule>, look: map<nat, set<LookItem>>, shape: Rule -> Shape, s: nat,
                       name: Name, names: seq<Name>, ahead: Name)
    requires Expects(p, rules, look, s, name, names, ahead)
    ensures Expects(Copying(p, shape), rules, look, s, name, names, ahead)
  {
  }

  /** Any run of the driver over a list's tokens that returns has built, in the heap, one list of exactly these
      tokens. */
  method ListInPlace(tokens: seq<Token>, n: nat) returns (stack: TreeBuilder.ValueStack)
    requires AreItems(tokens)
    ensures stack.Valid()
    ensures Turns(ListConf(), Start(ListTable()), tokens, n).Done? ==>
              && stack.values != [] && Last(stack.values).VTree? && Last(stack.values).data == "list"
              && Last(stack.values).list.items
                 == seq(|tokens|, i requires 0 <= i < |tokens| => TreeBuilder.VToken(tokens[i].typ, tokens[i].text))
  {
    hide Turns;
    hide ValidTable;
    hide ShapesFit;
    hide Derivation;
    ListTableIsValid();
    ListShapesFit();
    ItemsAreTerminal(tokens);
    stack := RunInPlace(ListTable(), LIST_RULES, LIST_ITEMS, ListShape, tokens, n);
    ghost var end := Turns(ListConf(), Start(ListTable()), tokens, n);
    if end.Done? {
      ghost var t :| Derivation(t, LIST_RULES) && t.Node? && Root(t) == ListTable().start && Yield(t) == tokens
                     && end.value == Eval(ListConf(), t);
      DerivedListIsFlat(t);
      TopIsList(stack, tokens);
    }
  }

  lemma TopIsList(stack: TreeBuilder.ValueStack, tokens: seq<Token>)
    requires stack.Valid() && stack.model != [] && Last(stack.model) == TreeBuilder.Sub("list", ItemsOf(tokens))
    ensures stack.values != [] && Last(stack.values).VTree? && Last(stack.values).data == "list"
    ensures Last(stack.values).list.items
            == seq(|tokens|, i requires 0 <= i < |tokens| => TreeBuilder.VToken(tokens[i].typ, tokens[i].text))
  {
    var list := Last(stack.values).list;
    assert list.Closed() && list.model == ItemsOf(tokens);
    TreeBuilder.OpenList(list);
    forall i | 0 <= i < |tokens|
      ensures list.items[i] == TreeBuilder.VToken(tokens[i].typ, tokens[i].text)
    {
      assert list.model[i] == TreeBuilder.Token(tokens[i].typ, tokens[i].text);
    }
  }
}
