/** The tree transformers of tools/schema/matter_grammar.js on values: the recursive one and the postfix machine. */
module Transformer {
  type Name = string

  datatype Tree = Tree(data: Name, kids: seq<Node>, meta: int)

  /** A child of a tree, or the result of a callback: a tree, a token, or any other value. */
  datatype Node = Sub(tree: Tree) | Token(typ: Name, text: string) | Other(id: int)

  datatype Outcome = Keep(node: Node) | Discard

  /** The user's callbacks, with `__default__` and `__default_token__` for names that have none. */
  datatype Callbacks = Callbacks(onTree: (Name, seq<Node>, int) -> Outcome, onToken: (Name, string) -> Outcome,
                                 visitTokens: bool)

  // ----- Transformer

  /** `_transform_tree` */
  function Transform(c: Callbacks, t: Tree): Outcome
    decreases t, 1
  {
    c.onTree(t.data, TransformKids(c, t.kids), t.meta)
  }

  /** What becomes of one child. */
  function TransformNode(c: Callbacks, n: Node): Outcome
    decreases n, 2
  {
    match n
    case Sub(t) => Transform(c, t)
    case Token(typ, text) => if c.visitTokens then c.onToken(typ, text) else Keep(n)
    case Other(_) => Keep(n)
  }

  function Kept(o: Outcome): seq<Node> {
    match o
    case Keep(n) => [n]
    case Discard => []
  }

  /** `_transform_children`: the outcomes that are not Discard. */
  function TransformKids(c: Callbacks, kids: seq<Node>): seq<Node>
    decreases kids, 0
  {
    if kids == [] then []
    else
      assert kids[|kids| - 1] in kids;
      TransformKids(c, kids[..|kids| - 1]) + Kept(TransformNode(c, kids[|kids| - 1]))
  }

  // ----- Transformer_NonRecursive

  /** Nodes after their children, left to right. */
  function Postfix(n: Node): seq<Node>
    decreases n, 1
  {
    if n.Sub? then PostfixAll(n.tree.kids) + [n] else [n]
  }

  function PostfixAll(ns: seq<Node>): seq<Node>
    decreases ns, 0
  {
    if ns == [] then []
    else
      assert ns[|ns| - 1] in ns;
      PostfixAll(ns[..|ns| - 1]) + Postfix(ns[|ns| - 1])
  }

  function Reverse<T>(s: seq<T>): seq<T> {
    if s == [] then [] else Reverse(s[1..]) + [s[0]]
  }

  lemma {:induction false} ReverseAppend<T>(a: seq<T>, b: seq<T>)
    ensures Reverse(a + b) == Reverse(b) + Reverse(a)
  {
    if a == [] {
      assert a + b == b;
    } else {
      assert (a + b)[1..] == a[1..] + b;
      ReverseAppend(a[1..], b);
    }
  }

  lemma {:induction false} ReverseTwice<T>(s: seq<T>)
    ensures Reverse(Reverse(s)) == s && |Reverse(s)| == |s|
  {
    if s != [] {
      ReverseTwice(s[1..]);
      ReverseAppend(Reverse(s[1..]), [s[0]]);
    }
  }

  /** The explicit stack of the first loop: the last entry and all below it come next. */
  function Pending(q: seq<Node>): seq<Node> {
    Reverse(PostfixAll(q))
  }

  lemma PendingPop(q: seq<Node>, n: Node)
    ensures Pending(q + [n]) == [n] + Pending(q + if n.Sub? then n.tree.kids else [])
  {
    var kids := if n.Sub? then n.tree.kids else [];
    assert (q + [n])[..|q|] == q;
    PostfixAppend(q, kids);
    assert Postfix(n) == PostfixAll(kids) + [n];
    assert PostfixAll(q + [n]) == PostfixAll(q + kids) + [n];
    ReverseAppend(PostfixAll(q + kids), [n]);
    assert Reverse([n]) == [n];
  }

  lemma {:induction false} PostfixAppend(a: seq<Node>, b: seq<Node>)
    ensures PostfixAll(a + b) == PostfixAll(a) + PostfixAll(b)
  {
    if b == [] {
      assert a + b == a;
    } else {
      var n := |b| - 1;
      assert (a + b)[..|a + b| - 1] == a + b[..n];
      PostfixAppend(a, b[..n]);
    }
  }

  /** How many nodes are still to come off the explicit stack. */
  function Weight(q: seq<Node>): nat {
    |PostfixAll(q)|
  }

  /** The first loop of `transform`. */
  method ToReversePostfix(tree: Tree) returns (revPostfix: seq<Node>)
    ensures revPostfix == Reverse(Postfix(Sub(tree)))
  {
    revPostfix := [];
    var q := [Sub(tree)];
    assert PostfixAll(q) == Postfix(Sub(tree)) by { assert q[..0] == []; }
    while |q| > 0
      invariant revPostfix + Pending(q) == Reverse(Postfix(Sub(tree)))
      decreases Weight(q)
    {
      var t := q[|q| - 1];
      ghost var before := q;
      q := q[..|q| - 1];
      assert before == q + [t];
      PendingPop(q, t);
      revPostfix := revPostfix + [t];
      ReverseTwice(PostfixAll(before));
      if t.Sub? {
        q := q + t.tree.kids;
      } else {
        assert q + [] == q;
      }
      ReverseTwice(PostfixAll(q));
    }
  }

  /** One node of the postfix list: its last |children| values on the stack make way for the outcome.
      `slice(-size)` takes the whole stack if it is shorter. */
  function Operate(c: Callbacks, stack: seq<Node>, x: Node): seq<Node> {
    match x
    case Sub(t) =>
      var size := if |t.kids| <= |stack| then |t.kids| else |stack|;
      stack[..|stack| - size] + Kept(c.onTree(t.data, stack[|stack| - size..], t.meta))
    case Token(typ, text) => stack + Kept(if c.visitTokens then c.onToken(typ, text) else Keep(x))
    case Other(_) => stack + [x]
  }

  function Machine(c: Callbacks, stack: seq<Node>, postfix: seq<Node>): seq<Node>
    decreases postfix
  {
    if postfix == [] then stack else Machine(c, Operate(c, stack, postfix[0]), postfix[1..])
  }

  /** `transform`: the bottom of the stack that is left, or undefined. */
  method TransformNonRecursive(c: Callbacks, tree: Tree) returns (result: seq<Node>)
    ensures result == Machine(c, [], Postfix(Sub(tree)))[..if |Machine(c, [], Postfix(Sub(tree)))| > 0 then 1 else 0]
  {
    var revPostfix := ToReversePostfix(tree);
    ReverseTwice(Postfix(Sub(tree)));
    var postfix := Reverse(revPostfix);
    var stack: seq<Node> := [];
    var i := 0;
    while i < |postfix|
      invariant i <= |postfix|
      invariant Machine(c, stack, postfix[i..]) == Machine(c, [], postfix)
    {
      assert postfix[i..][0] == postfix[i] && postfix[i..][1..] == postfix[i + 1..];
      stack := Operate(c, stack, postfix[i]);
      i := i + 1;
    }
    result := if |stack| > 0 then stack[..1] else [];
  }

  // ----- the calls that are made

  /** A call of a tree's or a token's callback. */
  datatype Call = OnTree(data: Name, kids: seq<Node>, meta: int) | OnToken(typ: Name, text: string)

  /** The recursive transformer's calls, in order. */
  function Calls(c: Callbacks, n: Node): seq<Call>
    decreases n, 1
  {
    match n
    case Sub(t) => CallsAll(c, t.kids) + [OnTree(t.data, TransformKids(c, t.kids), t.meta)]
    case Token(typ, text) => if c.visitTokens then [OnToken(typ, text)] else []
    case Other(_) => []
  }

  function CallsAll(c: Callbacks, ns: seq<Node>): seq<Call>
    decreases ns, 0
  {
    if ns == [] then []
    else
      assert ns[|ns| - 1] in ns;
      CallsAll(c, ns[..|ns| - 1]) + Calls(c, ns[|ns| - 1])
  }

  /** The machine's call at one node of the postfix list. */
  function CallAt(c: Callbacks, stack: seq<Node>, x: Node): seq<Call> {
    match x
    case Sub(t) =>
      var size := if |t.kids| <= |stack| then |t.kids| else |stack|;
      [OnTree(t.data, stack[|stack| - size..], t.meta)]
    case Token(typ, text) => if c.visitTokens then [OnToken(typ, text)] else []
    case Other(_) => []
  }

  function MachineCalls(c: Callbacks, stack: seq<Node>, postfix: seq<Node>): seq<Call>
    decreases postfix
  {
    if postfix == [] then []
    else CallAt(c, stack, postfix[0]) + MachineCalls(c, Operate(c, stack, postfix[0]), postfix[1..])
  }

  /** Every tree keeps all its children, except where nothing is left on the stack below them: nothing before it among
      its siblings, nor before any tree around it. */
  predicate KeepsPlace(c: Callbacks, n: Node, below: nat)
    decreases n, 1
  {
    n.Sub? ==>
      KeepsPlaceAll(c, n.tree.kids, below) && (below == 0 || |TransformKids(c, n.tree.kids)| == |n.tree.kids|)
  }

  predicate KeepsPlaceAll(c: Callbacks, ns: seq<Node>, below: nat)
    decreases ns, 0
  {
    ns == []
    || (assert ns[|ns| - 1] in ns;
        KeepsPlaceAll(c, ns[..|ns| - 1], below)
        && KeepsPlace(c, ns[|ns| - 1], below + |TransformKids(c, ns[..|ns| - 1])|))
  }

  /** No callback returns Discard anywhere in the tree. */
  predicate KeepsAll(c: Callbacks, n: Node)
    decreases n, 1
  {
    TransformNode(c, n).Keep? && (n.Sub? ==> KeepsAllOf(c, n.tree.kids))
  }

  predicate KeepsAllOf(c: Callbacks, ns: seq<Node>)
    decreases ns, 0
  {
    forall i :: 0 <= i < |ns| ==> KeepsAll(c, ns[i])
  }

  lemma {:induction false} MachineAppend(c: Callbacks, stack: seq<Node>, a: seq<Node>, b: seq<Node>)
    ensures Machine(c, stack, a + b) == Machine(c, Machine(c, stack, a), b)
    decreases a
  {
    if a == [] {
      assert a + b == b;
    } else {
      assert (a + b)[1..] == a[1..] + b;
      MachineAppend(c, Operate(c, stack, a[0]), a[1..], b);
    }
  }

  lemma {:induction false} CallsAppend(c: Callbacks, stack: seq<Node>, a: seq<Node>, b: seq<Node>)
    ensures MachineCalls(c, stack, a + b) == MachineCalls(c, stack, a) + MachineCalls(c, Machine(c, stack, a), b)
    decreases a
  {
    if a == [] {
      assert a + b == b;
    } else {
      assert (a + b)[1..] == a[1..] + b;
      CallsAppend(c, Operate(c, stack, a[0]), a[1..], b);
    }
  }

  lemma {:induction false} KidsKept(c: Callbacks, ns: seq<Node>)
    ensures |TransformKids(c, ns)| <= |ns|
  {
    if ns != [] {
      assert ns[|ns| - 1] in ns;
      KidsKept(c, ns[..|ns| - 1]);
    }
  }

  /** What the machine does with one node, from any stack. */
  predicate MachineFollows(c: Callbacks, stack: seq<Node>, n: Node) {
    var calls := MachineCalls(c, stack, Postfix(n));
    && |calls| == |Calls(c, n)|
    && (calls == Calls(c, n) <==> KeepsPlace(c, n, |stack|))
    && (KeepsPlace(c, n, |stack|) ==> Machine(c, stack, Postfix(n)) == stack + Kept(TransformNode(c, n)))
  }

  predicate MachineFollowsAll(c: Callbacks, stack: seq<Node>, ns: seq<Node>) {
    var calls := MachineCalls(c, stack, PostfixAll(ns));
    && |calls| == |CallsAll(c, ns)|
    && (calls == CallsAll(c, ns) <==> KeepsPlaceAll(c, ns, |stack|))
    && (KeepsPlaceAll(c, ns, |stack|) ==> Machine(c, stack, PostfixAll(ns)) == stack + TransformKids(c, ns))
  }

  lemma HalvesDiffer<T>(a: seq<T>, b: seq<T>, x: seq<T>, y: seq<T>)
    requires |a| == |x| && |b| == |y|
    ensures a + b == x + y <==> a == x && b == y
  {
    if a + b == x + y {
      assert a == (a + b)[..|a|] && x == (x + y)[..|a|];
      assert b == (a + b)[|a|..] && y == (x + y)[|a|..];
    }
  }

  lemma {:induction false} MachineNode(c: Callbacks, stack: seq<Node>, n: Node)
    ensures MachineFollows(c, stack, n)
    decreases n, 1
  {
    if n.Sub? {
      MachineNodes(c, stack, n.tree.kids);
      MachineTree(c, stack, n.tree);
    } else {
      assert Machine(c, stack, [n]) == Operate(c, stack, n);
      assert [n][1..] == [] && MachineCalls(c, stack, [n]) == CallAt(c, stack, n) + [];
    }
  }

  lemma MachineTree(c: Callbacks, stack: seq<Node>, t: Tree)
    requires MachineFollowsAll(c, stack, t.kids)
    ensures MachineFollows(c, stack, Sub(t))
  {
    var kids, n := t.kids, Sub(t);
    var full, made := Machine(c, stack, PostfixAll(kids)), TransformKids(c, kids);
    CallsAppend(c, stack, PostfixAll(kids), [n]);
    MachineAppend(c, stack, PostfixAll(kids), [n]);
    assert [n][1..] == [] && Machine(c, full, [n]) == Operate(c, full, n);
    assert MachineCalls(c, full, [n]) == CallAt(c, full, n) + [] == CallAt(c, full, n);
    HalvesDiffer(MachineCalls(c, stack, PostfixAll(kids)), CallAt(c, full, n),
                 CallsAll(c, kids), [OnTree(t.data, made, t.meta)]);
    if KeepsPlaceAll(c, kids, |stack|) {
      KidsKept(c, kids);
      var size := if |kids| <= |full| then |kids| else |full|;
      assert full == stack + made;
      assert size == |made| <==> stack == [] || |made| == |kids|;
      if size == |made| {
        assert full[|full| - size..] == made && full[..|full| - size] == stack;
      } else {
        assert |full[|full| - size..]| != |made|;
      }
    }
  }

  lemma {:induction false} MachineNodes(c: Callbacks, stack: seq<Node>, ns: seq<Node>)
    ensures MachineFollowsAll(c, stack, ns)
    decreases ns, 0
  {
    if ns == [] {
      assert stack + [] == stack;
    } else {
      var before, last := ns[..|ns| - 1], ns[|ns| - 1];
      assert last in ns;
      MachineNodes(c, stack, before);
      MachineNode(c, Machine(c, stack, PostfixAll(before)), last);
      MachineLast(c, stack, ns);
    }
  }

  lemma MachineLast(c: Callbacks, stack: seq<Node>, ns: seq<Node>)
    requires ns != [] && MachineFollowsAll(c, stack, ns[..|ns| - 1])
    requires MachineFollows(c, Machine(c, stack, PostfixAll(ns[..|ns| - 1])), ns[|ns| - 1])
    ensures MachineFollowsAll(c, stack, ns)
  {
    hide PostfixAll;
    hide CallsAll;
    hide TransformKids;
    hide TransformNode;
    hide KeepsPlaceAll;
    hide Postfix;
    hide Calls;
    hide KeepsPlace;
    hide Machine;
    hide MachineCalls;
    hide Kept;
    var before, last := ns[..|ns| - 1], ns[|ns| - 1];
    var mid, made, kept := Machine(c, stack, PostfixAll(before)), TransformKids(c, before),
        Kept(TransformNode(c, last));
    var a, x := MachineCalls(c, stack, PostfixAll(before)), CallsAll(c, before);
    var b, y := MachineCalls(c, mid, Postfix(last)), Calls(c, last);
    var end := Machine(c, mid, Postfix(last));
    var keepsA, keepsB := KeepsPlaceAll(c, before, |stack|), KeepsPlace(c, last, |mid|);
    var expected := KeepsPlace(c, last, |stack| + |made|);
    Halves(stack, made, kept, a, x, keepsA, mid, b, y, keepsB, expected, end);
    AllOfLast(c, ns, |stack|);
    CallsAppend(c, stack, PostfixAll(before), Postfix(last));
    MachineAppend(c, stack, PostfixAll(before), Postfix(last));
    assert MachineCalls(c, stack, PostfixAll(ns)) == a + b && CallsAll(c, ns) == x + y;
    assert Machine(c, stack, PostfixAll(ns)) == end && TransformKids(c, ns) == made + kept;
  }

  /** Two runs of the machine, one after the other: calls, expected calls, whether it keeps its place, and the stack
      left. */
  lemma Halves<T>(stack: seq<Node>, made: seq<Node>, kept: seq<Node>,
                  a: seq<T>, x: seq<T>, keepsA: bool, mid: seq<Node>,
                  b: seq<T>, y: seq<T>, keepsB: bool, expected: bool, end: seq<Node>)
    requires |a| == |x| && (a == x <==> keepsA) && (keepsA ==> mid == stack + made)
    requires |b| == |y| && (b == y <==> keepsB) && (keepsB ==> end == mid + kept)
    requires |mid| == |stack| + |made| ==> keepsB == expected
    ensures |a + b| == |x + y| && (a + b == x + y <==> keepsA && expected)
    ensures keepsA && expected ==> end == stack + (made + kept)
  {
    HalvesDiffer(a, b, x, y);
    assert stack + (made + kept) == stack + made + kept;
  }

  lemma AllOfLast(c: Callbacks, ns: seq<Node>, below: nat)
    requires ns != []
    ensures var before, last := ns[..|ns| - 1], ns[|ns| - 1];
            && PostfixAll(ns) == PostfixAll(before) + Postfix(last)
            && CallsAll(c, ns) == CallsAll(c, before) + Calls(c, last)
            && TransformKids(c, ns) == TransformKids(c, before) + Kept(TransformNode(c, last))
            && (KeepsPlaceAll(c, ns, below) <==>
                  KeepsPlaceAll(c, before, below) && KeepsPlace(c, last, below + |TransformKids(c, before)|))
  {
  }

  /** The postfix machine makes the recursive transformer's callback calls, of trees and of tokens, in order and with
      equal arguments, exactly when discarded children leave nothing else within its reach; it then leaves the
      recursive result, or an empty stack where the root's own callback discards. */
  lemma NonRecursiveAgreesIff(c: Callbacks, tree: Tree)
    ensures MachineCalls(c, [], Postfix(Sub(tree))) == Calls(c, Sub(tree)) <==> KeepsPlace(c, Sub(tree), 0)
    ensures KeepsPlace(c, Sub(tree), 0) ==>
              Machine(c, [], Postfix(Sub(tree))) == match Transform(c, tree) case Keep(n) => [n] case Discard => []
  {
    MachineNode(c, [], Sub(tree));
    assert [] + Kept(Transform(c, tree)) == Kept(Transform(c, tree));
  }

  lemma {:induction false} KeepingKeepsPlace(c: Callbacks, n: Node, below: nat)
    requires KeepsAll(c, n)
    ensures KeepsPlace(c, n, below)
    decreases n, 1
  {
    if n.Sub? {
      KeepingKeepsPlaceAll(c, n.tree.kids, below);
    }
  }

  lemma {:induction false} KeepingKeepsPlaceAll(c: Callbacks, ns: seq<Node>, below: nat)
    requires KeepsAllOf(c, ns)
    ensures KeepsPlaceAll(c, ns, below) && |TransformKids(c, ns)| == |ns|
    decreases ns, 0
  {
    if ns != [] {
      assert ns[|ns| - 1] in ns;
      KeepingKeepsPlaceAll(c, ns[..|ns| - 1], below);
      KeepingKeepsPlace(c, ns[|ns| - 1], below + |TransformKids(c, ns[..|ns| - 1])|);
    }
  }

  /** Without Discard the postfix machine leaves exactly the recursive transformer's result. */
  lemma NonRecursiveAgrees(c: Callbacks, tree: Tree)
    requires KeepsAll(c, Sub(tree))
    ensures MachineCalls(c, [], Postfix(Sub(tree))) == Calls(c, Sub(tree))
    ensures Machine(c, [], Postfix(Sub(tree))) == [Transform(c, tree).node]
  {
    KeepingKeepsPlace(c, Sub(tree), 0);
    NonRecursiveAgreesIff(c, tree);
  }

  // ----- and with Discard

  /** A callback set that discards tokens "x" and copies trees. */
  function DropX(): Callbacks {
    Callbacks((data, kids, meta) => Keep(Sub(Tree(data, kids, meta))),
              (typ, text) => if typ == "x" then Discard else Keep(Token(typ, text)),
              true)
  }

  const Y := Token("y", "1")
  const X := Token("x", "2")
  const A := Sub(Tree("a", [X], 0))

  /** After a discarded child the machine takes too many values: from r(y, a(x)) it makes r(a(y)), where the recursive
      transformer makes r(y, a()). */
  lemma NonRecursiveLosesItsPlace()
    ensures Transform(DropX(), Tree("r", [Y, A], 0)) == Keep(Sub(Tree("r", [Y, Sub(Tree("a", [], 0))], 0)))
    ensures Machine(DropX(), [], Postfix(Sub(Tree("r", [Y, A], 0)))) == [Sub(Tree("r", [Sub(Tree("a", [Y], 0))], 0))]
  {
    RecursiveOnExample();
    PostfixOfExample();
    MachineOnExample();
  }

  lemma RecursiveOnExample()
    ensures Transform(DropX(), Tree("r", [Y, A], 0)) == Keep(Sub(Tree("r", [Y, Sub(Tree("a", [], 0))], 0)))
  {
    var c := DropX();
    var a := Sub(Tree("a", [], 0));
    assert [X] == [] + [X] && [Y] == [] + [Y] && [Y, A] == [Y] + [A];
    KidsSnoc(c, [], X);
    KidsSnoc(c, [], Y);
    KidsSnoc(c, [Y], A);
    assert c.onToken("x", "2") == Discard && c.onToken("y", "1") == Keep(Y);
    assert TransformKids(c, [X]) == [];
    assert TransformNode(c, A) == Keep(a);
    assert TransformKids(c, [Y, A]) == [Y, a];
  }

  lemma KidsSnoc(c: Callbacks, ns: seq<Node>, n: Node)
    ensures TransformKids(c, ns + [n]) == TransformKids(c, ns) + Kept(TransformNode(c, n))
  {
    assert (ns + [n])[..|ns|] == ns;
  }

  lemma PostfixOfExample()
    ensures Postfix(Sub(Tree("r", [Y, A], 0))) == [Y, X, A, Sub(Tree("r", [Y, A], 0))]
  {
    assert [X][..0] == [] && [Y][..0] == [] && [Y, A][..1] == [Y];
    assert PostfixAll([X]) == [X];
    assert PostfixAll([Y]) == [Y];
    assert PostfixAll([Y, A]) == [Y, X, A];
  }

  lemma MachineOnExample()
    ensures Machine(DropX(), [], [Y, X, A, Sub(Tree("r", [Y, A], 0))]) == [Sub(Tree("r", [Sub(Tree("a", [Y], 0))], 0))]
  {
    var c, r := DropX(), Sub(Tree("r", [Y, A], 0));
    var a := Sub(Tree("a", [Y], 0));
    assert Operate(c, [], Y) == [Y] && Operate(c, [Y], X) == [Y];
    assert Operate(c, [Y], A) == [a] && Operate(c, [a], r) == [Sub(Tree("r", [a], 0))];
    assert [Y, X, A, r] == [Y] + [X, A, r] && [X, A, r] == [X] + [A, r] && [A, r] == [A] + [r] && [r] == [r] + [];
    MachineStep(c, [], Y, [X, A, r]);
    MachineStep(c, [Y], X, [A, r]);
    MachineStep(c, [Y], A, [r]);
    MachineStep(c, [a], r, []);
  }

  lemma MachineStep(c: Callbacks, stack: seq<Node>, x: Node, rest: seq<Node>)
    ensures Machine(c, stack, [x] + rest) == Machine(c, Operate(c, stack, x), rest)
  {
    assert ([x] + rest)[1..] == rest;
  }
}
