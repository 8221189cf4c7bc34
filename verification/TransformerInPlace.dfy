/** `Tree.iter_subtrees` and `Transformer_InPlace` of tools/schema/matter_grammar.js: every node's children are
    replaced in the node itself, deepest nodes first. */
module TransformerInPlace {
  import opened Transformer

  /** A child: a tree node, or a value that is none (a token, another value, the result of a callback). */
  datatype Item = Branch(node: TreeNode) | Leaf(value: Node)

  class TreeNode {
    const data: Name
    const meta: int
    var kids: seq<Item>
    ghost var model: Tree
    ghost var repr: set<TreeNode>

    /** The nodes below form a tree, with no node under two parents, that stands for `model`; `repr` holds just them. */
    ghost predicate Closed()
      reads this, repr
      decreases repr, 0
    {
      this in repr && model.data == data && model.meta == meta
      && ClosedKids(kids, model.kids, repr - {this})
      && (forall x :: x in repr && x != this ==>
            exists i :: 0 <= i < |kids| && kids[i].Branch? && x in kids[i].node.repr)
    }
  }

  ghost predicate ClosedKids(kids: seq<Item>, model: seq<Node>, below: set<TreeNode>)
    reads below
    decreases below, 1
  {
    |kids| == |model|
    && (forall i :: 0 <= i < |kids| ==>
          match kids[i]
          case Leaf(v) => !v.Sub? && model[i] == v
          case Branch(n) => n in below && n.repr <= below && n.Closed() && model[i] == Sub(n.model))
    && (forall i, j :: 0 <= i < j < |kids| && kids[i].Branch? && kids[j].Branch?
          ==> kids[i].node in below && kids[j].node in below && kids[i].node.repr !! kids[j].node.repr)
  }

  /** The children that are nodes, in order. */
  function Branches(kids: seq<Item>): seq<TreeNode> {
    if kids == [] then []
    else
      var n := |kids| - 1;
      Branches(kids[..n]) + if kids[n].Branch? then [kids[n].node] else []
  }

  /** Distinct trees that share no node. */
  ghost predicate Apart(ns: seq<TreeNode>, below: set<TreeNode>)
    reads below
  {
    (forall i :: 0 <= i < |ns| ==> ns[i] in below && ns[i].repr <= below && ns[i].Closed())
    && (forall i, j :: 0 <= i < j < |ns| ==> ns[i] in below && ns[j] in below && ns[i].repr !! ns[j].repr)
  }

  lemma {:induction false} BranchesMembers(kids: seq<Item>)
    ensures forall n :: n in Branches(kids) <==> exists i :: 0 <= i < |kids| && kids[i] == Branch(n)
  {
    if kids != [] {
      var k := |kids| - 1;
      BranchesMembers(kids[..k]);
      forall n
        ensures n in Branches(kids) <==> exists i :: 0 <= i < |kids| && kids[i] == Branch(n)
      {
        if n in Branches(kids[..k]) {
          var i :| 0 <= i < k && kids[..k][i] == Branch(n);
          assert kids[i] == Branch(n);
        }
        if i :| 0 <= i < |kids| && kids[i] == Branch(n) {
          if i < k {
            assert kids[..k][i] == Branch(n);
          }
        }
      }
    }
  }

  lemma {:induction false} BranchesApart(kids: seq<Item>, model: seq<Node>, below: set<TreeNode>)
    requires ClosedKids(kids, model, below)
    ensures Apart(Branches(kids), below)
  {
    if kids != [] {
      var k := |kids| - 1;
      assert ClosedKids(kids[..k], model[..k], below);
      BranchesApart(kids[..k], model[..k], below);
      BranchesMembers(kids[..k]);
      if kids[k].Branch? {
        forall m | m in Branches(kids[..k])
          ensures m in below && m.repr !! kids[k].node.repr
        {
          var i :| 0 <= i < k && kids[..k][i] == Branch(m);
          assert kids[i] == Branch(m);
        }
      }
    }
  }

  lemma {:induction false} ReverseMembers<T>(s: seq<T>)
    ensures |Reverse(s)| == |s| && forall x :: x in Reverse(s) <==> x in s
  {
    if s != [] {
      ReverseMembers(s[1..]);
      assert s == [s[0]] + s[1..];
    }
  }

  lemma {:induction false} ReverseApart(ns: seq<TreeNode>, below: set<TreeNode>)
    requires Apart(ns, below)
    ensures Apart(Reverse(ns), below)
  {
    if ns != [] {
      ReverseApart(ns[1..], below);
      ReverseMembers(ns[1..]);
      forall m | m in Reverse(ns[1..])
        ensures m in below && m.repr !! ns[0].repr
      {
        var i :| 0 <= i < |ns[1..]| && ns[1..][i] == m;
        assert ns[i + 1] == m;
      }
    }
  }

  predicate Distinct<T(==)>(s: seq<T>) {
    forall i, j :: 0 <= i < j < |s| ==> s[i] != s[j]
  }

  /** What visiting the nodes of `visited` adds to the queue of `iter_subtrees`. */
  function Grown(visited: seq<TreeNode>): seq<TreeNode>
    reads visited
  {
    if visited == [] then []
    else
      var n := |visited| - 1;
      Grown(visited[..n]) + Reverse(Branches(visited[n].kids))
  }

  /** The nodes whose callbacks run while the children of `order` are replaced, in that order. */
  function Called(order: seq<TreeNode>): seq<TreeNode>
    reads order
  {
    if order == [] then []
    else
      var n := |order| - 1;
      Called(order[..n]) + Branches(order[n].kids)
  }

  lemma {:induction false} CalledCons(n: TreeNode, order: seq<TreeNode>)
    ensures Called([n] + order) == Branches(n.kids) + Called(order)
  {
    if order == [] {
      assert [n] + [] == [n] && [n][..0] == [];
      assert Called([n]) == Called([]) + Branches(n.kids);
    } else {
      var k := |order| - 1;
      assert ([n] + order)[..|order|] == [n] + order[..k];
      CalledCons(n, order[..k]);
    }
  }

  lemma {:induction false} ReversedQueue(visited: seq<TreeNode>)
    ensures Reverse(Grown(visited)) == Called(Reverse(visited))
  {
    if visited != [] {
      var k := |visited| - 1;
      var n := visited[k];
      ReversedQueue(visited[..k]);
      ReverseAppend(Grown(visited[..k]), Reverse(Branches(n.kids)));
      ReverseTwice(Branches(n.kids));
      ReverseAppend(visited[..k], [n]);
      assert visited == visited[..k] + [n] && Reverse([n]) == [n];
      CalledCons(n, Reverse(visited[..k]));
    }
  }

  /** `filter(c => !subtrees.has(c))` */
  function Unseen(ns: seq<TreeNode>, seen: seq<TreeNode>): seq<TreeNode> {
    if ns == [] then []
    else (if ns[0] in seen then [] else [ns[0]]) + Unseen(ns[1..], seen)
  }

  lemma {:induction false} AllUnseen(ns: seq<TreeNode>, seen: seq<TreeNode>)
    requires forall n :: n in ns ==> n !in seen
    ensures Unseen(ns, seen) == ns
  {
    if ns != [] {
      assert ns == [ns[0]] + ns[1..];
      AllUnseen(ns[1..], seen);
    }
  }

  /** Some tree of `ns` holds the node. */
  ghost predicate Held(x: TreeNode, ns: seq<TreeNode>)
    reads ns
  {
    exists j :: 0 <= j < |ns| && x in ns[j].repr
  }

  /** The children of a node, last first. */
  function Backwards(n: TreeNode): seq<TreeNode>
    reads n
  {
    Reverse(Branches(n.kids))
  }

  lemma BackwardsMembers(n: TreeNode)
    ensures forall c :: c in Backwards(n) <==> exists i :: 0 <= i < |n.kids| && n.kids[i] == Branch(c)
  {
    BranchesMembers(n.kids);
    ReverseMembers(Branches(n.kids));
  }

  lemma ChildrenApart(n: TreeNode)
    requires n.Closed()
    ensures Apart(Backwards(n), n.repr - {n})
  {
    BranchesApart(n.kids, n.model.kids, n.repr - {n});
    ReverseApart(Branches(n.kids), n.repr - {n});
  }

  lemma ChildrenHold(n: TreeNode, x: TreeNode)
    requires n.Closed() && x in n.repr && x != n
    ensures Held(x, Backwards(n))
  {
    hide ClosedKids;
    var i :| 0 <= i < |n.kids| && n.kids[i].Branch? && x in n.kids[i].node.repr;
    var c := n.kids[i].node;
    BackwardsMembers(n);
    assert n.kids[i] == Branch(c);
    assert c in Backwards(n);
    var m :| 0 <= m < |Backwards(n)| && Backwards(n)[m] == c;
  }

  lemma HeldBelow(x: TreeNode, ns: seq<TreeNode>, below: set<TreeNode>)
    requires Apart(ns, below) && Held(x, ns)
    ensures x in below
  {
  }

  lemma HeldAppend(x: TreeNode, a: seq<TreeNode>, b: seq<TreeNode>)
    ensures Held(x, a + b) <==> Held(x, a) || Held(x, b)
  {
    if i :| 0 <= i < |a| && x in a[i].repr {
      assert (a + b)[i] == a[i];
    }
    if i :| 0 <= i < |b| && x in b[i].repr {
      assert (a + b)[|a| + i] == b[i];
    }
    if i :| 0 <= i < |a + b| && x in (a + b)[i].repr {
      assert (a + b)[i] == if i < |a| then a[i] else b[i - |a|];
    }
  }

  lemma HeldOne(x: TreeNode, n: TreeNode)
    ensures Held(x, [n]) <==> x in n.repr
  {
    assert [n][0] == n;
  }

  lemma HeldSelf(n: TreeNode, ns: seq<TreeNode>, below: set<TreeNode>)
    requires Apart(ns, below) && n in ns
    ensures n in n.repr && n in below && Held(n, ns)
  {
    var i :| 0 <= i < |ns| && ns[i] == n;
    assert ns[i].Closed();
  }

  lemma ApartJoin(a: seq<TreeNode>, fa: set<TreeNode>, b: seq<TreeNode>, fb: set<TreeNode>)
    requires Apart(a, fa) && Apart(b, fb)
    requires forall i :: 0 <= i < |a| ==> a[i] in fa && a[i].repr !! fb
    ensures Apart(a + b, fa + fb)
  {
    var ns := a + b;
    forall i, j | 0 <= i < j < |ns|
      ensures ns[i] in fa + fb && ns[j] in fa + fb && ns[i].repr !! ns[j].repr
    {
      assert ns[i] == if i < |a| then a[i] else b[i - |a|];
      assert ns[j] == if j < |a| then a[j] else b[j - |a|];
    }
  }

  /** Where the breadth-first walk is: visited nodes are behind it, the pending ones are roots of trees that share
      nothing, and together they hold every node. */
  ghost predicate Walking(visited: seq<TreeNode>, pending: seq<TreeNode>, all: set<TreeNode>)
    reads all, pending
  {
    && Apart(pending, all)
    && Distinct(visited)
    && (forall n :: n in visited ==> n in all && !Held(n, pending))
    && (forall x :: x in all ==> x in visited || Held(x, pending))
  }

  /** The trees still pending once the first has been visited. */
  function Next(pending: seq<TreeNode>): seq<TreeNode>
    requires pending != []
    reads pending
  {
    pending[1..] + Backwards(pending[0])
  }

  lemma NextApart(pending: seq<TreeNode>, all: set<TreeNode>)
    requires Apart(pending, all) && pending != []
    ensures Apart(Next(pending), all)
  {
    var n, later := pending[0], pending[1..];
    ChildrenApart(n);
    assert forall i :: 0 <= i < |later| ==> later[i] == pending[i + 1];
    ApartJoin(later, all, Backwards(n), n.repr - {n});
    assert all + (n.repr - {n}) == all;
  }

  /** The next trees hold what the pending ones hold, but for the visited node. */
  lemma NextHolds(pending: seq<TreeNode>, all: set<TreeNode>, x: TreeNode)
    requires Apart(pending, all) && pending != []
    ensures Held(x, Next(pending)) <==> Held(x, pending) && x != pending[0]
  {
    var n, later := pending[0], pending[1..];
    assert pending == [n] + later;
    assert pending[0].Closed() && forall i :: 0 <= i < |later| ==> later[i] == pending[i + 1];
    FirstNotLater(pending, all);
    ChildrenApart(n);
    HeldAppend(x, later, Backwards(n));
    HeldAppend(x, [n], later);
    HeldOne(x, n);
    hide Apart;
    if x in n.repr && x != n {
      ChildrenHold(n, x);
    }
    if Held(x, Backwards(n)) {
      HeldBelow(x, Backwards(n), n.repr - {n});
    }
  }

  lemma FirstNotLater(pending: seq<TreeNode>, all: set<TreeNode>)
    requires Apart(pending, all) && pending != []
    ensures pending[0] in pending[0].repr && !Held(pending[0], pending[1..])
  {
    assert pending[0].Closed();
    forall i | 0 <= i < |pending[1..]|
      ensures pending[0] !in pending[1..][i].repr
    {
      assert pending[1..][i] == pending[i + 1];
    }
  }

  lemma WalkOn(visited: seq<TreeNode>, pending: seq<TreeNode>, all: set<TreeNode>)
    requires Walking(visited, pending, all) && pending != []
    ensures pending[0] in all && pending[0] !in visited
    ensures forall c :: c in Backwards(pending[0]) ==> c !in visited + [pending[0]]
    ensures Walking(visited + [pending[0]], Next(pending), all)
  {
    var n := pending[0];
    HeldSelf(n, pending, all);
    NextApart(pending, all);
    forall x
      ensures Held(x, Next(pending)) <==> Held(x, pending) && x != n
    {
      NextHolds(pending, all, x);
    }
    forall c | c in Backwards(n)
      ensures c !in visited + [n]
    {
      assert c in Next(pending);
      HeldSelf(c, Next(pending), all);
    }
  }

  /** Every child node of `order[i]` stands before it. */
  ghost predicate ChildrenFirst(order: seq<TreeNode>)
    reads order
  {
    forall i, j :: 0 <= i < |order| && 0 <= j < |order[i].kids| && order[i].kids[j].Branch?
      ==> order[i].kids[j].node in order[..i]
  }

  /** The children of the visited nodes are further back in the queue. */
  ghost predicate ChildrenLater(queue: seq<TreeNode>, i: nat)
    requires i <= |queue|
    reads queue
  {
    forall p, c :: 0 <= p < i && c in Backwards(queue[p]) ==> c in queue[p + 1..]
  }

  lemma ChildrenLaterStep(queue: seq<TreeNode>, i: nat, more: seq<TreeNode>)
    requires i < |queue| && ChildrenLater(queue, i) && more == Backwards(queue[i])
    ensures ChildrenLater(queue + more, i + 1)
  {
    forall p, c | 0 <= p < i + 1 && c in Backwards((queue + more)[p])
      ensures c in (queue + more)[p + 1..]
    {
      assert (queue + more)[p + 1..] == queue[p + 1..] + more;
      if p < i {
        assert c in queue[p + 1..];
      }
    }
  }

  lemma WalkStarts(root: TreeNode)
    requires root.Closed()
    ensures Walking([], [root], root.repr)
  {
    assert forall x :: x in root.repr ==> x in [root][0].repr;
  }

  function Nodes(ns: seq<TreeNode>): set<TreeNode> {
    set n | n in ns
  }

  lemma GrownSnoc(visited: seq<TreeNode>, n: TreeNode)
    ensures Grown(visited + [n]) == Grown(visited) + Backwards(n)
  {
    assert (visited + [n])[..|visited|] == visited;
  }

  /** `iter_subtrees`: the nodes of the tree, each once, children before parents. */
  method IterSubtrees(root: TreeNode) returns (order: seq<TreeNode>)
    requires root.Closed()
    ensures Distinct(order) && (forall n :: n in order <==> n in root.repr)
    ensures ChildrenFirst(order)
    ensures order == Called(order) + [root]
  {
    hide Walking;
    hide Grown;
    hide ChildrenLater;
    hide Branches;
    hide Unseen;
    hide Reverse;
    var queue := [root];
    var i := 0;
    WalkStarts(root);
    NothingVisited([root]);
    ghost var visited: seq<TreeNode>, pending := [], [root];
    while i < |queue|
      invariant i <= |queue| && queue == visited + pending && |visited| == i
      invariant Walking(visited, pending, root.repr)
      invariant queue == [root] + Grown(visited)
      invariant ChildrenLater(queue, i)
      decreases root.repr - Nodes(visited)
    {
      var subtree := queue[i];
      assert subtree == pending[0];
      WalkOn(visited, pending, root.repr);
      var more := Reverse(Branches(subtree.kids));
      assert queue[..i + 1] == visited + [subtree];
      assert more == Backwards(subtree);
      AllUnseen(more, queue[..i + 1]);
      ChildrenLaterStep(queue, i, more);
      GrownSnoc(visited, subtree);
      assert [root] + (Grown(visited) + more) == [root] + Grown(visited) + more;
      assert visited + pending + more == visited + [subtree] + (pending[1..] + more);
      queue := queue + Unseen(more, queue[..i + 1]);
      assert subtree in root.repr - Nodes(visited) && Nodes(visited + [subtree]) == Nodes(visited) + {subtree};
      visited, pending := visited + [subtree], Next(pending);
      i := i + 1;
    }
    assert pending == [] && visited == queue;
    order := Reverse(queue);
    QueueBackwards(root, queue);
  }

  lemma NothingVisited(queue: seq<TreeNode>)
    ensures Grown([]) == [] && ChildrenLater(queue, 0)
  {
  }

  lemma ReverseAt<T>(s: seq<T>, i: nat)
    requires i < |s|
    ensures |Reverse(s)| == |s| && Reverse(s)[i] == s[|s| - 1 - i]
    decreases |s|
  {
    ReverseMembers(s);
    ReverseMembers(s[1..]);
    if i < |s| - 1 {
      ReverseAt(s[1..], i);
    }
  }

  lemma ReverseDistinct<T>(s: seq<T>)
    requires Distinct(s)
    ensures Distinct(Reverse(s))
  {
    ReverseMembers(s);
    forall i, j | 0 <= i < j < |s|
      ensures Reverse(s)[i] != Reverse(s)[j]
    {
      ReverseAt(s, i);
      ReverseAt(s, j);
    }
  }

  lemma ReverseChildren(queue: seq<TreeNode>)
    requires ChildrenLater(queue, |queue|)
    ensures ChildrenFirst(Reverse(queue))
  {
    hide Backwards;
    hide Reverse;
    hide ChildrenLater;
    var order := Reverse(queue);
    ReverseMembers(queue);
    forall i, j | 0 <= i < |order| && 0 <= j < |order[i].kids| && order[i].kids[j].Branch?
      ensures order[i].kids[j].node in order[..i]
    {
      var n := order[i];
      var c := n.kids[j].node;
      ChildComesFirst(queue, i, c);
      BackwardsMembers(n);
      assert n.kids[j] == Branch(c);
      assert c in Backwards(n);
    }
  }

  lemma ChildComesFirst(queue: seq<TreeNode>, i: nat, c: TreeNode)
    requires ChildrenLater(queue, |queue|) && i < |queue|
    ensures |Reverse(queue)| == |queue|
    ensures c in Backwards(Reverse(queue)[i]) ==> c in Reverse(queue)[..i]
  {
    var p := |queue| - 1 - i;
    ReverseAt(queue, i);
    if c in Backwards(queue[p]) {
      assert c in queue[p + 1..];
      var q :| 0 <= q < |queue[p + 1..]| && queue[p + 1..][q] == c;
      var at := |queue| - 1 - (p + 1 + q);
      ReverseAt(queue, at);
      assert Reverse(queue)[..i][at] == c;
    }
  }

  lemma QueueBackwards(root: TreeNode, queue: seq<TreeNode>)
    requires Walking(queue, [], root.repr)
    requires queue == [root] + Grown(queue) && ChildrenLater(queue, |queue|)
    ensures var order := Reverse(queue);
            Distinct(order) && (forall n :: n in order <==> n in root.repr)
            && ChildrenFirst(order) && order == Called(order) + [root]
  {
    ReverseMembers(queue);
    ReverseDistinct(queue);
    ReverseChildren(queue);
    ReversedQueue(queue);
    ReverseAppend([root], Grown(queue));
    assert Reverse([root]) == [root];
  }

  // ----- transforming

  predicate AllLeaves(kids: seq<Item>) {
    forall i :: 0 <= i < |kids| ==> kids[i].Leaf?
  }

  function Values(kids: seq<Item>): seq<Node>
    requires AllLeaves(kids)
  {
    if kids == [] then []
    else Values(kids[..|kids| - 1]) + [kids[|kids| - 1].value]
  }

  /** The node's children have been replaced by what the recursive transformer makes of `kids`. */
  ghost predicate Replaced(c: Callbacks, n: TreeNode, kids: seq<Node>)
    reads n
  {
    AllLeaves(n.kids) && Values(n.kids) == TransformKids(c, kids)
  }

  /** `_call_userfunc` */
  method CallUserfunc(c: Callbacks, n: TreeNode, ghost t: Tree) returns (o: Outcome)
    requires n.data == t.data && n.meta == t.meta && Replaced(c, n, t.kids)
    ensures o == Transform(c, t)
  {
    o := c.onTree(n.data, Values(n.kids), n.meta);
  }

  /** A child list whose nodes have all been transformed below. */
  ghost predicate Ready(c: Callbacks, kids: seq<Item>, model: seq<Node>)
    reads set i | 0 <= i < |kids| && kids[i].Branch? :: kids[i].node
  {
    |kids| == |model| && forall i :: 0 <= i < |kids| ==> ReadyChild(c, kids[i], model[i])
  }

  ghost predicate ReadyChild(c: Callbacks, kid: Item, model: Node)
    reads if kid.Branch? then {kid.node} else {}
  {
    match kid
    case Leaf(v) => !v.Sub? && model == v
    case Branch(n) =>
      model.Sub? && n.data == model.tree.data && n.meta == model.tree.meta && Replaced(c, n, model.tree.kids)
  }

  method TransformChild(c: Callbacks, kid: Item, ghost model: Node) returns (res: Outcome)
    requires ReadyChild(c, kid, model)
    ensures res == TransformNode(c, model)
  {
    match kid {
      case Branch(n) => res := CallUserfunc(c, n, model.tree);
      case Leaf(v) => res := if v.Token? && c.visitTokens then c.onToken(v.typ, v.text) else Keep(v);
    }
  }

  /** `_transform_children`, with the nodes whose callbacks ran. */
  method TransformChildren(c: Callbacks, kids: seq<Item>, ghost model: seq<Node>)
    returns (done: seq<Item>, ghost called: seq<TreeNode>)
    requires Ready(c, kids, model)
    ensures AllLeaves(done) && Values(done) == TransformKids(c, model)
    ensures called == Branches(kids)
  {
    hide TransformNode;
    hide ReadyChild;
    hide Branches;
    hide TransformKids;
    hide Values;
    done, called := [], [];
    var i := 0;
    NoChildren(c);
    assert model[..0] == [] && kids[..0] == [];
    while i < |kids|
      invariant i <= |kids|
      invariant AllLeaves(done) && Values(done) == TransformKids(c, model[..i])
      invariant called == Branches(kids[..i])
    {
      assert kids[..i + 1] == kids[..i] + [kids[i]] && model[..i + 1] == model[..i] + [model[i]];
      KidsSnoc(c, model[..i], model[i]);
      BranchesSnoc(kids[..i], kids[i]);
      var res := TransformChild(c, kids[i], model[i]);
      called := called + if kids[i].Branch? then [kids[i].node] else [];
      if res.Keep? {
        ValuesSnoc(done, res.node);
        done := done + [Leaf(res.node)];
      } else {
        assert TransformKids(c, model[..i]) + [] == TransformKids(c, model[..i]);
      }
      i := i + 1;
    }
    assert kids[..i] == kids && model[..i] == model;
  }

  lemma NoChildren(c: Callbacks)
    ensures TransformKids(c, []) == [] == Values([]) && Branches([]) == []
  {
  }

  lemma BranchesSnoc(kids: seq<Item>, kid: Item)
    ensures Branches(kids + [kid]) == Branches(kids) + if kid.Branch? then [kid.node] else []
  {
    assert (kids + [kid])[..|kids|] == kids;
  }

  lemma ValuesSnoc(kids: seq<Item>, v: Node)
    requires AllLeaves(kids)
    ensures AllLeaves(kids + [Leaf(v)]) && Values(kids + [Leaf(v)]) == Values(kids) + [v]
  {
    assert (kids + [Leaf(v)])[..|kids|] == kids;
  }

  /** `subtree.children = [...this._transform_children(subtree.children)]`; the callbacks that run are the child
      nodes'. */
  method ReplaceChildren(c: Callbacks, subtree: TreeNode, ghost kids: seq<Node>) returns (ghost called: seq<TreeNode>)
    requires Ready(c, subtree.kids, kids)
    modifies subtree`kids
    ensures Replaced(c, subtree, kids)
    ensures called == old(Branches(subtree.kids))
  {
    var done;
    done, called := TransformChildren(c, subtree.kids, kids);
    subtree.kids := done;
  }

  /** The work ahead, apart from the heap: `kids[i]` is the child list of `order[i]`, which stands for `models[i]`,
      and each child node comes earlier in `order`. */
  ghost predicate Plan(order: seq<TreeNode>, models: seq<Tree>, kids: seq<seq<Item>>) {
    |order| == |models| == |kids|
    && (forall i :: 0 <= i < |order| ==> order[i].data == models[i].data && order[i].meta == models[i].meta)
    && (forall i :: 0 <= i < |order| ==> |kids[i]| == |models[i].kids|)
    && (forall i, j :: 0 <= i < |order| && 0 <= j < |kids[i]| ==>
          Planned(order, models, i, kids[i][j], models[i].kids[j]))
  }

  ghost predicate Planned(order: seq<TreeNode>, models: seq<Tree>, i: nat, kid: Item, model: Node)
    requires i <= |order| == |models|
  {
    match kid
    case Leaf(v) => !v.Sub? && model == v
    case Branch(n) => exists k :: 0 <= k < i && order[k] == n && model == Sub(models[k])
  }

  lemma MakePlan(order: seq<TreeNode>)
    requires ChildrenFirst(order) && forall i :: 0 <= i < |order| ==> order[i].Closed()
    ensures Plan(order, Models(order), KidLists(order))
  {
    var models, kids := Models(order), KidLists(order);
    forall i, j | 0 <= i < |order| && 0 <= j < |kids[i]|
      ensures j < |models[i].kids| && Planned(order, models, i, kids[i][j], models[i].kids[j])
    {
      assert order[i].Closed();
      if kids[i][j].Branch? {
        var n := order[i].kids[j].node;
        assert n in order[..i];
        var k :| 0 <= k < i && order[k] == n;
        assert n.Closed();
      }
    }
    assert forall i :: 0 <= i < |order| ==> order[i].Closed();
  }

  lemma PlannedIsReady(c: Callbacks, order: seq<TreeNode>, models: seq<Tree>, kids: seq<seq<Item>>, i: nat)
    requires Plan(order, models, kids) && i < |order|
    requires forall k :: 0 <= k < i ==> Replaced(c, order[k], models[k].kids)
    ensures Ready(c, kids[i], models[i].kids)
  {
    hide Replaced;
    forall j | 0 <= j < |kids[i]|
      ensures ReadyChild(c, kids[i][j], models[i].kids[j])
    {
      assert Planned(order, models, i, kids[i][j], models[i].kids[j]);
    }
  }

  /** The callbacks that the plan runs. */
  function CalledIn(kids: seq<seq<Item>>): seq<TreeNode> {
    if kids == [] then []
    else CalledIn(kids[..|kids| - 1]) + Branches(kids[|kids| - 1])
  }

  lemma {:induction false} CalledInOrder(order: seq<TreeNode>)
    ensures CalledIn(KidLists(order)) == Called(order)
  {
    if order != [] {
      var k := |order| - 1;
      CalledInOrder(order[..k]);
      assert KidLists(order)[..k] == KidLists(order[..k]);
    }
  }

  /** The children of every node of `order`, deepest first, are replaced; the callbacks run in the order of the child
      lists. */
  method ReplaceAll(c: Callbacks, order: seq<TreeNode>, ghost models: seq<Tree>, ghost kids: seq<seq<Item>>)
    returns (ghost called: seq<TreeNode>)
    requires Distinct(order) && Plan(order, models, kids)
    requires forall i :: 0 <= i < |order| ==> order[i].kids == kids[i]
    modifies order
    ensures forall i :: 0 <= i < |order| ==> Replaced(c, order[i], models[i].kids)
    ensures called == CalledIn(kids)
  {
    hide Plan;
    hide Replaced;
    hide Ready;
    hide Branches;
    called := [];
    var i := 0;
    PlanLengths(order, models, kids);
    while i < |order|
      invariant i <= |order|
      invariant forall k :: 0 <= k < i ==> Replaced(c, order[k], models[k].kids)
      invariant forall k :: i <= k < |order| ==> order[k].kids == kids[k]
      invariant called == CalledIn(kids[..i])
    {
      assert kids[..i + 1][..i] == kids[..i];
      PlannedIsReady(c, order, models, kids, i);
      ghost var more := ReplaceChildren(c, order[i], models[i].kids);
      called := called + more;
      i := i + 1;
    }
    assert kids[..i] == kids;
  }

  lemma PlanLengths(order: seq<TreeNode>, models: seq<Tree>, kids: seq<seq<Item>>)
    requires Plan(order, models, kids)
    ensures |order| == |models| == |kids|
  {
  }

  ghost function KidLists(order: seq<TreeNode>): (ks: seq<seq<Item>>)
    reads order
    ensures |ks| == |order| && forall i :: 0 <= i < |order| ==> ks[i] == order[i].kids
  {
    if order == [] then [] else [order[0].kids] + KidLists(order[1..])
  }

  ghost function Models(order: seq<TreeNode>): (ms: seq<Tree>)
    reads order
    ensures |ms| == |order| && forall i :: 0 <= i < |order| ==> ms[i] == order[i].model
  {
    if order == [] then [] else [order[0].model] + Models(order[1..])
  }

  /** `Transformer_InPlace.transform` gives what the recursive transformer gives, Discard included, and runs the
      callback of every node exactly once: on the nodes in the order of `iter_subtrees`. */
  method TransformInPlace(c: Callbacks, root: TreeNode) returns (result: Outcome, ghost called: seq<TreeNode>)
    requires root.Closed()
    modifies root.repr
    ensures result == Transform(c, old(root.model))
    ensures Distinct(called) && forall n :: n in called <==> n in old(root.repr)
  {
    hide ChildrenFirst;
    hide Plan;
    hide Replaced;
    hide Called;
    hide CalledIn;
    hide ClosedKids;
    var order := IterSubtrees(root);
    forall i | 0 <= i < |order|
      ensures order[i].Closed()
    {
      AllClosed(root, order[i]);
    }
    MakePlan(order);
    CalledInOrder(order);
    ghost var models, kids := Models(order), KidLists(order);
    ghost var last := |order| - 1;
    assert order[last] == root && models[last] == root.model;
    called := ReplaceAll(c, order, models, kids);
    result := CallUserfunc(c, root, models[last]);
    called := called + [root];
  }

  lemma {:induction false} AllClosed(root: TreeNode, n: TreeNode)
    requires root.Closed() && n in root.repr
    ensures n.Closed()
    decreases root.repr
  {
    if n != root {
      var i :| 0 <= i < |root.kids| && root.kids[i].Branch? && n in root.kids[i].node.repr;
      AllClosed(root.kids[i].node, n);
    }
  }
}
