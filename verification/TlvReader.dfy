/** The iterative, array-sharing decoder of src/tlv/TlvReader.ts. */
module TlvReader {
  import opened Bytes
  import opened Tlv
  import opened TlvCodec
  import opened TlvGrammar

  /** A decoded object: `Holder` is one whose `value` is an array, which the reader goes on filling. */
  datatype Entry = Plain(element: Element) | Holder(head: Element, children: Container)

  /** A JavaScript array of decoded objects. */
  class Container {
    var items: seq<Entry>
    ghost var model: Forest
    ghost var repr: set<Container>

    constructor ()
      ensures items == [] && model == [] && repr == {this} && Closed()
    {
      items := [];
      model := [];
      repr := {this};
    }

    /** The array and all arrays below it form a tree, with no array under two parents, that stands for `model`. */
    ghost predicate Closed()
      reads this, repr
      decreases repr, 0
    {
      this in repr && ClosedItems(items, model, repr - {this})
    }
  }

  ghost predicate ClosedItems(items: seq<Entry>, model: Forest, below: set<Container>)
    reads below
    decreases below, 1
  {
    |items| == |model|
    && (forall i :: 0 <= i < |items| ==>
          match items[i]
          case Plain(e) => model[i] == e
          case Holder(e, c) =>
            c in below && c.repr <= below && c.Closed() && model[i] == Filled(e, c.model))
    && (forall i, j :: 0 <= i < j < |items| && items[i].Holder? && items[j].Holder?
          ==> items[i].children in below && items[j].children in below
              && items[i].children.repr !! items[j].children.repr)
  }

  lemma AddPlain(items: seq<Entry>, model: Forest, below: set<Container>, e: Element)
    requires ClosedItems(items, model, below)
    ensures ClosedItems(items + [Plain(e)], model + [e], below)
  {
  }

  lemma AddHolder(items: seq<Entry>, model: Forest, below: set<Container>, e: Element, c: Container)
    requires ClosedItems(items, model, below)
    requires c.Closed() && c.repr !! below
    ensures ClosedItems(items + [Holder(e, c)], model + [Filled(e, c.model)], below + c.repr)
  {
    forall i | 0 <= i < |items| && items[i].Holder?
      ensures items[i].children.repr !! c.repr
    {
    }
  }

  /** The open containers from the root to the one being filled.  Each holds its successor last; everything before
      that is closed, over arrays of its own. */
  ghost predicate Chain(open: seq<Container>, frames: seq<Frame>, done: Forest, below: seq<set<Container>>)
    reads open, set i, c | 0 <= i < |below| && c in below[i] :: c
  {
    Apart(open, below) && |open| == |frames| + 1 && Links(open, frames, done, below)
  }

  /** No array is open twice, closed under two of the open ones, or both open and closed. */
  ghost predicate Apart(open: seq<Container>, below: seq<set<Container>>) {
    |open| == |below|
    && (forall i, j :: 0 <= i < |open| && 0 <= j < |open| ==> open[i] !in below[j])
    && (forall i, j :: 0 <= i < j < |open| ==> open[i] != open[j] && below[i] !! below[j])
  }

  /** All containers but the innermost: each holds its successor last, everything before that is closed. */
  ghost predicate OuterLinks(open: seq<Container>, frames: seq<Frame>, below: seq<set<Container>>)
    requires |open| == |frames| + 1 == |below|
    reads open, set i, c | 0 <= i < |below| && c in below[i] :: c
  {
    forall i :: 0 <= i < |frames| ==>
      |open[i].items| > 0
      && open[i].items[|open[i].items| - 1] == Holder(frames[i].head, open[i + 1])
      && ClosedItems(open[i].items[..|open[i].items| - 1], frames[i].done, below[i])
  }

  ghost predicate Links(open: seq<Container>, frames: seq<Frame>, done: Forest, below: seq<set<Container>>)
    requires |open| == |frames| + 1 == |below|
    reads open, set i, c | 0 <= i < |below| && c in below[i] :: c
  {
    OuterLinks(open, frames, below) && ClosedItems(open[|frames|].items, done, below[|frames|])
  }

  lemma ApartExtends(open: seq<Container>, below: seq<set<Container>>, c: Container)
    requires Apart(open, below) && c !in open && forall j :: 0 <= j < |below| ==> c !in below[j]
    ensures Apart(open + [c], below + [{}])
  {
  }

  lemma ApartMerges(open: seq<Container>, below: seq<set<Container>>, n: nat)
    requires Apart(open, below) && |open| == n + 2
    ensures Apart(open[..n + 1], below[..n] + [below[n] + ({open[n + 1]} + below[n + 1])])
  {
  }

  /** A new innermost container under what was the innermost one. */
  lemma LinksExtend(open: seq<Container>, frames: seq<Frame>, done: Forest, below: seq<set<Container>>,
                    head: Element, c: Container)
    requires |open| == |frames| + 1 == |below|
    requires OuterLinks(open, frames, below)
    requires var last := open[|frames|].items;
             |last| > 0 && last[|last| - 1] == Holder(head, c) && ClosedItems(last[..|last| - 1], done, below[|frames|])
    requires ClosedItems(c.items, [], {})
    ensures Links(open + [c], frames + [Frame(done, head)], [], below + [{}])
  {
    var open', frames', below' := open + [c], frames + [Frame(done, head)], below + [{}];
    assert forall i :: 0 <= i <= |frames| ==> open'[i] == open[i] && below'[i] == below[i];
    assert forall i :: 0 <= i < |frames| ==> frames'[i] == frames[i];
  }

  lemma RootChain(root: Container)
    requires root.Closed()
    ensures Chain([root], [], root.model, [root.repr - {root}])
  {
  }

  /** The innermost open container gets its last item; it becomes a closed child of its parent. */
  ghost method CloseInnermost(inner: Container, open: seq<Container>, frames: seq<Frame>, done: Forest,
                              below: seq<set<Container>>)
    returns (open': seq<Container>, frames': seq<Frame>, done': Forest, below': seq<set<Container>>)
    requires Chain(open, frames, done, below) && frames != [] && inner == open[|frames|]
    modifies inner`model, inner`repr
    ensures var n := |frames|; var f := frames[n - 1];
            open' == open[..n] && frames' == frames[..n - 1]
            && done' == f.done + [Filled(f.head, done)]
            && below' == below[..n - 1] + [below[n - 1] + ({open[n]} + below[n])]
    ensures Chain(open', frames', done', below')
  {
    var n := |frames|;
    Seal(inner, open, frames, done, below);
    ChainCloses(open, frames, below);
    open', frames', done' := open[..n], frames[..n - 1], frames[n - 1].done + [Filled(frames[n - 1].head, done)];
    below' := below[..n - 1] + [below[n - 1] + ({inner} + below[n])];
  }

  /** The innermost container is closed; what is around it stays as it is. */
  ghost method Seal(inner: Container, open: seq<Container>, frames: seq<Frame>, done: Forest,
                    below: seq<set<Container>>)
    requires Chain(open, frames, done, below) && frames != [] && inner == open[|frames|]
    modifies inner`model, inner`repr
    ensures inner.Closed() && inner.model == done && inner.repr == {inner} + below[|frames|]
    ensures OuterLinks(open, frames, below)
  {
    hide Apart;
    var n := |frames|;
    InnermostApart(open, below, n);
    inner.model := done;
    inner.repr := {inner} + below[n];
    assert inner.repr - {inner} == below[n];
  }

  lemma ChainCloses(open: seq<Container>, frames: seq<Frame>, below: seq<set<Container>>)
    requires |open| == |frames| + 1 == |below| && frames != [] && Apart(open, below) && OuterLinks(open, frames, below)
    requires open[|frames|].Closed() && open[|frames|].repr == {open[|frames|]} + below[|frames|]
    ensures var n := |frames|; var f := frames[n - 1];
            Chain(open[..n], frames[..n - 1], f.done + [Filled(f.head, open[n].model)],
                  below[..n - 1] + [below[n - 1] + ({open[n]} + below[n])])
  {
    hide Apart;
    var n := |frames|;
    var parent, inner, f := open[n - 1], open[n], frames[n - 1];
    InnermostApart(open, below, n);
    ApartMerges(open, below, n - 1);
    var k := |parent.items| - 1;
    assert parent.items == parent.items[..k] + [Holder(f.head, inner)];
    AddHolder(parent.items[..k], f.done, below[n - 1], f.head, inner);
    hide ClosedItems;
  }

  lemma InnermostApart(open: seq<Container>, below: seq<set<Container>>, n: nat)
    requires Apart(open, below) && |open| == n + 1 && n > 0
    ensures |below| == n + 1 && forall j :: 0 <= j <= n ==> open[n] !in below[j]
    ensures forall i :: 0 <= i < n ==> open[i] != open[n]
    ensures below[n - 1] !! below[n]
  {
  }

  /** `this._container.push(decoding)` */
  method PushPlain(c: Container, e: Element,
                   ghost open: seq<Container>, ghost frames: seq<Frame>, ghost done: Forest,
                       ghost below: seq<set<Container>>)
    requires Chain(open, frames, done, below) && c == open[|frames|]
    modifies c`items
    ensures Chain(open, frames, done + [e], below)
  {
    AddPlain(c.items, done, below[|frames|], e);
    c.items := c.items + [Plain(e)];
  }

  /** The same for an object whose `value` is a new array, which becomes the innermost open container. */
  method PushHolder(c: Container, head: Element,
                    ghost open: seq<Container>, ghost frames: seq<Frame>, ghost done: Forest,
                        ghost below: seq<set<Container>>)
    returns (value: Container)
    requires Chain(open, frames, done, below) && c == open[|frames|]
    modifies c`items
    ensures fresh(value)
    ensures Chain(open + [value], frames + [Frame(done, head)], [], below + [{}])
  {
    value := new Container();
    ghost var before := c.items;
    c.items := c.items + [Holder(head, value)];
    assert c.items[..|before|] == before;
    ApartExtends(open, below, value);
    assert ClosedItems(before, done, below[|frames|]);
    assert ClosedItems(value.items, [], {});
    LinksExtend(open, frames, done, below, head, value);
  }

  /** The root of the chain once everything in it counts as closed. */
  ghost method CloseAll(open: seq<Container>, frames: seq<Frame>, done: Forest, below: seq<set<Container>>)
    requires Chain(open, frames, done, below)
    modifies set c | c in open
    ensures open[0].Closed() && open[0].model == Unclosed(frames, done)
    ensures forall c :: c in open[0].repr ==> c in open || exists i :: 0 <= i < |below| && c in below[i]
    decreases |frames|
  {
    hide Chain;
    hide ClosedItems;
    ChainLengths(open, frames, done, below);
    if frames == [] {
      CloseRoot(open[0], open, done, below);
    } else {
      var open', frames', done', below' := CloseInnermost(open[|frames|], open, frames, done, below);
      CloseAll(open', frames', done', below');
    }
  }

  lemma ChainLengths(open: seq<Container>, frames: seq<Frame>, done: Forest, below: seq<set<Container>>)
    requires Chain(open, frames, done, below)
    ensures |open| == |below| == |frames| + 1
  {
  }

  ghost method CloseRoot(root: Container, open: seq<Container>, done: Forest, below: seq<set<Container>>)
    requires Chain(open, [], done, below) && open == [root]
    modifies root`model, root`repr
    ensures root.Closed() && root.model == done && root.repr == {root} + below[0]
  {
    root.model := done;
    root.repr := {root} + below[0];
    assert root.repr - {root} == below[0];
  }

  /** The reader throws when a read passes the end of the buffer; otherwise the array tree under `json` is the one
      that recursive descent gives. */
  class TlvReader {
    var json: Container
    var container: Container

    ghost predicate Valid()
      reads this, json, json.repr
    {
      container == json && json.Closed()
    }

    constructor ()
      ensures Valid() && json.model == [] && fresh(json)
    {
      var top := new Container();
      json := top;
      container := top;
    }

    method Decode(tlv0: bytes) returns (ok: bool)
      requires Valid()
      modifies this`container, json
      ensures json == old(json)
      ensures ok <==> Items(tlv0).Ok?
      ensures ok ==> json.Closed() && fresh(json.repr - old(json.repr))
      ensures ok ==> json.model == old(json.model) + Items(tlv0).value.items
      ensures ok && Items(tlv0).value.open == 0 ==> Valid()
    {
      hide Chain;
      hide ReadHead;
      hide Items;
      var tlv := tlv0;
      var containerDepth := 1;
      var top := container;
      var containerStack := [top];

      ghost var before := json.model;
      ghost var open := [json];
      ghost var frames: seq<Frame> := [];
      ghost var done := json.model;
      ghost var below := [json.repr - {json}];
      RootChain(json);

      while |tlv| > 0 && containerDepth > 0
        invariant |open| == |below| == |frames| + 1
        invariant containerDepth == |containerStack|
        invariant containerDepth > 0 ==> containerStack == [json] + open[..|frames|] && container == open[|frames|]
        invariant containerDepth > 0 ==> Finish(frames, done, Items(tlv)) == Prepend(before, Items(tlv0))
        invariant containerDepth == 0 ==> frames == [] && container == json
        invariant containerDepth == 0 ==> Prepend(before, Items(tlv0)) == Ok(Parsed(done, tlv, true, 0))
        invariant Chain(open, frames, done, below)
        invariant open[0] == json && forall i :: 1 <= i < |open| ==> fresh(open[i])
        invariant forall i, c :: 0 <= i < |below| && c in below[i] ==> c in old(json.repr) || fresh(c)
        decreases |tlv|, containerDepth
      {
        var head := ReadHead(tlv);
        ItemsByHead(tlv);
        if head.Err? {
          return false;
        }
        var h := head.value;
        tlv := h.rest;
        if h.typ == TYPE_END {
          containerDepth := containerDepth - 1;
          container := containerStack[|containerStack| - 1];
          containerStack := containerStack[..|containerStack| - 1];
          if frames == [] {
            assert done + [] == done;
          } else {
            FinishClose(frames, done, h.rest);
            ghost var open0, below0, n := open, below, |frames|;
            open, frames, done, below := CloseInnermost(open[n], open, frames, done, below);
            forall i, c | 0 <= i < n && c in below[i]
              ensures c in old(json.repr) || fresh(c)
            {
              if i == n - 1 {
                assert c in below0[n - 1] || c == open0[n] || c in below0[n];
              } else {
                assert c in below0[i];
              }
            }
          }
        } else if IsContainer(h.element.typ) {
          FinishOpen(frames, done, h);
          var value := PushHolder(container, h.element, open, frames, done, below);
          containerDepth := containerDepth + 1;
          containerStack := containerStack + [container];
          container := value;
          frames, done := frames + [Frame(done, h.element)], [];
          open, below := open + [value], below + [{}];
        } else {
          FinishPush(frames, done, h.element, Items(h.rest));
          PushPlain(container, h.element, open, frames, done, below);
          done := done + [h.element];
        }
      }
      if containerDepth > 0 {
        ItemsOfNothing();
        FinishUnclosed(frames, done, 0);
      }
      CloseAll(open, frames, done, below);
      return true;
    }
  }
}
