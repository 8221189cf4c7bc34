/** The recursive-descent reading of a TLV byte string: the reference for the iterative reader. */
module TlvGrammar {
  import opened Bytes
  import opened Tlv
  import opened TlvCodec

  /** `closed`: an end-of-collection byte was met, and `rest` follows it; otherwise the input ran out with
      `open` containers still open. */
  datatype Parsed = Parsed(items: Forest, rest: bytes, closed: bool, open: nat)

  /** The items up to the end of the enclosing collection or of the input. */
  function Items(tlv: bytes): (p: Result<Parsed>)
    ensures p.Ok? ==> |p.value.rest| <= |tlv|
    ensures p.Ok? && p.value.closed ==> p.value.open == 0
    ensures p.Ok? && !p.value.closed ==> p.value.rest == []
    decreases |tlv|, 0
  {
    if tlv == [] then Ok(Parsed([], [], false, 0))
    else
      var h :- ReadHead(tlv);
      ItemsOver(h)
  }

  /** What the items are, given the head the input starts with. */
  function ItemsOver(h: Head): (p: Result<Parsed>)
    ensures p.Ok? ==> |p.value.rest| <= |h.rest|
    ensures p.Ok? && p.value.closed ==> p.value.open == 0
    ensures p.Ok? && !p.value.closed ==> p.value.rest == []
    decreases |h.rest|, 1
  {
    if h.typ == TYPE_END then Ok(Parsed([], h.rest, true, 0))
    else if IsContainer(h.element.typ) then
      var inner :- Items(h.rest);
      var e := h.element.(value := Children(inner.items));
      if inner.closed then Prepend([e], Items(inner.rest))
      else Ok(Parsed([e], [], false, inner.open + 1))
    else Prepend([h.element], Items(h.rest))
  }

  lemma ItemsOfNothing()
    ensures Items([]) == Ok(Parsed([], [], false, 0))
  {
  }

  lemma ItemsByHead(tlv: bytes)
    requires tlv != []
    ensures Items(tlv) == match ReadHead(tlv)
                          case Err(e) => Err(e)
                          case Ok(h) => ItemsOver(h)
  {
  }

  function Prepend(es: Forest, p: Result<Parsed>): Result<Parsed> {
    match p
    case Err(e) => Err(e)
    case Ok(q) => Ok(q.(items := es + q.items))
  }

  lemma PrependTwice(a: Forest, b: Forest, p: Result<Parsed>)
    ensures Prepend(a, Prepend(b, p)) == Prepend(a + b, p)
  {
    if p.Ok? {
      assert a + (b + p.value.items) == a + b + p.value.items;
    }
  }

  lemma PrependNone(p: Result<Parsed>)
    ensures Prepend([], p) == p
  {
    if p.Ok? {
      assert [] + p.value.items == p.value.items;
    }
  }

  // ----- the same reading with an explicit stack

  /** A container whose items are still being read: what its parent holds before it, and its own head. */
  datatype Frame = Frame(done: Forest, head: Element)

  function Filled(head: Element, items: Forest): Element {
    head.(value := Children(items))
  }

  /** The parse `p` continues behind `done` inside the innermost of `frames`; what the outermost one becomes. */
  function Finish(frames: seq<Frame>, done: Forest, p: Result<Parsed>): Result<Parsed>
    decreases |frames|
  {
    match p
    case Err(e) => Err(e)
    case Ok(q) =>
      if frames == [] then Ok(q.(items := done + q.items))
      else
        var outer, f := frames[..|frames| - 1], frames[|frames| - 1];
        var e := Filled(f.head, done + q.items);
        if q.closed then Finish(outer, f.done + [e], Items(q.rest))
        else Finish(outer, f.done, Ok(Parsed([e], [], false, q.open + 1)))
  }

  /** Pushing an element moves it from what is left to what is done. */
  lemma FinishPush(frames: seq<Frame>, done: Forest, e: Element, p: Result<Parsed>)
    ensures Finish(frames, done + [e], p) == Finish(frames, done, Prepend([e], p))
  {
    if p.Ok? {
      assert done + [e] + p.value.items == done + ([e] + p.value.items);
    }
  }

  lemma FinishOpen(frames: seq<Frame>, done: Forest, h: Head)
    requires IsContainer(h.element.typ) && h.typ != TYPE_END
    ensures Finish(frames + [Frame(done, h.element)], [], Items(h.rest)) == Finish(frames, done, ItemsOver(h))
  {
    hide Items;
    var inner := Items(h.rest);
    if inner.Ok? {
      var all := frames + [Frame(done, h.element)];
      assert all[..|all| - 1] == frames;
      assert [] + inner.value.items == inner.value.items;
      FinishPush(frames, done, Filled(h.element, inner.value.items), Items(inner.value.rest));
    }
  }

  lemma FinishClose(frames: seq<Frame>, done: Forest, rest: bytes)
    requires frames != []
    ensures var f := frames[|frames| - 1];
            Finish(frames, done, Ok(Parsed([], rest, true, 0)))
            == Finish(frames[..|frames| - 1], f.done + [Filled(f.head, done)], Items(rest))
  {
    assert done + [] == done;
  }

  /** The outermost forest when the input ends inside all of `frames`. */
  function Unclosed(frames: seq<Frame>, done: Forest): Forest
    decreases |frames|
  {
    if frames == [] then done
    else
      var f := frames[|frames| - 1];
      Unclosed(frames[..|frames| - 1], f.done + [Filled(f.head, done)])
  }

  lemma {:induction false} FinishUnclosed(frames: seq<Frame>, done: Forest, open: nat)
    ensures Finish(frames, done, Ok(Parsed([], [], false, open)))
            == Ok(Parsed(Unclosed(frames, done), [], false, open + |frames|))
    decreases |frames|
  {
    assert done + [] == done;
    if frames != [] {
      var outer, f := frames[..|frames| - 1], frames[|frames| - 1];
      var e := Filled(f.head, done);
      FinishPush(outer, f.done, e, Ok(Parsed([], [], false, open + 1)));
      assert [e] + [] == [e];
      FinishUnclosed(outer, f.done + [e], open + 1);
    }
  }
}
