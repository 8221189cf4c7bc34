/** The queue of src/async/AsyncQueue.js: values wait for readers, or readers for values. */
module AsyncQueues {
  /** A promise is its number in the order of creation; `settled` says what the resolved ones resolve to. */
  datatype State<V> = State(resolvers: seq<nat>, promises: seq<nat>, created: nat, settled: map<nat, V>)

  function Initial<V>(): State<V> {
    State([], [], 0, map[])
  }

  function WithEntry<V>(s: State<V>): State<V> {
    State(s.resolvers + [s.created], s.promises + [s.created], s.created + 1, s.settled)
  }

  function Enqueued<V>(s: State<V>, v: V): State<V> {
    var t := if s.resolvers == [] then WithEntry(s) else s;
    t.(resolvers := t.resolvers[1..], settled := t.settled[t.resolvers[0] := v])
  }

  /** The state and the promise handed out. */
  function Dequeued<V>(s: State<V>): (State<V>, nat) {
    var t := if s.promises == [] then WithEntry(s) else s;
    (t.(promises := t.promises[1..]), t.promises[0])
  }

  datatype Op<V> = Enq(v: V) | Deq

  /** The state after a run, and the promises its dequeues got, in order. */
  function Run<V>(ops: seq<Op<V>>): (State<V>, seq<nat>) {
    if ops == [] then (Initial(), [])
    else
      var (s, got) := Run(ops[..|ops| - 1]);
      match ops[|ops| - 1]
      case Enq(v) => (Enqueued(s, v), got)
      case Deq => var (t, p) := Dequeued(s); (t, got + [p])
  }

  /** The values of a run, in the order they were enqueued. */
  function Values<V>(ops: seq<Op<V>>): seq<V> {
    if ops == [] then []
    else Values(ops[..|ops| - 1]) + if ops[|ops| - 1].Enq? then [ops[|ops| - 1].v] else []
  }

  function Range(lo: nat, hi: nat): seq<nat>
    decreases hi
  {
    if lo >= hi then [] else Range(lo, hi - 1) + [hi - 1]
  }

  lemma {:induction false} RangeParts(lo: nat, hi: nat)
    ensures |Range(lo, hi)| == if lo < hi then hi - lo else 0
    ensures lo < hi ==> Range(lo, hi)[0] == lo && Range(lo, hi)[1..] == Range(lo + 1, hi)
    ensures forall i :: 0 <= i < |Range(lo, hi)| ==> Range(lo, hi)[i] == lo + i
    decreases hi
  {
    if lo < hi {
      RangeParts(lo, hi - 1);
      if lo + 1 < hi {
        assert Range(lo, hi)[1..] == Range(lo, hi - 1)[1..] + [hi - 1];
      }
    }
  }

  /** `got` promises have been handed out and the values `vs` enqueued. */
  ghost predicate Balanced<V>(s: State<V>, got: nat, vs: seq<V>) {
    && s.created == (if |vs| < got then got else |vs|)
    && s.promises == Range(got, s.created)
    && s.resolvers == Range(|vs|, s.created)
    && (forall n: nat :: n in s.settled <==> n < |vs|)
    && (forall n: nat :: n < |vs| ==> n in s.settled && s.settled[n] == vs[n])
  }

  lemma EnqueueKeeps<V>(s: State<V>, got: nat, vs: seq<V>, v: V)
    requires Balanced(s, got, vs)
    ensures Balanced(Enqueued(s, v), got, vs + [v])
  {
    RangeParts(|vs|, s.created);
    RangeParts(|vs|, s.created + 1);
    RangeParts(|vs| + 1, s.created + 1);
  }

  lemma DequeueKeeps<V>(s: State<V>, got: nat, vs: seq<V>)
    requires Balanced(s, got, vs)
    ensures Balanced(Dequeued(s).0, got + 1, vs) && Dequeued(s).1 == got
  {
    RangeParts(got, s.created);
    RangeParts(got, s.created + 1);
    RangeParts(got + 1, s.created + 1);
  }

  lemma NothingYet<V>()
    ensures Balanced<V>(Initial(), 0, [])
  {
  }

  lemma OneSideWaits<V>(s: State<V>, got: nat, vs: seq<V>)
    requires Balanced(s, got, vs)
    ensures s.promises == [] || s.resolvers == []
    ensures |vs| - got == |s.promises| - |s.resolvers|
  {
    RangeParts(got, s.created);
    RangeParts(|vs|, s.created);
  }

  /** Over any interleaving the n-th dequeue gets promise n, and promise n resolves to the n-th value enqueued, as
      soon as there is one.  Between calls at most one of the two lists holds anything: promises while values are
      ahead, resolvers while readers are ahead. */
  lemma {:induction false} FirstInFirstOut<V>(ops: seq<Op<V>>)
    ensures var (s, got) := Run(ops); var vs := Values(ops);
            && got == Range(0, |got|)
            && Balanced(s, |got|, vs)
            && (s.promises == [] || s.resolvers == [])
            && |vs| - |got| == |s.promises| - |s.resolvers|
  {
    hide Balanced;
    hide Enqueued;
    hide Dequeued;
    if ops == [] {
      NothingYet<V>();
    } else {
      FirstInFirstOut(ops[..|ops| - 1]);
      var (s, got) := Run(ops[..|ops| - 1]);
      var vs := Values(ops[..|ops| - 1]);
      match ops[|ops| - 1]
      case Enq(v) => EnqueueKeeps(s, |got|, vs, v);
      case Deq =>
        DequeueKeeps(s, |got|, vs);
        assert vs + [] == vs;
    }
    OneSideWaits(Run(ops).0, |Run(ops).1|, Values(ops));
  }

  class AsyncQueue<V> {
    var resolvers: seq<nat>
    var promises: seq<nat>
    var created: nat
    var settled: map<nat, V>

    function Now(): State<V>
      reads this
    {
      State(resolvers, promises, created, settled)
    }

    constructor ()
      ensures Now() == Initial()
    {
      resolvers, promises, created, settled := [], [], 0, map[];
    }

    method CreateEntry()
      modifies this
      ensures Now() == WithEntry(old(Now()))
    {
      promises := promises + [created];
      resolvers := resolvers + [created];
      created := created + 1;
    }

    method Enqueue(v: V)
      modifies this
      ensures Now() == Enqueued(old(Now()), v)
    {
      if |resolvers| == 0 {
        CreateEntry();
      }
      var resolve := resolvers[0];
      resolvers := resolvers[1..];
      settled := settled[resolve := v];
    }

    method Dequeue() returns (promise: nat)
      modifies this
      ensures (Now(), promise) == Dequeued(old(Now()))
    {
      if |promises| == 0 {
        CreateEntry();
      }
      promise := promises[0];
      promises := promises[1..];
    }
  }
}
