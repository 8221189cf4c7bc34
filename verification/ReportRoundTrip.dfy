/** What the report of a read request decodes to. */
module ReportRoundTrip {
  import opened Bytes
  import opened Tlv
  import opened TlvCodec
  import opened TlvGrammar
  import opened TlvPrinter
  import opened TlvAccess
  import opened TlvRoundTrip
  import opened TlvTheorems
  import opened ReadReports

  // ----- one entry per successful lookup

  /** The lookups of the requests in loop order: wildcards stand for every endpoint. */
  function Lookups(node: Node, entries: seq<Value>): seq<Path> {
    if entries == [] then []
    else
      var path := PathOf(entries[|entries| - 1]);
      Lookups(node, entries[..|entries| - 1])
      + if path.Err? then []
        else if path.value.endpoint.Undefined? then OnEach(path.value, node.endpoints)
        else [path.value]
  }

  function OnEach(path: Path, endpoints: seq<nat>): seq<Path> {
    seq(|endpoints|, i requires 0 <= i < |endpoints| => path.(endpoint := Num(endpoints[i])))
  }

  function Lookup(node: Node, p: Path): Result<Option<Value>> {
    node.lookup(p.endpoint, p.cluster, p.attribute)
  }

  /** The reports of the lookups that found a value. */
  function Successes(node: Node, lookups: seq<Path>): seq<Report> {
    if lookups == [] then []
    else
      var p := lookups[|lookups| - 1];
      Successes(node, lookups[..|lookups| - 1])
      + if Lookup(node, p).Ok? && Lookup(node, p).value.Some? then [Report(p, Lookup(node, p).value.value)] else []
  }

  lemma {:induction false} SuccessesCat(node: Node, a: seq<Path>, b: seq<Path>)
    ensures Successes(node, a + b) == Successes(node, a) + Successes(node, b)
  {
    if b == [] {
      assert a + b == a;
    } else {
      assert (a + b)[..|a + b| - 1] == a + b[..|b| - 1];
      SuccessesCat(node, a, b[..|b| - 1]);
    }
  }

  lemma {:induction false} EndpointsSucceed(node: Node, path: Path, endpoints: seq<nat>)
    ensures OnEndpoints(node, path, endpoints).Ok? ==>
              OnEndpoints(node, path, endpoints).value == Successes(node, OnEach(path, endpoints))
  {
    if endpoints != [] {
      var n := |endpoints| - 1;
      var all, before := OnEach(path, endpoints), OnEach(path, endpoints[..n]);
      EndpointsSucceed(node, path, endpoints[..n]);
      assert all == before + [path.(endpoint := Num(endpoints[n]))];
      assert all[..n] == before;
    }
  }

  /** When no lookup throws, the reports are those of the successful lookups, in loop order. */
  lemma {:induction false} ReportsAreSuccesses(node: Node, entries: seq<Value>)
    requires Reports(node, entries).Ok?
    ensures Reports(node, entries).value == Successes(node, Lookups(node, entries))
  {
    if entries != [] {
      var n := |entries| - 1;
      ReportsAreSuccesses(node, entries[..n]);
      var path := PathOf(entries[n]).value;
      SuccessesCat(node, Lookups(node, entries[..n]),
                   if path.endpoint.Undefined? then OnEach(path, node.endpoints) else [path]);
      if path.endpoint.Undefined? {
        EndpointsSucceed(node, path, node.endpoints);
      } else {
        assert [path][..0] == [];
      }
    }
  }

  // ----- requests that are no list of paths

  /** A byte string in place of the list of paths, or in place of a path, asks for everything: every byte is an entry
      whose path names nothing, and so stands for every endpoint; a number or string throws. */
  lemma BytesAskForEverything(tlv: bytes, members: Forest, x: bytes)
    requires Items(tlv).Ok? && !HasBigint(Items(tlv).value.items) && Items(tlv).value.items != []
    requires Items(tlv).value.items[0].value == Children(members)
    ensures match Tagged(members, 0)
            case Buf(d) => Requested(tlv).Ok? && |Requested(tlv).value| == |d|
                           && forall i :: 0 <= i < |d| ==> PathOf(Requested(tlv).value[i]) == PathOf(Buf(x))
            case Children(entries) => Requested(tlv).Ok? && |Requested(tlv).value| == |entries|
                                      && forall i :: 0 <= i < |entries| ==>
                                           Requested(tlv).value[i] == entries[i].value
            case _ => Requested(tlv) == Err(Thrown)
    ensures PathOf(Buf(x)).Ok? && PathOf(Buf(x)).value.endpoint == Undefined
    ensures forall v: Value :: v.Str? || v.Num? || v.Bool? ==> PathOf(v) == Err(Thrown)
  {
    hide Items;
    hide HasBigint;
    hide Tagged;
  }

  // ----- reading a path back

  /** A number as the reader gives it: beyond 32 bits as a bigint. */
  function Again(v: Value): Value {
    if v.Undefined? then v else NormUnsigned(NumberIn(v)).value
  }

  function PathAgain(p: Path): Path {
    Path(Again(p.node), Again(p.endpoint), Again(p.cluster), Again(p.attribute))
  }

  predicate PathWritable(p: Path) {
    OptionalWritable(p.node) && OptionalWritable(p.endpoint) && OptionalWritable(p.cluster)
        && OptionalWritable(p.attribute)
  }

  predicate OptionalWritable(v: Value) {
    v.Undefined? || UnsignedWritable(v)
  }

  /** A plain number beyond 32 bits, as a double can hold. */
  predicate Wide(v: Value) {
    v.Num? && v.n > UINT32_MAX
  }

  predicate NothingWide(p: Path) {
    !Wide(p.node) && !Wide(p.endpoint) && !Wide(p.cluster) && !Wide(p.attribute)
  }

  lemma AgainIsSame(v: Value)
    requires OptionalWritable(v)
    ensures Again(v) == v <==> !Wide(v)
  {
  }

  function OptionalBack(tag: int, v: Value): Forest {
    if v.Undefined? then [] else [Member(tag, NormUnsigned(NumberIn(v)).typ, Again(v))]
  }

  lemma OptionalReads(tag: int, v: Value)
    requires 0 <= tag <= UINT8_MAX && OptionalWritable(v)
    ensures Faithful(Optional(tag, v)) && NormForest(Optional(tag, v)) == OptionalBack(tag, v)
  {
    if !v.Undefined? {
      NormOne(Member(tag, UInt(8), v));
    }
  }

  lemma {:induction false} NormCat(a: Forest, b: Forest)
    ensures NormForest(a + b) == NormForest(a) + NormForest(b)
    ensures Faithful(a + b) <==> Faithful(a) && Faithful(b)
    ensures Writable(a + b) <==> Writable(a) && Writable(b)
  {
    hide NormElement;
    hide FaithfulElement;
    hide WritableElement;
    if a == [] {
      assert a + b == b;
    } else {
      assert (a + b)[1..] == a[1..] + b;
      NormCat(a[1..], b);
      assert NormElement(a[0]) + (NormForest(a[1..]) + NormForest(b))
          == NormElement(a[0]) + NormForest(a[1..]) + NormForest(b);
    }
  }

  predicate HasTag(es: Forest, tag: int) {
    exists i :: 0 <= i < |es| && es[i].tag == Some(tag)
  }

  lemma {:induction false} TaggedCat(a: Forest, b: Forest, tag: int)
    ensures Tagged(a + b, tag) == if HasTag(a, tag) then Tagged(a, tag) else Tagged(b, tag)
  {
    if a == [] {
      assert a + b == b;
    } else {
      assert (a + b)[1..] == a[1..] + b;
      TaggedCat(a[1..], b, tag);
      if i :| 0 <= i < |a| && a[i].tag == Some(tag) && i > 0 {
        assert a[1..][i - 1] == a[i];
      }
      assert HasTag(a[1..], tag) ==> HasTag(a, tag);
    }
  }

  lemma OptionalTagged(t: int, v: Value, tag: int)
    ensures HasTag(OptionalBack(t, v), tag) <==> t == tag && !v.Undefined?
    ensures Tagged(OptionalBack(t, v), tag) == if t == tag then Again(v) else Undefined
  {
    if t == tag && !v.Undefined? {
      assert OptionalBack(t, v)[0].tag == Some(tag);
    }
  }

  function PathBack(p: Path): Forest {
    OptionalBack(1, p.node) + OptionalBack(2, p.endpoint) + OptionalBack(3, p.cluster) + OptionalBack(4, p.attribute)
  }

  lemma PathReads(p: Path)
    requires PathWritable(p)
    ensures Faithful(PathMembers(p)) && NormForest(PathMembers(p)) == PathBack(p)
  {
    hide Faithful;
    hide NormForest;
    hide Optional;
    hide OptionalBack;
    hide OptionalWritable;
    var a, b, c, d := Optional(1, p.node), Optional(2, p.endpoint), Optional(3, p.cluster), Optional(4, p.attribute);
    OptionalReads(1, p.node);
    OptionalReads(2, p.endpoint);
    OptionalReads(3, p.cluster);
    OptionalReads(4, p.attribute);
    NormCat(a, b);
    NormCat(a + b, c);
    NormCat(a + b + c, d);
  }

  /** The path built from what was written is the path, if and only if none of its members is a plain number beyond 32
      bits, which comes back as a bigint. */
  lemma PathReadsBack(p: Path)
    requires PathWritable(p)
    ensures PathOf(Children(PathBack(p))) == Ok(PathAgain(p))
    ensures PathOf(Children(PathBack(p))) == Ok(p) <==> NothingWide(p)
  {
    hide OptionalBack;
    hide Tagged;
    hide Again;
    hide HasTag;
    hide Wide;
    hide OptionalWritable;
    PathTagged(p, 1);
    PathTagged(p, 2);
    PathTagged(p, 3);
    PathTagged(p, 4);
    AgainIsSame(p.node);
    AgainIsSame(p.endpoint);
    AgainIsSame(p.cluster);
    AgainIsSame(p.attribute);
  }

  lemma PathTagged(p: Path, tag: int)
    requires 1 <= tag <= 4
    ensures Tagged(PathBack(p), tag)
            == Again(if tag == 1 then p.node else if tag == 2 then p.endpoint
                     else if tag == 3 then p.cluster else p.attribute)
  {
    hide OptionalBack;
    hide Tagged;
    var a, b, c, d := OptionalBack(1, p.node), OptionalBack(2, p.endpoint), OptionalBack(3, p.cluster),
        OptionalBack(4, p.attribute);
    TaggedCat(a + b + c, d, tag);
    TaggedCat(a + b, c, tag);
    TaggedCat(a, b, tag);
    OptionalTagged(1, p.node, tag);
    OptionalTagged(2, p.endpoint, tag);
    OptionalTagged(3, p.cluster, tag);
    OptionalTagged(4, p.attribute, tag);
    HasTagCat(a, b, tag);
    HasTagCat(a + b, c, tag);
    hide HasTag;
    assert Again(Undefined) == Undefined by { AgainUndefined(); }
  }

  lemma HasTagCat(a: Forest, b: Forest, tag: int)
    ensures HasTag(a + b, tag) <==> HasTag(a, tag) || HasTag(b, tag)
  {
    if i :| 0 <= i < |a| && a[i].tag == Some(tag) {
      assert (a + b)[i].tag == Some(tag);
    }
    if i :| 0 <= i < |b| && b[i].tag == Some(tag) {
      assert (a + b)[|a| + i].tag == Some(tag);
    }
  }

  lemma AgainUndefined()
    ensures Again(Undefined) == Undefined
  {
  }

  // ----- the whole report

  /** An entry as it is read back: the version, the path and the value in its normal form. */
  function EntryBack(r: Report): Element {
    Outermost([Member(1, Struct, Children(
      [NumberBack(0, DATA_VERSION), Member(1, List, Children(PathBack(r.path)))]
          + NormElement(Member(2, NoName, r.value))))])
  }

  function EntriesBack(rs: seq<Report>): Forest {
    seq(|rs|, i requires 0 <= i < |rs| => EntryBack(rs[i]))
  }

  lemma {:induction false} EachWritable(es: Forest, i: nat)
    requires Writable(es) && i < |es|
    ensures WritableElement(es[i])
  {
    if i > 0 {
      EachWritable(es[1..], i - 1);
    }
  }

  /** What a writable report entry consists of is writable. */
  lemma WritableParts(r: Report)
    requires WritableElement(ReportElement(r))
    ensures PathWritable(r.path) && WritableElement(Member(2, NoName, r.value))
  {
    var inner := Member(1, Struct, Children(DataMembers(r)));
    EachWritable([inner], 0);
    EachWritable(DataMembers(r), 1);
    EachWritable(DataMembers(r), 2);
    hide WritableElement;
    hide UnsignedWritable;
    PathWritableFrom(r.path);
  }

  lemma PathWritableFrom(p: Path)
    requires WritableElement(PathElement(p))
    ensures PathWritable(p)
  {
    hide Writable;
    var a, b, c, d := Optional(1, p.node), Optional(2, p.endpoint), Optional(3, p.cluster), Optional(4, p.attribute);
    NormCat(a + b + c, d);
    NormCat(a + b, c);
    NormCat(a, b);
    assert Writable(PathMembers(p)) by { PathElementInner(p); }
    OptionalWritableFrom(1, p.node);
    OptionalWritableFrom(2, p.endpoint);
    OptionalWritableFrom(3, p.cluster);
    OptionalWritableFrom(4, p.attribute);
  }

  lemma PathElementInner(p: Path)
    requires WritableElement(PathElement(p))
    ensures Writable(PathMembers(p))
  {
    assert WritableInner(Children(PathMembers(p)));
  }

  lemma OptionalWritableFrom(tag: int, v: Value)
    requires Writable(Optional(tag, v))
    ensures OptionalWritable(v)
  {
    if !v.Undefined? {
      EachWritable([Member(tag, UInt(8), v)], 0);
    }
  }

  lemma PathElementReads(p: Path)
    requires PathWritable(p)
    ensures FaithfulElement(PathElement(p)) && NormElement(PathElement(p)) == [Member(1, List, Children(PathBack(p)))]
  {
    hide PathBack;
    hide PathMembers;
    hide PathWritable;
    PathReads(p);
  }

  lemma DataReads(r: Report)
    requires PathWritable(r.path) && FaithfulElement(Member(2, NoName, r.value))
    ensures Faithful(DataMembers(r))
    ensures NormForest(DataMembers(r))
            == [NumberBack(0, DATA_VERSION), Member(1, List, Children(PathBack(r.path)))]
                + NormElement(Member(2, NoName, r.value))
  {
    hide PathBack;
    hide PathWritable;
    hide TlvAccess.ComesBackAs;
    var version, data := Member(0, UInt(4), Num(DATA_VERSION)), Member(2, NoName, r.value);
    VersionReads();
    PathElementReads(r.path);
    hide FaithfulElement;
    hide NormElement;
    hide PathElement;
    Three(version, PathElement(r.path), data);
  }

  lemma VersionReads()
    ensures FaithfulElement(Member(0, UInt(4), Num(DATA_VERSION)))
    ensures NormElement(Member(0, UInt(4), Num(DATA_VERSION))) == [NumberBack(0, DATA_VERSION)]
  {
    NumberMember(0, 4, DATA_VERSION);
  }

  lemma Three(a: Element, b: Element, c: Element)
    ensures NormForest([a, b, c]) == NormElement(a) + NormElement(b) + NormElement(c)
    ensures Faithful([a, b, c]) <==> FaithfulElement(a) && FaithfulElement(b) && FaithfulElement(c)
  {
    hide NormElement;
    hide FaithfulElement;
    assert [a, b, c][1..] == [b, c] && [b, c][1..] == [c] && [c][1..] == [];
    assert NormElement(c) + [] == NormElement(c);
    assert NormForest([c]) == NormElement(c) && NormForest([b, c]) == NormElement(b) + NormElement(c);
    assert (Faithful([c]) <==> FaithfulElement(c)) && (Faithful([b, c]) <==> FaithfulElement(b) && FaithfulElement(c));
    assert NormElement(a) + (NormElement(b) + NormElement(c)) == NormElement(a) + NormElement(b) + NormElement(c);
  }

  lemma EntryReads(r: Report)
    requires WritableElement(ReportElement(r)) && FaithfulElement(Member(2, NoName, r.value))
    ensures FaithfulElement(ReportElement(r)) && NormElement(ReportElement(r)) == [EntryBack(r)]
  {
    hide DataMembers;
    hide PathBack;
    WritableParts(r);
    hide PathWritable;
    DataReads(r);
    var inner := Member(1, Struct, Children(DataMembers(r)));
    InnerReads(inner);
    InnerReads(ReportElement(r));
    NormOne(inner);
  }

  /** A container of the writer's is read back with its members' normal forms. */
  lemma InnerReads(e: Element)
    requires IsContainer(e.typ) && e.profile == None && e.value.Children?
    ensures FaithfulElement(e) <==> Faithful(e.value.items)
    ensures NormElement(e) == [e.(value := Children(NormForest(e.value.items)))]
  {
  }

  lemma {:induction false} EntriesRead(rs: seq<Report>)
    requires Writable(Elements(rs))
    requires forall i :: 0 <= i < |rs| ==> FaithfulElement(Member(2, NoName, rs[i].value))
    ensures Faithful(Elements(rs)) && NormForest(Elements(rs)) == EntriesBack(rs)
    ensures forall i :: 0 <= i < |rs| ==> PathWritable(rs[i].path)
  {
    hide EntryBack;
    hide ReportElement;
    hide FaithfulElement;
    hide NormElement;
    hide WritableElement;
    if rs != [] {
      var es := Elements(rs);
      assert es[1..] == Elements(rs[1..]);
      EntryReads(rs[0]);
      WritableParts(rs[0]);
      EntriesRead(rs[1..]);
      assert EntriesBack(rs) == [EntryBack(rs[0])] + EntriesBack(rs[1..]);
    } else {
      assert Elements(rs) == [] && EntriesBack(rs) == [];
    }
  }

  /** For every read request that is answered, with values that survive the writer: the report decodes, to its last
      byte and with every container closed, to a structure of one array tagged 1 that holds exactly one entry for
      each successful lookup, in loop order; the path built from each entry is the path of the lookup, endpoint
      filled in, and its data is the value's normal form. */
  lemma ReportReadsBack(node: Node, tlv: bytes)
    requires Answer(node, tlv).Ok?
    requires var rs := Successes(node, Lookups(node, Requested(tlv).value));
             forall i :: 0 <= i < |rs| ==> FaithfulElement(Member(2, NoName, rs[i].value))
    ensures var rs := Successes(node, Lookups(node, Requested(tlv).value));
            var entries := EntriesBack(rs);
            && Items(Answer(node, tlv).value)
                == Ok(Parsed([Outermost([Member(1, Array, Children(entries))])], [], false, 0))
            && forall i :: 0 <= i < |entries| ==> EntryHolds(entries[i], rs[i])
  {
    hide Items;
    hide EncodeForest;
    hide EntryBack;
    hide ReportElement;
    hide Successes;
    hide Lookups;
    hide Requested;
    hide Reports;
    var entries := Requested(tlv).value;
    var rs := Reports(node, entries).value;
    ReportsAreSuccesses(node, entries);
    WritesExactlyWritable([ReportData(rs)]);
    ReportDataReads(rs);
    DecodeEncodeIffFaithful([ReportData(rs)]);
    forall i | 0 <= i < |rs| ensures EntryHolds(EntryBack(rs[i]), rs[i]) { EntryHoldsBack(rs[i]); }
  }

  lemma ReportDataReads(rs: seq<Report>)
    requires Writable([ReportData(rs)])
    requires forall i :: 0 <= i < |rs| ==> FaithfulElement(Member(2, NoName, rs[i].value))
    ensures Faithful([ReportData(rs)])
    ensures NormForest([ReportData(rs)]) == [Outermost([Member(1, Array, Children(EntriesBack(rs)))])]
    ensures forall i :: 0 <= i < |rs| ==> PathWritable(rs[i].path)
  {
    hide EntriesBack;
    hide Elements;
    var list := Member(1, Array, Children(Elements(rs)));
    assert Writable(Elements(rs)) by { EachWritable([ReportData(rs)], 0); EachWritable([list], 0); }
    EntriesRead(rs);
    hide Writable;
    InnerReads(list);
    InnerReads(ReportData(rs));
    NormOne(list);
    NormOne(ReportData(rs));
  }

  /** The entry's path and data, found by their tags as `findTag` does. */
  predicate EntryHolds(e: Element, r: Report) {
    && e.value.Children?
    && var data := Tagged(e.value.items, 1);
       && data.Children?
       && Tagged(data.items, 0) == Num(DATA_VERSION)
       && PathOf(Tagged(data.items, 1)) == Ok(PathAgain(r.path))
       && (PathOf(Tagged(data.items, 1)) == Ok(r.path) <==> NothingWide(r.path))
       && |data.items| >= 2 && data.items[2..] == NormElement(Member(2, NoName, r.value))
  }

  lemma EntryHoldsBack(r: Report)
    requires PathWritable(r.path)
    ensures EntryHolds(EntryBack(r), r)
  {
    hide NormElement;
    hide PathBack;
    hide PathAgain;
    hide PathOf;
    hide PathWritable;
    hide NothingWide;
    PathReadsBack(r.path);
    var data := [NumberBack(0, DATA_VERSION), Member(1, List, Children(PathBack(r.path)))]
        + NormElement(Member(2, NoName, r.value));
    assert data[0] == NumberBack(0, DATA_VERSION)
        && data[1..][0] == data[1] == Member(1, List, Children(PathBack(r.path)));
    assert Tagged(data, 0) == Num(DATA_VERSION);
    assert Tagged(data, 1) == Children(PathBack(r.path));
    assert Tagged([Member(1, Struct, Children(data))], 1) == Children(data);
    assert data[2..] == NormElement(Member(2, NoName, r.value));
  }

  // ----- which requests are understood

  /** A read request for one path. */
  function ReadRequest(p: Path): Forest {
    [Outermost([Member(0, Array, Children([Element(None, None, List, Children(PathMembers(p)))]))])]
  }

  predicate Narrow(v: Value) {
    v.Undefined? || NumberIn(v) <= UINT32_MAX
  }

  /** Every member fits in 32 bits. */
  predicate PathNarrow(p: Path) {
    Narrow(p.node) && Narrow(p.endpoint) && Narrow(p.cluster) && Narrow(p.attribute)
  }

  lemma {:induction false} BigintCat(a: Forest, b: Forest)
    ensures HasBigint(a + b) <==> HasBigint(a) || HasBigint(b)
  {
    if a == [] {
      assert a + b == b;
    } else {
      assert (a + b)[1..] == a[1..] + b;
      BigintCat(a[1..], b);
    }
  }

  lemma BigintOne(e: Element)
    ensures HasBigint([e]) <==> HoldsBigint(e)
  {
    assert [e][1..] == [];
  }

  lemma OptionalBigint(tag: int, v: Value)
    requires OptionalWritable(v)
    ensures HasBigint(OptionalBack(tag, v)) <==> !Narrow(v)
  {
    if !v.Undefined? {
      BigintOne(Member(tag, NormUnsigned(NumberIn(v)).typ, Again(v)));
    }
  }

  lemma PathBigint(p: Path)
    requires PathWritable(p)
    ensures HasBigint(PathBack(p)) <==> !PathNarrow(p)
  {
    hide HasBigint;
    hide OptionalBack;
    hide Narrow;
    var a, b, c, d := OptionalBack(1, p.node), OptionalBack(2, p.endpoint), OptionalBack(3, p.cluster),
        OptionalBack(4, p.attribute);
    OptionalBigint(1, p.node);
    OptionalBigint(2, p.endpoint);
    OptionalBigint(3, p.cluster);
    OptionalBigint(4, p.attribute);
    BigintCat(a + b + c, d);
    BigintCat(a + b, c);
    BigintCat(a, b);
  }

  function RequestBack(p: Path): Forest {
    [Outermost([Member(0, Array, Children([Element(None, None, List, Children(PathBack(p)))]))])]
  }

  lemma RequestReads(p: Path)
    requires PathWritable(p) && EncodeForest(ReadRequest(p)).Ok?
    ensures Items(EncodeForest(ReadRequest(p)).value) == Ok(Parsed(RequestBack(p), [], false, 0))
  {
    hide Items;
    hide EncodeForest;
    hide PathBack;
    hide PathMembers;
    hide PathWritable;
    PathReads(p);
    var path := Element(None, None, List, Children(PathMembers(p)));
    var list := Member(0, Array, Children([path]));
    InnerReads(path);
    NormOne(path);
    InnerReads(list);
    NormOne(list);
    InnerReads(Outermost([list]));
    NormOne(Outermost([list]));
    WritesExactlyWritable(ReadRequest(p));
    DecodeEncodeIffFaithful(ReadRequest(p));
  }

  lemma RequestBigint(p: Path)
    requires PathWritable(p)
    ensures HasBigint(RequestBack(p)) <==> !PathNarrow(p)
  {
    hide HasBigint;
    hide PathBack;
    hide PathNarrow;
    PathBigint(p);
    var path := Element(None, None, List, Children(PathBack(p)));
    BigintOne(path);
    BigintOne(Member(0, Array, Children([path])));
    BigintOne(RequestBack(p)[0]);
  }

  /** A request for a path is understood, as just this path, if and only if all its numbers fit in 32 bits: a node id
      beyond them comes as a bigint, at which the request's logging throws. */
  lemma UnderstoodIffNarrow(p: Path)
    requires PathWritable(p) && EncodeForest(ReadRequest(p)).Ok?
    ensures var entries := Requested(EncodeForest(ReadRequest(p)).value);
            && (entries.Ok? <==> PathNarrow(p))
            && (entries.Ok? ==> |entries.value| == 1 && PathOf(entries.value[0]) == Ok(p))
  {
    NarrowIsNotWide(p);
    hide NothingWide;
    hide Items;
    hide EncodeForest;
    hide HasBigint;
    hide PathBack;
    hide PathNarrow;
    hide PathAgain;
    hide PathOf;
    RequestReads(p);
    RequestBigint(p);
    PathReadsBack(p);
    var path := Element(None, None, List, Children(PathBack(p)));
    assert Tagged([Member(0, Array, Children([path]))], 0) == Children([path]);
    assert Values([path]) == [path.value];
  }

  lemma NarrowIsNotWide(p: Path)
    ensures PathNarrow(p) ==> NothingWide(p)
  {
  }
}
