/** Answering a read request: src/protocols/interaction_model/ImReadMixin.js and AttributePath.js. */
module ReadReports {
  import opened Bytes
  import opened Tlv
  import opened TlvCodec
  import opened TlvGrammar
  import opened TlvPrinter
  import opened TlvAccess
  import TlvWriter

  /** The endpoints in the order of the table, and the value of an attribute of a cluster on an endpoint: nothing where
      there is no such cluster or attribute, an exception where there is no such endpoint. */
  datatype Node = Node(endpoints: seq<nat>, lookup: (Value, Value, Value) -> Result<Option<Value>>)

  datatype Path = Path(node: Value, endpoint: Value, cluster: Value, attribute: Value)

  datatype Report = Report(path: Path, value: Value)

  const NOWHERE := Path(Undefined, Undefined, Undefined, Undefined)

  // ----- which reports a request gets

  /** `new AttributePath(v)`: undefined sets nothing, a buffer has no tags, and what is not an array has no `find`. */
  function PathOf(v: Value): Result<Path> {
    match v
    case Children(items) => Ok(Path(Tagged(items, 1), Tagged(items, 2), Tagged(items, 3), Tagged(items, 4)))
    case Undefined | Buf(_) => Ok(NOWHERE)
    case _ => Err(Thrown)
  }

  function Found(path: Path, attribute: Option<Value>): seq<Report> {
    if attribute.Some? then [Report(path, attribute.value)] else []
  }

  /** The wildcard's reports on the first of the endpoints, each under a path with the endpoint filled in. */
  function OnEndpoints(node: Node, path: Path, endpoints: seq<nat>): Result<seq<Report>> {
    if endpoints == [] then Ok([])
    else
      var key := Num(endpoints[|endpoints| - 1]);
      var before :- OnEndpoints(node, path, endpoints[..|endpoints| - 1]);
      var attribute :- node.lookup(key, path.cluster, path.attribute);
      Ok(before + Found(path.(endpoint := key), attribute))
  }

  function OnPath(node: Node, path: Path): Result<seq<Report>> {
    if path.endpoint.Undefined? then OnEndpoints(node, path, node.endpoints)
    else
      var attribute :- node.lookup(path.endpoint, path.cluster, path.attribute);
      Ok(Found(path, attribute))
  }

  function Reports(node: Node, entries: seq<Value>): Result<seq<Report>> {
    if entries == [] then Ok([])
    else
      var before :- Reports(node, entries[..|entries| - 1]);
      var path :- PathOf(entries[|entries| - 1]);
      var last :- OnPath(node, path);
      Ok(before + last)
  }

  /** Is there a bigint anywhere in the tree? */
  predicate HasBigint(es: Forest)
    decreases es, 0
  {
    es != [] && (HoldsBigint(es[0]) || HasBigint(es[1..]))
  }

  predicate HoldsBigint(e: Element)
    decreases e, 1
  {
    e.value.Big? || (e.value.Children? && HasBigint(e.value.items))
  }

  /** The attribute requests of a message: its first member tagged 0.  The message is first logged as JSON, which
      throws at a bigint. */
  function Requested(tlv: bytes): Result<seq<Value>> {
    var p :- Items(tlv);
    if HasBigint(p.items) then Err(Thrown)
    else
      var params :- At(Children(p.items), 0);
      match params
      case Children(items) =>
        (match Tagged(items, 0)
         case Children(entries) => Ok(Values(entries))
         case Buf(d) => Ok(seq(|d|, _ => Undefined))
         case _ => Err(Thrown))
      case _ => Err(Thrown)
  }

  function Values(entries: Forest): seq<Value> {
    seq(|entries|, i requires 0 <= i < |entries| => entries[i].value)
  }

  // ----- the report as a tree

  const DATA_VERSION: nat := 0x79cea838

  function Optional(tag: int, v: Value): Forest {
    if v.Undefined? then [] else [Member(tag, UInt(8), v)]
  }

  function PathMembers(p: Path): Forest {
    Optional(1, p.node) + Optional(2, p.endpoint) + Optional(3, p.cluster) + Optional(4, p.attribute)
  }

  function PathElement(p: Path): Element {
    Member(1, List, Children(PathMembers(p)))
  }

  function DataMembers(r: Report): Forest {
    [Member(0, UInt(4), Num(DATA_VERSION)), PathElement(r.path), Member(2, NoName, r.value)]
  }

  function ReportElement(r: Report): Element {
    Outermost([Member(1, Struct, Children(DataMembers(r)))])
  }

  function Elements(rs: seq<Report>): Forest {
    seq(|rs|, i requires 0 <= i < |rs| => ReportElement(rs[i]))
  }

  function ReportData(rs: seq<Report>): Element {
    Outermost([Member(1, Array, Children(Elements(rs)))])
  }

  /** What is sent back. */
  function Answer(node: Node, tlv: bytes): Result<bytes> {
    var entries :- Requested(tlv);
    var rs :- Reports(node, entries);
    EncodeForest([ReportData(rs)])
  }

  // ----- pieces of encodings

  lemma {:induction false} EncodeCat(a: Forest, b: Forest)
    ensures EncodeForest(a).Err? || EncodeForest(b).Err? ==> EncodeForest(a + b).Err?
    ensures EncodeForest(a).Ok? && EncodeForest(b).Ok? ==>
              EncodeForest(a + b) == Ok(EncodeForest(a).value + EncodeForest(b).value)
  {
    hide EncodeElement;
    if a == [] {
      assert a + b == b;
      if EncodeForest(b).Ok? { assert [] + EncodeForest(b).value == EncodeForest(b).value; }
    } else {
      assert (a + b)[1..] == a[1..] + b;
      EncodeCat(a[1..], b);
      if EncodeElement(a[0]).Ok? && EncodeForest(a[1..]).Ok? && EncodeForest(b).Ok? {
        var x, y, z := EncodeElement(a[0]).value, EncodeForest(a[1..]).value, EncodeForest(b).value;
        assert x + (y + z) == x + y + z;
      }
    }
  }

  lemma EncodeOne(e: Element)
    ensures EncodeForest([e]) == EncodeElement(e)
  {
    hide EncodeElement;
    assert [e][1..] == [];
    if EncodeElement(e).Ok? {
      assert EncodeElement(e).value + [] == EncodeElement(e).value;
    }
  }

  /** A container is its head, its members and the end. */
  lemma EncodeContainer(typ: TypeName, tag: Option<int>, items: Forest)
    requires IsContainer(typ)
    ensures EncodeElement(Element(None, tag, typ, Children(items)))
            == match PutStart(typ, tag, None)
               case Err(e) => Err(e)
               case Ok(head) =>
                 match EncodeForest(items)
                 case Err(e) => Err(e)
                 case Ok(body) => Ok(head + body + [TYPE_END])
  {
    assert EncodeInner(Children(items)) == EncodeForest(items);
  }

  // ----- streaming

  /** The buffer grew by the encoding, or the writer threw. */
  predicate Wrote(before: bytes, now: bytes, outcome: Result<()>, encoded: Result<bytes>) {
    if encoded.Ok? then outcome.Ok? && now == before + encoded.value else outcome.Err?
  }

  /** Writing one forest and then, unless that threw, another. */
  lemma WroteBoth(before: bytes, between: bytes, now: bytes, first: Result<()>, second: Result<()>, a: Forest,
                  b: Forest)
    requires Wrote(before, between, first, EncodeForest(a))
    requires if first.Ok? then Wrote(between, now, second, EncodeForest(b)) else second == first
    ensures Wrote(before, now, second, EncodeForest(a + b))
  {
    hide EncodeForest;
    EncodeCat(a, b);
    if EncodeForest(a).Ok? && EncodeForest(b).Ok? {
      assert before + EncodeForest(a).value + EncodeForest(b).value
          == before + (EncodeForest(a).value + EncodeForest(b).value);
    }
  }

  method PutOptional(w: TlvWriter.TlvWriter, tag: int, v: Value) returns (outcome: Result<()>)
    modifies w
    ensures Wrote(old(w.buf), w.buf, outcome, EncodeForest(Optional(tag, v)))
  {
    if v.Undefined? {
      assert EncodeForest([]) == Ok([]);
      assert w.buf + [] == w.buf;
      return Ok(());
    }
    EncodeOne(Member(tag, UInt(8), v));
    outcome := w.PutUnsignedInt(v, Some(tag), None);
  }

  /** `AttributePath.serialize` */
  method Serialize(w: TlvWriter.TlvWriter, p: Path) returns (outcome: Result<()>)
    modifies w
    ensures Wrote(old(w.buf), w.buf, outcome, EncodeForest([PathElement(p)]))
  {
    hide EncodeForest;
    hide EncodeElement;
    hide Optional;
    EncodeOne(PathElement(p));
    EncodeContainer(List, Some(1), PathMembers(p));
    outcome := w.PutStart(List, Some(1), None);
    if outcome.Err? { return; }
    ghost var started := w.buf;
    outcome := PutPath(w, p);
    if outcome.Err? { return; }
    w.PutContainerEnd();
    ghost var head, body := PutStart(List, Some(1), None).value, EncodeForest(PathMembers(p)).value;
    assert old(w.buf) + (head + body + [TYPE_END]) == old(w.buf) + head + body + [TYPE_END];
  }

  method PutPath(w: TlvWriter.TlvWriter, p: Path) returns (outcome: Result<()>)
    modifies w
    ensures Wrote(old(w.buf), w.buf, outcome, EncodeForest(PathMembers(p)))
  {
    hide EncodeForest;
    hide Optional;
    hide Wrote;
    ghost var node, endpoint, cluster, attribute :=
      Optional(1, p.node), Optional(2, p.endpoint), Optional(3, p.cluster), Optional(4, p.attribute);
    outcome := PutOptional(w, 1, p.node);
    ghost var buf1, outcome1 := w.buf, outcome;
    if outcome.Ok? { outcome := PutOptional(w, 2, p.endpoint); }
    WroteBoth(old(w.buf), buf1, w.buf, outcome1, outcome, node, endpoint);
    ghost var buf2, outcome2 := w.buf, outcome;
    if outcome.Ok? { outcome := PutOptional(w, 3, p.cluster); }
    WroteBoth(old(w.buf), buf2, w.buf, outcome2, outcome, node + endpoint, cluster);
    ghost var buf3, outcome3 := w.buf, outcome;
    if outcome.Ok? { outcome := PutOptional(w, 4, p.attribute); }
    WroteBoth(old(w.buf), buf3, w.buf, outcome3, outcome, node + endpoint + cluster, attribute);
  }

  /** The members of AttributeDataIB. */
  method PutData(w: TlvWriter.TlvWriter, r: Report) returns (outcome: Result<()>)
    modifies w
    ensures Wrote(old(w.buf), w.buf, outcome, EncodeForest(DataMembers(r)))
  {
    hide EncodeForest;
    ghost var version, data := Member(0, UInt(4), Num(DATA_VERSION)), Member(2, NoName, r.value);
    EncodeOne(version);
    EncodeOne(data);
    outcome := w.PutUnsignedInt(Num(DATA_VERSION), Some(0), None);
    ghost var buf1, outcome1 := w.buf, outcome;
    if outcome.Ok? { outcome := Serialize(w, r.path); }
    hide PathElement;
    hide Wrote;
    WroteBoth(old(w.buf), buf1, w.buf, outcome1, outcome, [version], [PathElement(r.path)]);
    ghost var buf2, outcome2 := w.buf, outcome;
    if outcome.Ok? { outcome := PutValue(w, r.value); }
    WroteBoth(old(w.buf), buf2, w.buf, outcome2, outcome, [version] + [PathElement(r.path)], [data]);
    assert DataMembers(r) == [version] + [PathElement(r.path)] + [data];
  }

  method PutValue(w: TlvWriter.TlvWriter, v: Value) returns (outcome: Result<()>)
    modifies w
    ensures Wrote(old(w.buf), w.buf, outcome, EncodeForest([Member(2, NoName, v)]))
  {
    EncodeOne(Member(2, NoName, v));
    outcome := w.Put(v, Some(2), None);
  }

  method ReportAttribute(w: TlvWriter.TlvWriter, r: Report) returns (outcome: Result<()>)
    modifies w
    ensures Wrote(old(w.buf), w.buf, outcome, EncodeForest([ReportElement(r)]))
  {
    hide EncodeForest;
    hide EncodeElement;
    hide DataMembers;
    ghost var inner := Member(1, Struct, Children(DataMembers(r)));
    EncodeOne(ReportElement(r));
    EncodeOne(inner);
    EncodeContainer(Struct, None, [inner]);
    EncodeContainer(Struct, Some(1), DataMembers(r));
    outcome := w.PutStart(Struct, None, None);
    if outcome.Err? { return; }
    outcome := w.PutStart(Struct, Some(1), None);
    if outcome.Err? { return; }
    outcome := PutData(w, r);
    if outcome.Err? { return; }
    w.PutContainerEnd();
    w.PutContainerEnd();
    ghost var h1, h2, body := PutStart(Struct, None, None).value, PutStart(Struct, Some(1), None).value,
                              EncodeForest(DataMembers(r)).value;
    assert old(w.buf) + (h1 + (h2 + body + [TYPE_END]) + [TYPE_END])
        == old(w.buf) + h1 + h2 + body + [TYPE_END] + [TYPE_END];
  }

  // ----- all reports of a request

  /** The encoding of reports that could be looked up. */
  function Encoded(rs: Result<seq<Report>>): Result<bytes> {
    match rs
    case Err(e) => Err(e)
    case Ok(found) => EncodeForest(Elements(found))
  }

  function Joined(a: Result<seq<Report>>, b: Result<seq<Report>>): Result<seq<Report>> {
    var x :- a;
    var y :- b;
    Ok(x + y)
  }

  lemma EncodeJoined(a: Result<seq<Report>>, b: Result<seq<Report>>)
    ensures Encoded(a).Err? || Encoded(b).Err? ==> Encoded(Joined(a, b)).Err?
    ensures Encoded(a).Ok? && Encoded(b).Ok? ==> Encoded(Joined(a, b)) == Ok(Encoded(a).value + Encoded(b).value)
  {
    hide EncodeForest;
    if a.Ok? && b.Ok? {
      assert Elements(a.value + b.value) == Elements(a.value) + Elements(b.value);
      EncodeCat(Elements(a.value), Elements(b.value));
    }
  }

  lemma WroteJoined(before: bytes, between: bytes, now: bytes, second: Result<()>, a: Result<seq<Report>>,
                    b: Result<seq<Report>>)
    requires Wrote(before, between, Ok(()), Encoded(a)) && Wrote(between, now, second, Encoded(b))
    ensures Wrote(before, now, second, Encoded(Joined(a, b)))
  {
    hide Encoded;
    EncodeJoined(a, b);
    if Encoded(a).Ok? && Encoded(b).Ok? {
      assert before + Encoded(a).value + Encoded(b).value == before + (Encoded(a).value + Encoded(b).value);
    }
  }

  lemma NoReports()
    ensures Encoded(Ok([])) == Ok([])
  {
    assert Elements([]) == [];
  }

  function OnEndpoint(node: Node, path: Path, key: nat): Result<seq<Report>> {
    var attribute :- node.lookup(Num(key), path.cluster, path.attribute);
    Ok(Found(path.(endpoint := Num(key)), attribute))
  }

  function OnEntry(node: Node, entry: Value): Result<seq<Report>> {
    var path :- PathOf(entry);
    OnPath(node, path)
  }

  lemma EndpointsSnoc(node: Node, path: Path, endpoints: seq<nat>, i: nat)
    requires i < |endpoints|
    ensures Encoded(OnEndpoints(node, path, endpoints[..i + 1]))
            == Encoded(Joined(OnEndpoints(node, path, endpoints[..i]), OnEndpoint(node, path, endpoints[i])))
  {
    assert endpoints[..i + 1][..i] == endpoints[..i] && endpoints[..i + 1][i] == endpoints[i];
  }

  lemma EntriesSnoc(node: Node, entries: seq<Value>, i: nat)
    requires i < |entries|
    ensures Encoded(Reports(node, entries[..i + 1]))
            == Encoded(Joined(Reports(node, entries[..i]), OnEntry(node, entries[i])))
  {
    hide OnPath;
    hide PathOf;
    assert entries[..i + 1][..i] == entries[..i] && entries[..i + 1][i] == entries[i];
  }

  /** What fails on some fails on all. */
  lemma {:induction false} EndpointsFail(node: Node, path: Path, endpoints: seq<nat>, i: nat)
    requires i <= |endpoints| && Encoded(OnEndpoints(node, path, endpoints[..i])).Err?
    ensures Encoded(OnEndpoints(node, path, endpoints)).Err?
  {
    hide Encoded;
    hide OnEndpoints;
    var n := |endpoints| - 1;
    if i <= n {
      assert endpoints[..n][..i] == endpoints[..i] && endpoints[..n + 1] == endpoints;
      EndpointsFail(node, path, endpoints[..n], i);
      EndpointsSnoc(node, path, endpoints, n);
      EncodeJoined(OnEndpoints(node, path, endpoints[..n]), OnEndpoint(node, path, endpoints[n]));
    } else {
      assert endpoints[..i] == endpoints;
    }
  }

  lemma {:induction false} EntriesFail(node: Node, entries: seq<Value>, i: nat)
    requires i <= |entries| && Encoded(Reports(node, entries[..i])).Err?
    ensures Encoded(Reports(node, entries)).Err?
  {
    hide Encoded;
    hide Reports;
    var n := |entries| - 1;
    if i <= n {
      assert entries[..n][..i] == entries[..i] && entries[..n + 1] == entries;
      EntriesFail(node, entries[..n], i);
      EntriesSnoc(node, entries, n);
      EncodeJoined(Reports(node, entries[..n]), OnEntry(node, entries[n]));
    } else {
      assert entries[..i] == entries;
    }
  }

  /** The branch of one lookup. */
  method ReportFound(w: TlvWriter.TlvWriter, path: Path, attribute: Result<Option<Value>>) returns (outcome: Result<()>)
    modifies w
    ensures Wrote(old(w.buf), w.buf, outcome,
                  if attribute.Err? then Err(attribute.error) else Encoded(Ok(Found(path, attribute.value))))
  {
    hide EncodeForest;
    if attribute.Err? {
      return Err(attribute.error);
    }
    if attribute.value.Some? {
      var r := Report(path, attribute.value.value);
      assert Elements([r]) == [ReportElement(r)];
      outcome := ReportAttribute(w, r);
    } else {
      NoReports();
      assert w.buf + [] == w.buf;
      outcome := Ok(());
    }
  }

  method ReportWildcard(node: Node, w: TlvWriter.TlvWriter, wild: Path) returns (outcome: Result<()>)
    modifies w
    ensures Wrote(old(w.buf), w.buf, outcome, Encoded(OnEndpoints(node, wild, node.endpoints)))
  {
    hide Encoded;
    hide OnEndpoints;
    var path, i := wild, 0;
    assert node.endpoints[..0] == [];
    EndpointsOfNone(node, wild);
    assert w.buf + [] == w.buf;
    outcome := Ok(());
    while i < |node.endpoints|
      invariant 0 <= i <= |node.endpoints| && path.(endpoint := Undefined) == wild.(endpoint := Undefined)
      invariant outcome.Ok? && Wrote(old(w.buf), w.buf, outcome, Encoded(OnEndpoints(node, wild, node.endpoints[..i])))
    {
      var key := Num(node.endpoints[i]);
      var attribute := node.lookup(key, path.cluster, path.attribute);
      ghost var between := w.buf;
      if attribute.Ok? && attribute.value.Some? { path := path.(endpoint := key); }
      outcome := ReportFound(w, path, attribute);
      EndpointReports(node, wild, node.endpoints[i]);
      EndpointsSnoc(node, wild, node.endpoints, i);
      WroteJoined(old(w.buf), between, w.buf, outcome, OnEndpoints(node, wild, node.endpoints[..i]),
                  OnEndpoint(node, wild, node.endpoints[i]));
      if outcome.Err? {
        EndpointsFail(node, wild, node.endpoints, i + 1);
        return;
      }
      i := i + 1;
    }
    assert node.endpoints[..i] == node.endpoints;
  }

  lemma EndpointsOfNone(node: Node, path: Path)
    ensures Encoded(OnEndpoints(node, path, [])) == Ok([])
  {
    NoReports();
  }

  lemma EndpointReports(node: Node, path: Path, key: nat)
    ensures Encoded(OnEndpoint(node, path, key))
            == match node.lookup(Num(key), path.cluster, path.attribute)
               case Err(e) => Err(e)
               case Ok(attribute) => Encoded(Ok(Found(path.(endpoint := Num(key)), attribute)))
  {
  }

  method ReportEntry(node: Node, w: TlvWriter.TlvWriter, entry: Value) returns (outcome: Result<()>)
    modifies w
    ensures Wrote(old(w.buf), w.buf, outcome, Encoded(OnEntry(node, entry)))
  {
    hide EncodeForest;
    hide OnEndpoints;
    var path := PathOf(entry);
    if path.Err? {
      return Err(path.error);
    }
    if path.value.endpoint.Undefined? {
      outcome := ReportWildcard(node, w, path.value);
    } else {
      outcome := ReportFound(w, path.value, node.lookup(path.value.endpoint, path.value.cluster, path.value.attribute));
    }
  }

  method ReportEntries(node: Node, w: TlvWriter.TlvWriter, entries: seq<Value>) returns (outcome: Result<()>)
    modifies w
    ensures Wrote(old(w.buf), w.buf, outcome, Encoded(Reports(node, entries)))
  {
    hide Encoded;
    hide Reports;
    hide OnEntry;
    var i := 0;
    assert entries[..0] == [];
    EntriesOfNone(node);
    assert w.buf + [] == w.buf;
    outcome := Ok(());
    while i < |entries|
      invariant 0 <= i <= |entries|
      invariant outcome.Ok? && Wrote(old(w.buf), w.buf, outcome, Encoded(Reports(node, entries[..i])))
    {
      ghost var between := w.buf;
      outcome := ReportEntry(node, w, entries[i]);
      EntriesSnoc(node, entries, i);
      WroteJoined(old(w.buf), between, w.buf, outcome, Reports(node, entries[..i]), OnEntry(node, entries[i]));
      if outcome.Err? {
        EntriesFail(node, entries, i + 1);
        return;
      }
      i := i + 1;
    }
    assert entries[..i] == entries;
  }

  lemma EntriesOfNone(node: Node)
    ensures Encoded(Reports(node, [])) == Ok([])
  {
    NoReports();
  }

  /** The reports within the structure and the array that `onReadRequest` opens and closes. */
  lemma EncodeReportData(rs: seq<Report>)
    ensures EncodeForest([ReportData(rs)])
            == match PutStart(Struct, None, None)
               case Err(e) => Err(e)
               case Ok(outer) =>
                 match PutStart(Array, Some(1), None)
                 case Err(e) => Err(e)
                 case Ok(inner) =>
                   match Encoded(Ok(rs))
                   case Err(e) => Err(e)
                   case Ok(body) => Ok(outer + inner + body + [TYPE_END, TYPE_END])
  {
    hide EncodeForest;
    hide EncodeElement;
    hide PutStart;
    hide Elements;
    var list := Member(1, Array, Children(Elements(rs)));
    EncodeOne(Outermost([list]));
    EncodeOne(list);
    EncodeContainer(Struct, None, [list]);
    EncodeContainer(Array, Some(1), Elements(rs));
    if PutStart(Struct, None, None).Ok? && PutStart(Array, Some(1), None).Ok? && Encoded(Ok(rs)).Ok? {
      var h1, h2, body := PutStart(Struct, None, None).value, PutStart(Array, Some(1), None).value,
          Encoded(Ok(rs)).value;
      assert h1 + h2 + body + [TYPE_END, TYPE_END] == h1 + (h2 + body + [TYPE_END]) + [TYPE_END];
    }
  }

  /** `onReadRequest`: the payload of the report, written as the reports are found. */
  method OnReadRequest(node: Node, tlv: bytes) returns (payload: Result<bytes>)
    ensures payload.Ok? <==> Answer(node, tlv).Ok?
    ensures payload.Ok? ==> payload == Answer(node, tlv)
  {
    hide EncodeForest;
    hide Encoded;
    hide Reports;
    hide Requested;
    hide TlvPrinter.PutStart;
    var entries := Requested(tlv);
    if entries.Err? {
      return Err(entries.error);
    }
    var w := new TlvWriter.TlvWriter();
    ghost var rs := Reports(node, entries.value);
    if rs.Ok? { EncodeReportData(rs.value); }
    EncodedFails(rs);
    var outcome := w.PutStart(Struct, None, None);
    if outcome.Err? { return Err(outcome.error); }
    outcome := w.PutStart(Array, Some(1), None);
    if outcome.Err? { return Err(outcome.error); }
    outcome := ReportEntries(node, w, entries.value);
    if outcome.Err? { return Err(outcome.error); }
    w.PutContainerEnd();
    w.PutContainerEnd();
    ghost var h1, h2, body := PutStart(Struct, None, None).value, PutStart(Array, Some(1), None).value,
        Encoded(rs).value;
    assert [] + h1 + h2 + body + [TYPE_END] + [TYPE_END] == h1 + h2 + body + [TYPE_END, TYPE_END];
    payload := Ok(w.buf);
  }

  lemma EncodedFails(rs: Result<seq<Report>>)
    ensures rs.Err? ==> Encoded(rs).Err?
  {
  }
}
