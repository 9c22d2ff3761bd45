/** The event graph over whole histories: what its indexes hold, and what the order of arrival decides. */
module DomainEventRuns {
  import opened Common
  import opened DomainEventGraph
  import opened Sorting

  /** The graph after a batch of envelopes, accepted or not. */
  function Build(batch: seq<Envelope>): Graph {
    if batch == [] then EMPTY else Ingested(Build(batch[..|batch| - 1]), batch[|batch| - 1]).0
  }

  predicate HasKey(log: seq<Envelope>, key: string) {
    exists i :: 0 <= i < |log| && log[i].key == key
  }

  /** The envelopes a batch leaves in the log: the first valid one under each key. */
  function Accepted(batch: seq<Envelope>): seq<Envelope> {
    if batch == [] then []
    else LogAfter(Accepted(batch[..|batch| - 1]), batch[|batch| - 1])
  }

  function LogAfter(log: seq<Envelope>, e: Envelope): seq<Envelope> {
    if Valid(e) && !HasKey(log, e.key) then log + [e] else log
  }

  // ---- what the graph says of its log ----------------------------------------------------------------

  predicate Carries(e: Envelope, x: EdgeRef) {
    x in BridgeEdges(e)
  }

  predicate Names(e: Envelope, node: string) {
    node in NodeRefs(AllRefs(e))
  }

  predicate InCase(e: Envelope, c: string) {
    Ref(Case, c) in e.refs
  }

  ghost predicate EventsOk(g: Graph, log: seq<Envelope>) {
    && (forall e :: e in log ==> e.key in g.events && g.events[e.key] == RecordOf(e))
    && (forall k :: k in g.events ==> g.events[k].envelope in log && g.events[k].envelope.key == k)
  }

  ghost predicate NodesOk(g: Graph, log: seq<Envelope>) {
    forall n: string :: n in g.nodes <==> exists e :: e in log && Names(e, n)
  }

  ghost predicate EdgesOk(g: Graph, log: seq<Envelope>) {
    forall x: EdgeRef :: x in g.edges <==> exists e :: e in log && Carries(e, x)
  }

  ghost predicate EdgeIndexOk(g: Graph, log: seq<Envelope>) {
    forall x: EdgeRef, e: Envelope :: e in EventsOn(g, x) <==> e in log && Carries(e, x)
  }

  ghost predicate CaseIndexOk(g: Graph, log: seq<Envelope>) {
    forall c: string, e: Envelope :: e in EventsUnder(g, c) <==> e in log && InCase(e, c)
  }

  ghost predicate Reflects(g: Graph, log: seq<Envelope>) {
    EventsOk(g, log) && NodesOk(g, log) && EdgesOk(g, log) && EdgeIndexOk(g, log) && CaseIndexOk(g, log)
  }

  // ---- the effect of one event -----------------------------------------------------------------------

  /** `h` is `g` with nodes for these names, made by `e` where they were new. */
  ghost predicate NodesAdded(g: Graph, h: Graph, names: seq<string>, e: Envelope, n: string) {
    && (n in h.nodes <==> n in g.nodes || n in names)
    && (n in g.nodes ==> n in h.nodes && h.nodes[n] == g.nodes[n])
    && (n !in g.nodes && n in h.nodes ==> h.nodes[n].firstSeen == e && NodeRef(h.nodes[n].ref) == n)
  }

  lemma WithNodeEffect(g: Graph, r: Ref, e: Envelope, n: string)
    ensures NodesAdded(g, WithNode(g, r, e), [NodeRef(r)], e, n)
    ensures WithNode(g, r, e) == g.(nodes := WithNode(g, r, e).nodes)
  {
  }

  lemma NodesAddedTwice(g: Graph, m: Graph, h: Graph, some: seq<string>, more: seq<string>, e: Envelope, n: string)
    requires NodesAdded(g, m, some, e, n) && NodesAdded(m, h, more, e, n)
    ensures NodesAdded(g, h, some + more, e, n)
  {
  }

  lemma {:induction false} WithNodesEffect(g: Graph, refs: seq<Ref>, e: Envelope, n: string)
    ensures WithNodes(g, refs, e) == g.(nodes := WithNodes(g, refs, e).nodes)
    ensures NodesAdded(g, WithNodes(g, refs, e), NodeRefs(refs), e, n)
  {
    if refs != [] {
      var k := |refs| - 1;
      var m := WithNodes(g, refs[..k], e);
      WithNodesEffect(g, refs[..k], e, n);
      WithNodeEffect(m, refs[k], e, n);
      NodesAddedTwice(g, m, WithNode(m, refs[k], e), NodeRefs(refs[..k]), [NodeRef(refs[k])], e, n);
    }
  }

  lemma {:induction false} WithEdgesEffect(g: Graph, edges: seq<EdgeRef>, e: Envelope, x: EdgeRef)
    ensures var h := WithEdges(g, edges, e);
      && h == g.(edges := h.edges, eventEdges := h.eventEdges)
      && (x in h.edges <==> x in g.edges || x in edges)
      && (x in g.edges ==> h.edges[x] == g.edges[x])
      && (x !in g.edges && x in edges ==> h.edges[x] == EdgeOf(e))
      && EventsOn(h, x) == EventsOn(g, x) + (if x in edges then {e} else {})
  {
    if edges != [] {
      var n := |edges| - 1;
      WithEdgesEffect(g, edges[..n], e, x);
      assert edges == edges[..n] + [edges[n]];
    }
  }

  lemma {:induction false} WithCasesEffect(g: Graph, cases: seq<string>, e: Envelope, c: string)
    ensures var h := WithCases(g, cases, e);
      && h == g.(caseEvents := h.caseEvents)
      && EventsUnder(h, c) == EventsUnder(g, c) + (if c in cases then {e} else {})
  {
    if cases != [] {
      var n := |cases| - 1;
      WithCasesEffect(g, cases[..n], e, c);
      assert cases == cases[..n] + [cases[n]];
    }
  }

  lemma ExtendedEffect(g: Graph, e: Envelope, n: string, x: EdgeRef, c: string)
    ensures var h := Extended(g, e);
      && h.events == g.events[e.key := RecordOf(e)]
      && NodesAdded(g, h, NodeRefs(AllRefs(e)), e, n)
      && (x in h.edges <==> x in g.edges || Carries(e, x))
      && (x in g.edges ==> h.edges[x] == g.edges[x])
      && (x !in g.edges && Carries(e, x) ==> h.edges[x] == EdgeOf(e))
      && EventsOn(h, x) == EventsOn(g, x) + (if Carries(e, x) then {e} else {})
      && EventsUnder(h, c) == EventsUnder(g, c) + (if InCase(e, c) then {e} else {})
  {
    var g1 := WithNodes(g, AllRefs(e), e);
    var g2 := WithEdges(g1, BridgeEdges(e), e);
    WithNodesEffect(g, AllRefs(e), e, n);
    WithEdgesEffect(g1, BridgeEdges(e), e, x);
    WithCasesEffect(g2, Ids(e.refs, Case), e, c);
    IdsExact(e.refs, Case, c);
  }

  lemma ExtendedEvents(g: Graph, log: seq<Envelope>, e: Envelope)
    requires EventsOk(g, log) && !HasKey(log, e.key)
    ensures EventsOk(Extended(g, e), log + [e])
  {
    ExtendedEffect(g, e, "", EdgeRef(MailCase, "", ""), "");
  }

  lemma ExtendedNodes(g: Graph, log: seq<Envelope>, e: Envelope)
    requires NodesOk(g, log)
    ensures NodesOk(Extended(g, e), log + [e])
  {
    forall n: string
      ensures n in Extended(g, e).nodes <==> exists d :: d in log + [e] && Names(d, n)
    {
      ExtendedEffect(g, e, n, EdgeRef(MailCase, "", ""), "");
      assert e in log + [e];
    }
  }

  lemma ExtendedEdges(g: Graph, log: seq<Envelope>, e: Envelope)
    requires EdgesOk(g, log)
    ensures EdgesOk(Extended(g, e), log + [e])
  {
    forall x: EdgeRef
      ensures x in Extended(g, e).edges <==> exists d :: d in log + [e] && Carries(d, x)
    {
      ExtendedEffect(g, e, "", x, "");
      assert e in log + [e];
    }
  }

  lemma ExtendedEdgeIndex(g: Graph, log: seq<Envelope>, e: Envelope)
    requires EdgeIndexOk(g, log)
    ensures EdgeIndexOk(Extended(g, e), log + [e])
  {
    forall x: EdgeRef, d: Envelope
      ensures d in EventsOn(Extended(g, e), x) <==> d in log + [e] && Carries(d, x)
    {
      ExtendedEffect(g, e, "", x, "");
    }
  }

  lemma ExtendedCaseIndex(g: Graph, log: seq<Envelope>, e: Envelope)
    requires CaseIndexOk(g, log)
    ensures CaseIndexOk(Extended(g, e), log + [e])
  {
    forall c: string, d: Envelope
      ensures d in EventsUnder(Extended(g, e), c) <==> d in log + [e] && InCase(d, c)
    {
      ExtendedEffect(g, e, "", EdgeRef(MailCase, "", ""), c);
    }
  }

  lemma ExtendedReflects(g: Graph, log: seq<Envelope>, e: Envelope)
    requires Reflects(g, log) && !HasKey(log, e.key)
    ensures Reflects(Extended(g, e), log + [e])
  {
    ExtendedEvents(g, log, e);
    ExtendedNodes(g, log, e);
    ExtendedEdges(g, log, e);
    ExtendedEdgeIndex(g, log, e);
    ExtendedCaseIndex(g, log, e);
  }

  /** Whatever arrives, the graph holds exactly what the first valid envelope under each key put there. */
  lemma {:induction false} BuildReflects(batch: seq<Envelope>)
    ensures Reflects(Build(batch), Accepted(batch))
  {
    if batch != [] {
      var n := |batch| - 1;
      BuildReflects(batch[..n]);
      var g, log, e := Build(batch[..n]), Accepted(batch[..n]), batch[n];
      KeysAgree(g, log, e.key);
      if Valid(e) && !HasKey(log, e.key) {
        ExtendedReflects(g, log, e);
      }
    }
  }

  lemma KeysAgree(g: Graph, log: seq<Envelope>, key: string)
    requires EventsOk(g, log)
    ensures key in g.events <==> HasKey(log, key)
  {
    if key in g.events {
      var e := g.events[key].envelope;
      var i :| 0 <= i < |log| && log[i] == e;
      assert log[i].key == key;
    }
    forall i | 0 <= i < |log| && log[i].key == key
      ensures key in g.events
    {
      assert log[i] in log;
    }
  }

  // ---- the timeline ----------------------------------------------------------------------------------

  /** The two-index query finds exactly the ingested events that name the case; the pass over the edges adds
      none. */
  lemma TimelineIsFilter(g: Graph, log: seq<Envelope>, c: string, e: Envelope)
    requires Reflects(g, log)
    ensures e in ForCase(g, c) <==> e in log && InCase(e, c)
    ensures e in OverEdges(g, c) ==> e in EventsUnder(g, c)
  {
    if e in OverEdges(g, c) {
      var x :| x in g.edges && (x.source == CaseNode(c) || x.target == CaseNode(c)) && e in EventsOn(g, x);
      assert Carries(e, x);
      EdgeAtCase(e, x, c);
    }
  }

  /** Every event an index names is in the log, so looking it up never fails. */
  lemma EveryEventFound(g: Graph, log: seq<Envelope>, c: string, e: Envelope)
    requires Reflects(g, log) && e in ForCase(g, c)
    ensures e.key in g.events && g.events[e.key] == RecordOf(e)
    ensures forall k :: k in g.events && g.events[k].envelope == e ==> k == e.key
  {
    TimelineIsFilter(g, log, c, e);
  }

  // ---- replay ----------------------------------------------------------------------------------------

  /** An envelope the graph has already accepted changes nothing, and the answer names what the first one did. */
  lemma ReplayChangesNothing(batch: seq<Envelope>, e: Envelope)
    requires e in Accepted(batch)
    ensures Ingested(Build(batch), e) == (Build(batch), Success(Receipt(false, e, RecordOf(e).nodeRefs, RecordOf(e).edgeRefs)))
  {
    BuildReflects(batch);
    AcceptedValid(batch, e);
  }

  lemma {:induction false} AcceptedValid(batch: seq<Envelope>, e: Envelope)
    requires e in Accepted(batch)
    ensures Valid(e) && e in batch
  {
    if batch != [] {
      var n := |batch| - 1;
      assert batch == batch[..n] + [batch[n]];
      if e in Accepted(batch[..n]) {
        AcceptedValid(batch[..n], e);
      }
    }
  }

  // ---- order of arrival ------------------------------------------------------------------------------

  ghost predicate ConflictFree(batch: seq<Envelope>) {
    && (forall i :: 0 <= i < |batch| ==> Valid(batch[i]))
    && (forall i, j :: 0 <= i < |batch| && 0 <= j < |batch| && batch[i].key == batch[j].key ==> batch[i] == batch[j])
  }

  lemma {:induction false} AcceptsAll(batch: seq<Envelope>, e: Envelope)
    requires ConflictFree(batch)
    ensures e in Accepted(batch) <==> e in batch
  {
    if batch != [] {
      var n := |batch| - 1;
      assert ConflictFree(batch[..n]);
      AcceptsAll(batch[..n], e);
      assert batch == batch[..n] + [batch[n]];
      var log := Accepted(batch[..n]);
      if HasKey(log, batch[n].key) {
        var i :| 0 <= i < |log| && log[i].key == batch[n].key;
        AcceptedValid(batch[..n], log[i]);
        assert log[i] == batch[n];
        assert batch[n] in log;
      }
    }
  }

  /** Everything of a graph that can be seen in receipts, counts and timelines. */
  ghost predicate SameView(g: Graph, h: Graph) {
    && g.events == h.events && g.nodes.Keys == h.nodes.Keys && g.edges.Keys == h.edges.Keys
    && |g.nodes| == |h.nodes| && |g.edges| == |h.edges|
    && (forall c: string :: ForCase(g, c) == ForCase(h, c))
    && (forall x: EdgeRef :: EventsOn(g, x) == EventsOn(h, x))
  }

  lemma SameEvents(g: Graph, h: Graph, a: seq<Envelope>, b: seq<Envelope>)
    requires EventsOk(g, a) && EventsOk(h, b) && forall e :: e in a <==> e in b
    ensures g.events == h.events
  {
    forall k: string
      ensures k in g.events <==> k in h.events
      ensures k in g.events && k in h.events ==> g.events[k] == h.events[k]
    {
      if k in g.events {
        assert g.events[k].envelope in b;
      }
      if k in h.events {
        assert h.events[k].envelope in a;
      }
    }
  }

  lemma SameCases(g: Graph, h: Graph, a: seq<Envelope>, b: seq<Envelope>, c: string)
    requires Reflects(g, a) && Reflects(h, b) && forall e :: e in a <==> e in b
    ensures ForCase(g, c) == ForCase(h, c)
  {
    forall e: Envelope
      ensures e in ForCase(g, c) <==> e in ForCase(h, c)
    {
      TimelineIsFilter(g, a, c, e);
      TimelineIsFilter(h, b, c, e);
    }
  }

  lemma SameEdgeEvents(g: Graph, h: Graph, a: seq<Envelope>, b: seq<Envelope>, x: EdgeRef)
    requires EdgeIndexOk(g, a) && EdgeIndexOk(h, b) && forall e :: e in a <==> e in b
    ensures EventsOn(g, x) == EventsOn(h, x)
  {
    forall e: Envelope
      ensures e in EventsOn(g, x) <==> e in EventsOn(h, x)
    {
      assert e in EventsOn(g, x) <==> e in a && Carries(e, x);
      assert e in EventsOn(h, x) <==> e in b && Carries(e, x);
    }
  }

  lemma SameCounts(g: Graph, h: Graph, a: seq<Envelope>, b: seq<Envelope>)
    requires NodesOk(g, a) && NodesOk(h, b) && EdgesOk(g, a) && EdgesOk(h, b) && forall e :: e in a <==> e in b
    ensures g.nodes.Keys == h.nodes.Keys && g.edges.Keys == h.edges.Keys
    ensures |g.nodes| == |h.nodes| && |g.edges| == |h.edges|
  {
    assert g.nodes.Keys == h.nodes.Keys;
    assert g.edges.Keys == h.edges.Keys;
    assert |g.nodes| == |g.nodes.Keys| && |h.nodes| == |h.nodes.Keys|;
    assert |g.edges| == |g.edges.Keys| && |h.edges| == |h.edges.Keys|;
  }

  lemma SameLogSameView(g: Graph, h: Graph, a: seq<Envelope>, b: seq<Envelope>)
    requires Reflects(g, a) && Reflects(h, b) && forall e :: e in a <==> e in b
    ensures SameView(g, h)
  {
    SameEvents(g, h, a, b);
    forall c: string
      ensures ForCase(g, c) == ForCase(h, c)
    {
      SameCases(g, h, a, b, c);
    }
    forall x: EdgeRef
      ensures EventsOn(g, x) == EventsOn(h, x)
    {
      SameEdgeEvents(g, h, a, b, x);
    }
    SameCounts(g, h, a, b);
  }

  /** Any order and any repetition of a batch without key conflicts gives the same receipts, counts and
      timelines. */
  lemma OrderDoesNotMatter(a: seq<Envelope>, b: seq<Envelope>)
    requires ConflictFree(a) && ConflictFree(b) && forall e :: e in a <==> e in b
    ensures SameView(Build(a), Build(b))
  {
    BuildReflects(a);
    BuildReflects(b);
    forall e: Envelope
      ensures e in Accepted(a) <==> e in Accepted(b)
    {
      AcceptsAll(a, e);
      AcceptsAll(b, e);
    }
    SameLogSameView(Build(a), Build(b), Accepted(a), Accepted(b));
  }

  // ---- first writers ---------------------------------------------------------------------------------

  /** The first envelope of a log that names the node. */
  function FirstNamer(log: seq<Envelope>, n: string): Option<Envelope> {
    if log == [] then None
    else
      var first := FirstNamer(log[..|log| - 1], n);
      if first.None? && Names(log[|log| - 1], n) then Some(log[|log| - 1]) else first
  }

  ghost predicate NodeFrom(g: Graph, first: Option<Envelope>, n: string) {
    && (n in g.nodes <==> first.Some?)
    && (n in g.nodes ==> NodeRef(g.nodes[n].ref) == n && g.nodes[n].firstSeen == first.value)
  }

  lemma FirstSeenStep(g: Graph, log: seq<Envelope>, e: Envelope, n: string)
    requires NodeFrom(g, FirstNamer(log, n), n)
    ensures NodeFrom(Extended(g, e), FirstNamer(log + [e], n), n)
  {
    ExtendedEffect(g, e, n, EdgeRef(MailCase, "", ""), "");
    assert (log + [e])[..|log|] == log;
  }

  /** A node stands for the ref it is named by, and remembers the first event that named it. */
  lemma {:induction false} FirstSeen(batch: seq<Envelope>, n: string)
    ensures NodeFrom(Build(batch), FirstNamer(Accepted(batch), n), n)
  {
    if batch != [] {
      var k := |batch| - 1;
      FirstSeen(batch[..k], n);
      BuildReflects(batch[..k]);
      var g, log, e := Build(batch[..k]), Accepted(batch[..k]), batch[k];
      KeysAgree(g, log, e.key);
      if Valid(e) && !HasKey(log, e.key) {
        FirstSeenStep(g, log, e, n);
      } else {
        assert Build(batch) == g;
      }
    }
  }

  // ---- destructive actions ---------------------------------------------------------------------------

  /** The first envelope of a log that carries the edge. */
  function FirstCarrier(log: seq<Envelope>, x: EdgeRef): Option<Envelope> {
    if log == [] then None
    else
      var first := FirstCarrier(log[..|log| - 1], x);
      if first.None? && Carries(log[|log| - 1], x) then Some(log[|log| - 1]) else first
  }

  lemma {:induction false} FirstCarrierExact(log: seq<Envelope>, x: EdgeRef)
    ensures FirstCarrier(log, x).None? <==> forall i :: 0 <= i < |log| ==> !Carries(log[i], x)
    ensures FirstCarrier(log, x).Some? ==>
      exists i :: 0 <= i < |log| && log[i] == FirstCarrier(log, x).value && Carries(log[i], x)
                  && forall j :: 0 <= j < i ==> !Carries(log[j], x)
  {
    if log != [] {
      var n := |log| - 1;
      FirstCarrierExact(log[..n], x);
      if FirstCarrier(log[..n], x).Some? {
        var i :| 0 <= i < n && log[..n][i] == FirstCarrier(log[..n], x).value && Carries(log[..n][i], x)
                 && forall j :: 0 <= j < i ==> !Carries(log[..n][j], x);
        assert log[i] == log[..n][i] && forall j :: 0 <= j < i ==> log[j] == log[..n][j];
      } else {
        assert forall j :: 0 <= j < n ==> log[j] == log[..n][j];
      }
    }
  }

  function EdgeFrom(e: Option<Envelope>): Option<Edge> {
    if e.None? then None else Some(EdgeOf(e.value))
  }

  /** An edge is what the first event that carried it made it. */
  lemma {:induction false} FirstWriterWins(batch: seq<Envelope>, x: EdgeRef)
    ensures Lookup(Build(batch).edges, x) == EdgeFrom(FirstCarrier(Accepted(batch), x))
  {
    if batch != [] {
      var n := |batch| - 1;
      FirstWriterWins(batch[..n], x);
      BuildReflects(batch[..n]);
      var g, log, e := Build(batch[..n]), Accepted(batch[..n]), batch[n];
      KeysAgree(g, log, e.key);
      if Valid(e) && !HasKey(log, e.key) {
        ExtendedEffect(g, e, "", x, "");
        assert (log + [e])[..|log|] == log;
      }
    }
  }

  /** An edge authorises exactly when the first event that carried it was exact: confidence one and not
      inferred. Later events, exact or not, decide nothing. */
  lemma AuthorizedExactly(batch: seq<Envelope>, x: EdgeRef)
    ensures Authorized(Build(batch), x) <==>
            FirstCarrier(Accepted(batch), x).Some? && Exact(FirstCarrier(Accepted(batch), x).value)
  {
    FirstWriterWins(batch, x);
  }

  /** So an authorised edge always has an exact ingested event that names both of its ends. */
  lemma AuthorizedHasExactEvent(batch: seq<Envelope>, x: EdgeRef) returns (e: Envelope, a: Ref, b: Ref)
    requires Authorized(Build(batch), x)
    ensures e in Accepted(batch) && Exact(e) && a in e.refs && b in e.refs
    ensures x.source == NodeRef(a) && x.target == NodeRef(b)
  {
    AuthorizedExactly(batch, x);
    FirstCarrierExact(Accepted(batch), x);
    e := FirstCarrier(Accepted(batch), x).value;
    EdgeEnds(e, x);
    a, b :| a in e.refs && b in e.refs && x.source == NodeRef(a) && x.target == NodeRef(b);
  }

  /** Authorisation is the one thing the order decides: an inferred event that comes first keeps an exact one
      from authorising the edge. */
  lemma OrderDecidesAuthority(e: Envelope, f: Envelope, x: EdgeRef)
    requires Valid(e) && Valid(f) && e.key != f.key && Carries(e, x) && Carries(f, x) && Exact(e) && !Exact(f)
    ensures Authorized(Build([e, f]), x) && !Authorized(Build([f, e]), x)
  {
    TwoAccepted(e, f, x);
    TwoAccepted(f, e, x);
    AuthorizedExactly([e, f], x);
    AuthorizedExactly([f, e], x);
  }

  ghost predicate OrderOf(b: seq<Envelope>, batch: seq<Envelope>) {
    multiset(b) == multiset(batch)
  }

  /** All events that carry the edge are exact, or none is. */
  ghost predicate CarriersAgree(batch: seq<Envelope>, x: EdgeRef) {
    forall e, f :: e in batch && f in batch && Carries(e, x) && Carries(f, x) ==> (Exact(e) <==> Exact(f))
  }

  lemma OrderElements(b: seq<Envelope>, batch: seq<Envelope>, e: Envelope)
    requires OrderOf(b, batch)
    ensures e in b <==> e in batch
  {
    assert e in b <==> e in multiset(b);
    assert e in batch <==> e in multiset(batch);
  }

  lemma OrderConflictFree(b: seq<Envelope>, batch: seq<Envelope>)
    requires OrderOf(b, batch) && ConflictFree(batch)
    ensures ConflictFree(b)
  {
    forall i | 0 <= i < |b|
      ensures b[i] in batch
    {
      OrderElements(b, batch, b[i]);
    }
  }

  /** In whatever order, a carrier of the batch decides. */
  lemma DecidedByCarrier(b: seq<Envelope>, batch: seq<Envelope>, x: EdgeRef)
    requires OrderOf(b, batch) && ConflictFree(batch)
    ensures var first := FirstCarrier(Accepted(b), x);
      if first.Some? then first.value in batch && Carries(first.value, x) else forall e :: e in batch ==> !Carries(e, x)
  {
    var log := Accepted(b);
    OrderConflictFree(b, batch);
    FirstCarrierExact(log, x);
    forall e: Envelope
      ensures e in log <==> e in batch
    {
      AcceptsAll(b, e);
      OrderElements(b, batch, e);
    }
  }

  lemma {:induction false} FirstStaysFirst(e: Envelope, rest: seq<Envelope>)
    requires Valid(e)
    ensures Accepted([e] + rest) != [] && Accepted([e] + rest)[0] == e
    decreases |rest|
  {
    if rest == [] {
      assert [e] + rest == [e] && [e][..0] == [];
    } else {
      var n := |rest| - 1;
      FirstStaysFirst(e, rest[..n]);
      assert ([e] + rest)[..n + 1] == [e] + rest[..n];
    }
  }

  /** An order of the batch in which the carrier comes first: it decides. */
  lemma CarrierFirst(batch: seq<Envelope>, e: Envelope, x: EdgeRef) returns (b: seq<Envelope>)
    requires ConflictFree(batch) && e in batch && Carries(e, x)
    ensures OrderOf(b, batch) && (Authorized(Build(b), x) <==> Exact(e))
  {
    var i :| 0 <= i < |batch| && batch[i] == e;
    var rest := batch[..i] + batch[i + 1..];
    b := [e] + rest;
    ElementsWithout(batch, i);
    FirstStaysFirst(e, rest);
    FirstCarrierExact(Accepted(b), x);
    AuthorizedExactly(b, x);
  }

  /** All orders of a batch without key conflicts agree on whether an edge authorises exactly when all its events
      that carry the edge agree on being exact. */
  lemma AuthorityIndependentExactly(batch: seq<Envelope>, x: EdgeRef)
    requires ConflictFree(batch)
    ensures (forall b :: OrderOf(b, batch) ==> (Authorized(Build(b), x) <==> Authorized(Build(batch), x)))
            <==> CarriersAgree(batch, x)
  {
    if CarriersAgree(batch, x) {
      forall b | OrderOf(b, batch)
        ensures Authorized(Build(b), x) <==> Authorized(Build(batch), x)
      {
        DecidedByCarrier(b, batch, x);
        DecidedByCarrier(batch, batch, x);
        AuthorizedExactly(b, x);
        AuthorizedExactly(batch, x);
      }
    } else {
      var e, f :| e in batch && f in batch && Carries(e, x) && Carries(f, x) && Exact(e) != Exact(f);
      var b := CarrierFirst(batch, e, x);
      var d := CarrierFirst(batch, f, x);
      assert OrderOf(b, batch) && OrderOf(d, batch);
    }
  }

  lemma TwoAccepted(e: Envelope, f: Envelope, x: EdgeRef)
    requires Valid(e) && Valid(f) && e.key != f.key && Carries(e, x)
    ensures Accepted([e, f]) == [e, f] && FirstCarrier([e, f], x) == Some(e)
  {
    assert [e, f][..1] == [e] && [e][..0] == [];
    assert Accepted([e]) == [e] && FirstCarrier([e], x) == Some(e);
  }

  function Sample(key: string, inferred: bool): Envelope {
    Envelope(MailDomain, "t", "s", 0, key, [Ref(Mail, "m"), Ref(Case, "c")], [Provenance("p", "k", None)], 1.0, inferred, None)
  }

  lemma SampleValid(key: string, inferred: bool)
    requires Token(key)
    ensures Valid(Sample(key, inferred))
  {
  }

  lemma SampleCarries(key: string, inferred: bool)
    ensures Carries(Sample(key, inferred), Joined(Rule(Mail, Case, MailCase), "m", "c"))
  {
    var e, rule := Sample(key, inferred), Rule(Mail, Case, MailCase);
    assert e.refs[0] == Ref(Mail, "m") && e.refs[1] == Ref(Case, "c");
    assert Bridges(rule, e.refs, Joined(rule, "m", "c"));
    assert RULES[0] == rule;
    ByRulesExact(RULES, e.refs, Joined(rule, "m", "c"));
  }

  /** Such a pair of envelopes: the same mail and case, once inferred. */
  lemma OrderDecidesWitness() returns (e: Envelope, f: Envelope, x: EdgeRef)
    ensures Valid(e) && Valid(f) && e.key != f.key
    ensures Authorized(Build([e, f]), x) && !Authorized(Build([f, e]), x)
  {
    e, f, x := Sample("a", false), Sample("b", true), Joined(Rule(Mail, Case, MailCase), "m", "c");
    assert e.key[0] != f.key[0];
    SampleValid("a", false);
    SampleValid("b", true);
    SampleCarries("a", false);
    SampleCarries("b", true);
    OrderDecidesAuthority(e, f, x);
  }
}
