/** The graph object: the loops that fill and query the indexes, proved against the functions of
    `DomainEventGraph`. */
module DomainEventStore {
  import opened Common
  import opened CanonicalRef
  import opened DomainEventGraph
  import opened DomainEventRuns
  import opened DomainEventAnswers
  import opened Sorting

  // ---- the simple timeline ---------------------------------------------------------------------------

  /** The event ref as text: a hash of the envelope, taken as injective. */
  ghost predicate Injective(text: Envelope -> string) {
    forall a, b :: text(a) == text(b) ==> a == b
  }

  /** The order of a timeline: by time, then by event ref. */
  predicate Before(text: Envelope -> string, a: Envelope, b: Envelope) {
    a.observedAt < b.observedAt || (a.observedAt == b.observedAt && StringLe(text(a), text(b)))
  }

  function Order(text: Envelope -> string): (Envelope, Envelope) -> bool {
    (a, b) => Before(text, a, b)
  }

  function RowOrder(text: Envelope -> string): (Record, Record) -> bool {
    (a: Record, b: Record) => Before(text, a.envelope, b.envelope)
  }

  /** The ingested events that name the case, in order of ingestion. */
  function OfCase(log: seq<Envelope>, c: string): seq<Envelope> {
    if log == [] then []
    else
      var rest := OfCase(log[..|log| - 1], c);
      if InCase(log[|log| - 1], c) then rest + [log[|log| - 1]] else rest
  }

  function Records(s: seq<Envelope>): seq<Record> {
    Mapped(s, RecordOf)
  }

  /** A filter and a sort. */
  function Timeline(text: Envelope -> string, log: seq<Envelope>, c: string): seq<Record> {
    Records(Sort(OfCase(log, c), Order(text)))
  }

  lemma OrderTotal(text: Envelope -> string)
    requires Injective(text)
    ensures TotalOrder(Order(text))
  {
    var le := Order(text);
    forall a, b
      ensures (le(a, b) || le(b, a)) && (le(a, b) && le(b, a) ==> a == b)
    {
      StringLeTotal(text(a), text(b));
    }
    forall a, b, c | le(a, b) && le(b, c)
      ensures le(a, c)
    {
      if a.observedAt == c.observedAt {
        StringLeTransitive(text(a), text(b), text(c));
      }
    }
  }

  /** The sorted rows depend on the events alone, not on the order they were found in. */
  lemma SortedRows(s: seq<Envelope>, t: seq<Envelope>, text: Envelope -> string)
    requires Injective(text) && multiset(s) == multiset(t)
    ensures Sort(Records(s), RowOrder(text)) == Records(Sort(t, Order(text)))
  {
    OrderTotal(text);
    SortMapped(s, RecordOf, Order(text), RowOrder(text));
    SortSorted(s, Order(text));
    OnlyArrangement(Sort(s, Order(text)), t, Order(text));
  }

  ghost predicate DistinctKeys(log: seq<Envelope>) {
    forall i, j :: 0 <= i < j < |log| ==> log[i].key != log[j].key
  }

  ghost predicate NoRepeats(s: seq<Envelope>) {
    forall i, j :: 0 <= i < j < |s| ==> s[i] != s[j]
  }

  lemma {:induction false} OfCaseExact(log: seq<Envelope>, c: string, e: Envelope)
    requires DistinctKeys(log)
    ensures e in OfCase(log, c) <==> e in log && InCase(e, c)
    ensures NoRepeats(OfCase(log, c))
  {
    if log != [] {
      var n := |log| - 1;
      OfCaseExact(log[..n], c, e);
      assert log == log[..n] + [log[n]];
      var rest := OfCase(log[..n], c);
      forall i | 0 <= i < |rest|
        ensures rest[i] != log[n]
      {
        OfCaseExact(log[..n], c, rest[i]);
        var j :| 0 <= j < n && log[..n][j] == rest[i];
        assert log[j].key != log[n].key;
      }
    }
  }

  /** The elements of a set, each once. */
  ghost predicate Lists(s: seq<Envelope>, all: set<Envelope>) {
    NoRepeats(s) && forall e: Envelope :: e in s <==> e in all
  }

  lemma ListsOneMore(s: seq<Envelope>, all: set<Envelope>, e: Envelope)
    requires Lists(s, all) && e !in all
    ensures Lists(s + [e], all + {e})
  {
    assert forall i :: 0 <= i < |s| ==> s[i] in s;
  }

  lemma {:induction false} CountOnce(s: seq<Envelope>, e: Envelope)
    requires NoRepeats(s)
    ensures multiset(s)[e] == if e in s then 1 else 0
  {
    if s != [] {
      assert s == [s[0]] + s[1..];
      CountOnce(s[1..], e);
    }
  }

  lemma SameEventsSameMultiset(s: seq<Envelope>, t: seq<Envelope>)
    requires NoRepeats(s) && NoRepeats(t) && forall e :: e in s <==> e in t
    ensures multiset(s) == multiset(t)
  {
    forall e: Envelope
      ensures multiset(s)[e] == multiset(t)[e]
    {
      CountOnce(s, e);
      CountOnce(t, e);
    }
  }

  class EventGraph {
    var events: map<string, Record>
    var nodes: map<string, Node>
    var edges: map<EdgeRef, Edge>
    var eventEdges: map<EdgeRef, set<Envelope>>
    var caseEvents: map<string, set<Envelope>>
    ghost var log: seq<Envelope>

    function State(): Graph
      reads this
    {
      Graph(events, nodes, edges, eventEdges, caseEvents)
    }

    /** The graph is what its log of accepted envelopes makes it. */
    ghost predicate Consistent()
      reads this
    {
      Reflects(State(), log) && DistinctKeys(log)
    }

    constructor ()
      ensures Consistent() && State() == EMPTY && log == []
    {
      events, nodes, edges, eventEdges, caseEvents := map[], map[], map[], map[], map[];
      log := [];
    }

    method EnsureNodes(refs: seq<Ref>, e: Envelope) returns (nodeRefs: seq<string>)
      modifies this`nodes
      ensures State() == WithNodes(old(State()), refs, e)
      ensures nodeRefs == NodeRefs(refs)
    {
      ghost var g := State();
      nodeRefs := [];
      assert refs[..0] == [];
      for i := 0 to |refs|
        invariant State() == WithNodes(g, refs[..i], e) && nodeRefs == NodeRefs(refs[..i])
      {
        var ref := NodeRef(refs[i]);
        if ref !in nodes {
          nodes := nodes[ref := Node(refs[i], e)];
        }
        nodeRefs := nodeRefs + [ref];
        assert refs[..i + 1][..i] == refs[..i];
      }
      assert refs[..|refs|] == refs;
    }

    method EnsureEdge(edge: EdgeRef, e: Envelope)
      modifies this`edges, this`eventEdges
      ensures State() == WithEdge(old(State()), edge, e)
    {
      if edge !in edges {
        edges := edges[edge := EdgeOf(e)];
      }
      eventEdges := eventEdges[edge := EventsOn(State(), edge) + {e}];
    }

    method EdgesFromOne(rule: Rule, s: string, targets: seq<string>, e: Envelope) returns (refs: seq<EdgeRef>)
      modifies this`edges, this`eventEdges
      ensures refs == FromOne(rule, s, targets) && State() == WithEdges(old(State()), refs, e)
    {
      ghost var g := State();
      refs := [];
      assert targets[..0] == [];
      for i := 0 to |targets|
        invariant refs == FromOne(rule, s, targets[..i]) && State() == WithEdges(g, refs, e)
      {
        var edge := Joined(rule, s, targets[i]);
        EnsureEdge(edge, e);
        assert (refs + [edge])[..|refs|] == refs;
        refs := refs + [edge];
        assert targets[..i + 1][..i] == targets[..i];
      }
      assert targets[..|targets|] == targets;
    }

    method EdgesFromAll(rule: Rule, sources: seq<string>, targets: seq<string>, e: Envelope) returns (refs: seq<EdgeRef>)
      modifies this`edges, this`eventEdges
      ensures refs == FromAll(rule, sources, targets) && State() == WithEdges(old(State()), refs, e)
    {
      ghost var g := State();
      refs := [];
      assert sources[..0] == [];
      for i := 0 to |sources|
        invariant refs == FromAll(rule, sources[..i], targets) && State() == WithEdges(g, refs, e)
      {
        var more := EdgesFromOne(rule, sources[i], targets, e);
        WithEdgesAppend(g, refs, more, e);
        refs := refs + more;
        assert sources[..i + 1][..i] == sources[..i];
      }
      assert sources[..|sources|] == sources;
    }

    method EnsureBridgeEdges(e: Envelope) returns (refs: seq<EdgeRef>)
      modifies this`edges, this`eventEdges
      ensures refs == BridgeEdges(e) && State() == WithEdges(old(State()), refs, e)
    {
      ghost var g := State();
      refs := [];
      var rules := RULES;
      assert rules[..0] == [];
      for i := 0 to |rules|
        invariant refs == ByRules(rules[..i], e.refs) && State() == WithEdges(g, refs, e)
      {
        var more := EdgesFromAll(rules[i], Ids(e.refs, rules[i].source), Ids(e.refs, rules[i].target), e);
        WithEdgesAppend(g, refs, more, e);
        ByRulesNext(rules, e.refs, i);
        refs := refs + more;
      }
      assert rules[..|rules|] == rules;
    }

    method IndexCases(cases: seq<string>, e: Envelope)
      modifies this`caseEvents
      ensures State() == WithCases(old(State()), cases, e)
    {
      ghost var g := State();
      assert cases[..0] == [];
      for i := 0 to |cases|
        invariant State() == WithCases(g, cases[..i], e)
      {
        caseEvents := caseEvents[cases[i] := EventsUnder(State(), cases[i]) + {e}];
        assert cases[..i + 1][..i] == cases[..i];
      }
      assert cases[..|cases|] == cases;
    }

    method Add(e: Envelope) returns (answer: Receipt)
      modifies this`nodes, this`edges, this`eventEdges, this`caseEvents, this`events
      ensures State() == Extended(old(State()), e)
      ensures answer == Receipt(true, e, RecordOf(e).nodeRefs, RecordOf(e).edgeRefs)
    {
      var nodeRefs := EnsureNodes(AllRefs(e), e);
      var edgeRefs := EnsureBridgeEdges(e);
      var cases := Ids(e.refs, Case);
      IndexCases(cases, e);
      events := events[e.key := Record(e, nodeRefs, edgeRefs, cases)];
      answer := Receipt(true, e, nodeRefs, edgeRefs);
    }

    method Apply(e: Envelope) returns (answer: Result<Receipt, GraphError>)
      modifies this`nodes, this`edges, this`eventEdges, this`caseEvents, this`events
      ensures (State(), answer) == Ingested(old(State()), e)
    {
      if !Valid(e) {
        return Failure(InvalidEnvelope);
      }
      if e.key in events {
        var existing := events[e.key];
        return if existing.envelope != e then Failure(PayloadConflict)
               else Success(Receipt(false, existing.envelope, existing.nodeRefs, existing.edgeRefs));
      }
      var receipt := Add(e);
      answer := Success(receipt);
    }

    /** Accepts an envelope once; the log grows by it exactly when it is valid and its key is new. */
    method Ingest(e: Envelope) returns (answer: Result<Receipt, GraphError>)
      requires Consistent()
      modifies this
      ensures Consistent()
      ensures (State(), answer) == Ingested(old(State()), e)
      ensures answer == Failure(PayloadConflict) <==> Valid(e) && Conflicts(old(log), e)
      ensures answer == Failure(InvalidEnvelope) <==> !Valid(e)
      ensures answer.Success? ==> Describes(answer.value, e) && (answer.value.isNew <==> !HasKey(old(log), e.key))
      ensures answer.Failure? || !answer.value.isNew ==> State() == old(State())
      ensures log == if answer.Success? && answer.value.isNew then old(log) + [e] else old(log)
    {
      AnswersInLog(State(), log, e);
      IngestedKeeps(State(), log, e);
      answer := Apply(e);
      log := LogAfter(log, e);
    }

    method EventByRef(e: Envelope) returns (found: Result<Record, GraphError>)
      requires EventsOk(State(), log)
      ensures found.Success? <==> e in log
      ensures found == if e in log then Success(RecordOf(e)) else Failure(EventNotFound)
    {
      var keys := events.Keys;
      while keys != {}
        invariant keys <= events.Keys
        invariant forall k :: k in events.Keys - keys ==> events[k].envelope != e
        decreases keys
      {
        var k :| k in keys;
        if events[k].envelope == e {
          return Success(events[k]);
        }
        keys := keys - {k};
      }
      found := Failure(EventNotFound);
    }

    /** The events of a case over both indexes. */
    method EventsForCase(c: string) returns (found: set<Envelope>)
      ensures found == ForCase(State(), c)
    {
      ghost var g := State();
      found := EventsUnder(State(), c);
      var todo := edges.Keys;
      ghost var passed: set<EdgeRef> := {};
      while todo != {}
        invariant todo + passed == g.edges.Keys
        invariant found == EventsUnder(g, c) + OverThese(g, c, passed)
        decreases todo
      {
        var x :| x in todo;
        OverOneMore(g, c, passed, x);
        todo, passed := todo - {x}, passed + {x};
        if x.source == CaseNode(c) || x.target == CaseNode(c) {
          found := found + EventsOn(State(), x);
        }
      }
      OverTheseAll(g, c);
    }

    /** The rows of some events, in the order they come out of the set. */
    method LookUp(all: set<Envelope>) returns (rows: seq<Record>, ghost listed: seq<Envelope>)
      requires EventsOk(State(), log) && forall e :: e in all ==> e in log
      ensures rows == Records(listed) && Lists(listed, all)
    {
      var todo := all;
      ghost var past: set<Envelope> := {};
      listed := [];
      rows := [];
      while todo != {}
        invariant todo !! past && todo + past == all
        invariant rows == Records(listed) && Lists(listed, past)
        decreases todo
      {
        var e :| e in todo;
        var record := EventByRef(e);
        MappedAppend(listed, e, RecordOf);
        ListsOneMore(listed, past, e);
        todo, past, rows, listed := todo - {e}, past + {e}, rows + [record.value], listed + [e];
      }
      assert past == all;
    }

    /** The timeline query over two indexes is a filter of the log and a sort; no event is missing, listed twice
        or looked up in vain. */
    method CaseTimeline(c: string, text: Envelope -> string) returns (rows: Result<seq<Record>, GraphError>)
      requires Consistent() && Injective(text)
      ensures rows == if Token(c) then Success(Timeline(text, log, c)) else Failure(InvalidEnvelope)
      ensures rows.Success? ==> RowsOfCase(rows.value, log, c) && InOrder(text, rows.value) && EachDescribed(rows.value)
    {
      TimelineExactly(text, log, c);
      if !Token(c) {
        return Failure(InvalidEnvelope);
      }
      CaseFacts(State(), log, c);
      var all := EventsForCase(c);
      ghost var listed;
      var found;
      found, listed := LookUp(all);
      ListedIsFilter(log, c, listed);
      SortedRows(listed, OfCase(log, c), text);
      rows := Success(Sort(found, RowOrder(text)));
    }
  }

  lemma IngestedKeeps(g: Graph, log: seq<Envelope>, e: Envelope)
    requires Reflects(g, log) && DistinctKeys(log)
    ensures Reflects(Ingested(g, e).0, LogAfter(log, e)) && DistinctKeys(LogAfter(log, e))
  {
    KeysAgree(g, log, e.key);
    if Valid(e) && !HasKey(log, e.key) {
      ExtendedReflects(g, log, e);
    }
  }

  /** The events on those of some edges that are at the case's node. */
  ghost function OverThese(g: Graph, c: string, edges: set<EdgeRef>): set<Envelope> {
    set edge, e | edge in edges && (edge.source == CaseNode(c) || edge.target == CaseNode(c)) && e in EventsOn(g, edge) :: e
  }

  lemma OverOneMore(g: Graph, c: string, edges: set<EdgeRef>, x: EdgeRef)
    ensures OverThese(g, c, edges + {x}) ==
            OverThese(g, c, edges) + if x.source == CaseNode(c) || x.target == CaseNode(c) then EventsOn(g, x) else {}
  {
    var all := OverThese(g, c, edges + {x});
    var some := OverThese(g, c, edges) + if x.source == CaseNode(c) || x.target == CaseNode(c) then EventsOn(g, x) else {};
    forall e: Envelope
      ensures e in all <==> e in some
    {
      if e in OverThese(g, c, edges) {
        var y :| y in edges && (y.source == CaseNode(c) || y.target == CaseNode(c)) && e in EventsOn(g, y);
        assert y in edges + {x};
      }
      if e in EventsOn(g, x) {
        assert x in edges + {x};
      }
    }
  }

  lemma OverTheseAll(g: Graph, c: string)
    ensures OverThese(g, c, g.edges.Keys) == OverEdges(g, c)
  {
  }

  lemma CaseFacts(g: Graph, log: seq<Envelope>, c: string)
    requires Reflects(g, log)
    ensures OverEdges(g, c) <= EventsUnder(g, c)
    ensures forall e :: e in ForCase(g, c) <==> e in log && InCase(e, c)
  {
    forall e: Envelope
      ensures e in OverEdges(g, c) ==> e in EventsUnder(g, c)
      ensures e in ForCase(g, c) <==> e in log && InCase(e, c)
    {
      TimelineIsFilter(g, log, c, e);
    }
  }

  lemma ListedIsFilter(log: seq<Envelope>, c: string, listed: seq<Envelope>)
    requires DistinctKeys(log) && NoRepeats(listed)
    requires forall e :: e in listed <==> e in log && InCase(e, c)
    ensures multiset(listed) == multiset(OfCase(log, c))
  {
    forall e: Envelope
      ensures (e in listed <==> e in OfCase(log, c)) && NoRepeats(OfCase(log, c))
    {
      OfCaseExact(log, c, e);
    }
    SameEventsSameMultiset(listed, OfCase(log, c));
  }

  lemma {:induction false} WithEdgesAppend(g: Graph, a: seq<EdgeRef>, b: seq<EdgeRef>, e: Envelope)
    ensures WithEdges(WithEdges(g, a, e), b, e) == WithEdges(g, a + b, e)
  {
    if b == [] {
      assert a + b == a;
    } else {
      var n := |b| - 1;
      WithEdgesAppend(g, a, b[..n], e);
      assert (a + b)[..|a + b| - 1] == a + b[..n];
    }
  }

  lemma ByRulesNext(rules: seq<Rule>, refs: seq<Ref>, i: nat)
    requires i < |rules|
    ensures ByRules(rules[..i + 1], refs) ==
            ByRules(rules[..i], refs) + FromAll(rules[i], Ids(refs, rules[i].source), Ids(refs, rules[i].target))
  {
    assert rules[..i + 1][..i] == rules[..i];
  }

  // ---- what a timeline shows -------------------------------------------------------------------------

  ghost predicate HasRow(rows: seq<Record>, e: Envelope) {
    exists i :: 0 <= i < |rows| && rows[i].envelope == e
  }

  /** Exactly the events of the log that name the case have a row. */
  ghost predicate RowsOfCase(rows: seq<Record>, log: seq<Envelope>, c: string) {
    forall e: Envelope :: HasRow(rows, e) <==> e in log && Ref(Case, c) in e.refs
  }

  /** Earliest first, by event ref among those of one time, and none twice. */
  ghost predicate InOrder(text: Envelope -> string, rows: seq<Record>) {
    forall i, j :: 0 <= i < j < |rows| ==>
      var a, b := rows[i].envelope, rows[j].envelope;
      a != b && (a.observedAt < b.observedAt || (a.observedAt == b.observedAt && StringLe(text(a), text(b))))
  }

  ghost predicate EachDescribed(rows: seq<Record>) {
    forall i :: 0 <= i < |rows| ==> Describes(Receipt(false, rows[i].envelope, rows[i].nodeRefs, rows[i].edgeRefs), rows[i].envelope)
  }

  lemma SortKeeps(s: seq<Envelope>, le: (Envelope, Envelope) -> bool, e: Envelope)
    ensures e in Sort(s, le) <==> e in s
  {
    assert e in s <==> e in multiset(s);
    assert e in Sort(s, le) <==> e in multiset(Sort(s, le));
  }

  lemma RecordRows(s: seq<Envelope>, e: Envelope)
    ensures HasRow(Records(s), e) <==> e in s
  {
    if e in s {
      var i :| 0 <= i < |s| && s[i] == e;
      assert Records(s)[i].envelope == e;
    }
  }

  lemma RowsFound(text: Envelope -> string, log: seq<Envelope>, c: string)
    requires DistinctKeys(log)
    ensures RowsOfCase(Timeline(text, log, c), log, c)
  {
    forall e: Envelope
      ensures HasRow(Timeline(text, log, c), e) <==> e in log && Ref(Case, c) in e.refs
    {
      OfCaseExact(log, c, e);
      SortKeeps(OfCase(log, c), Order(text), e);
      RecordRows(Sort(OfCase(log, c), Order(text)), e);
    }
  }

  lemma RowsInOrder(text: Envelope -> string, log: seq<Envelope>, c: string)
    requires Injective(text) && DistinctKeys(log)
    ensures InOrder(text, Timeline(text, log, c))
  {
    var found := OfCase(log, c);
    var sorted := Sort(found, Order(text));
    OrderTotal(text);
    SortSorted(found, Order(text));
    forall i, j | 0 <= i < j < |sorted|
      ensures sorted[i] != sorted[j] && Order(text)(sorted[i], sorted[j])
    {
      OfCaseExact(log, c, sorted[i]);
      SortNoRepeats(found, sorted, i, j);
    }
  }

  /** A timeline has one row for every ingested event that names the case, earliest first, and each row names what its event
      put into the graph. */
  lemma TimelineExactly(text: Envelope -> string, log: seq<Envelope>, c: string)
    requires Injective(text) && DistinctKeys(log)
    ensures var rows := Timeline(text, log, c); RowsOfCase(rows, log, c) && InOrder(text, rows) && EachDescribed(rows)
  {
    RowsFound(text, log, c);
    RowsInOrder(text, log, c);
    var rows, sorted := Timeline(text, log, c), Sort(OfCase(log, c), Order(text));
    forall i | 0 <= i < |rows|
      ensures Describes(Receipt(false, rows[i].envelope, rows[i].nodeRefs, rows[i].edgeRefs), rows[i].envelope)
    {
      RecordNames(sorted[i], false);
    }
  }

  lemma SortNoRepeats(s: seq<Envelope>, t: seq<Envelope>, i: nat, j: nat)
    requires NoRepeats(s) && multiset(s) == multiset(t) && i < j < |t|
    ensures t[i] != t[j]
  {
    CountOnce(s, t[i]);
    AtLeastTwice(t, i, j);
  }

  lemma AtLeastTwice(t: seq<Envelope>, i: nat, j: nat)
    requires i < j < |t|
    ensures t[i] == t[j] ==> multiset(t)[t[i]] >= 2
  {
    assert t == t[..j] + t[j..];
    assert t[..j][i] == t[i] && t[j..][0] == t[j];
  }
}
