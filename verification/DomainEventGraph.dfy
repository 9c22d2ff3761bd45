/** The typed event graph: an idempotent event log with first-writer-wins nodes and edges and two indexes.

    A stable ref is a hash of what it is made of, taken as injective; here the preimage stands for the ref, so an
    event is named by its envelope and an edge by its type and endpoints. */
module DomainEventGraph {
  import opened Common
  import opened CanonicalRef

  datatype RefType =
    | Mail | MailInvoice | Case | Scheduler | Finance | Gewerbe | GithubCiMail | Recovery | Document
    | DevelopmentGoal | RunnerContinuation | LoopRun | SourceEvent

  datatype Domain =
    | MailDomain | CaseDomain | SchedulerDomain | FinanceDomain | GewerbeDomain | GithubDomain | RecoveryDomain
    | DocumentsDomain | DevelopmentDomain | RunnerDomain | LoopDomain

  datatype EdgeType =
    | MailCase | CaseScheduler | MailInvoiceFinance | MailInvoiceGewerbe | GithubCiMailRecovery | DocumentCase
    | DevelopmentGoalRunnerContinuation

  function TypeName(t: RefType): string {
    match t
    case Mail => "mail"
    case MailInvoice => "mail_invoice"
    case Case => "case"
    case Scheduler => "scheduler"
    case Finance => "finance"
    case Gewerbe => "gewerbe"
    case GithubCiMail => "github_ci_mail"
    case Recovery => "recovery"
    case Document => "document"
    case DevelopmentGoal => "development_goal"
    case RunnerContinuation => "runner_continuation"
    case LoopRun => "loop_run"
    case SourceEvent => "source_event"
  }

  datatype Ref = Ref(kind: RefType, id: string)

  function NodeRef(r: Ref): string {
    TypeName(r.kind) + ":" + r.id
  }

  datatype Provenance = Provenance(ref: string, kind: string, evidenceHash: Option<string>)

  /** A normalised envelope. */
  datatype Envelope = Envelope(
    domain: Domain,
    eventType: string,
    source: string,
    observedAt: nat,
    key: string,
    refs: seq<Ref>,
    provenance: seq<Provenance>,
    confidence: real,
    inferred: bool,
    payloadHash: Option<string>)

  datatype Rule = Rule(source: RefType, target: RefType, edge: EdgeType)

  const RULES: seq<Rule> := [
    Rule(Mail, Case, MailCase),
    Rule(Case, Scheduler, CaseScheduler),
    Rule(MailInvoice, Finance, MailInvoiceFinance),
    Rule(MailInvoice, Gewerbe, MailInvoiceGewerbe),
    Rule(GithubCiMail, Recovery, GithubCiMailRecovery),
    Rule(Document, Case, DocumentCase),
    Rule(DevelopmentGoal, RunnerContinuation, DevelopmentGoalRunnerContinuation)
  ]

  /** The ref of an edge: its type and the node refs it joins. */
  datatype EdgeRef = EdgeRef(edge: EdgeType, source: string, target: string)

  datatype Node = Node(ref: Ref, firstSeen: Envelope)

  datatype Edge = Edge(confidence: real, inferred: bool, provenance: seq<Provenance>)

  datatype Record = Record(envelope: Envelope, nodeRefs: seq<string>, edgeRefs: seq<EdgeRef>, caseRefs: seq<string>)

  datatype Graph = Graph(
    events: map<string, Record>,
    nodes: map<string, Node>,
    edges: map<EdgeRef, Edge>,
    eventEdges: map<EdgeRef, set<Envelope>>,
    caseEvents: map<string, set<Envelope>>)

  const EMPTY := Graph(map[], map[], map[], map[], map[])

  datatype GraphError = InvalidEnvelope | PayloadConflict | EventNotFound

  datatype Receipt = Receipt(isNew: bool, event: Envelope, nodeRefs: seq<string>, edgeRefs: seq<EdgeRef>)

  // ---- validation ------------------------------------------------------------------------------------

  predicate TokenStart(c: char) {
    'a' <= c <= 'z' || 'A' <= c <= 'Z' || '0' <= c <= '9'
  }

  predicate Token(s: string) {
    1 <= |s| <= 128 && TokenStart(s[0]) && forall i :: 0 <= i < |s| ==> SafeChar(s[i])
  }

  predicate Hash(s: string) {
    |s| == 64 && forall i :: 0 <= i < 64 ==> 'a' <= s[i] <= 'f' || '0' <= s[i] <= '9'
  }

  predicate HashIfAny(s: Option<string>) {
    s.Some? ==> Hash(s.value)
  }

  predicate Valid(e: Envelope) {
    && Token(e.eventType) && Token(e.source) && Token(e.key)
    && e.refs != [] && (forall i :: 0 <= i < |e.refs| ==> Token(e.refs[i].id))
    && e.provenance != []
    && (forall i :: 0 <= i < |e.provenance| ==>
          Token(e.provenance[i].ref) && Token(e.provenance[i].kind) && HashIfAny(e.provenance[i].evidenceHash))
    && 0.0 <= e.confidence <= 1.0 && HashIfAny(e.payloadHash)
  }

  // ---- what an envelope puts into the graph ----------------------------------------------------------

  function AllRefs(e: Envelope): seq<Ref> {
    [Ref(SourceEvent, e.source)] + e.refs
  }

  function NodeRefs(refs: seq<Ref>): (r: seq<string>)
    ensures |r| == |refs| && forall i :: 0 <= i < |r| ==> r[i] == NodeRef(refs[i])
  {
    if refs == [] then [] else NodeRefs(refs[..|refs| - 1]) + [NodeRef(refs[|refs| - 1])]
  }

  /** The refs of one type, in order. */
  function Ids(refs: seq<Ref>, t: RefType): seq<string> {
    if refs == [] then []
    else
      var ids := Ids(refs[..|refs| - 1], t);
      if refs[|refs| - 1].kind == t then ids + [refs[|refs| - 1].id] else ids
  }

  function Joined(rule: Rule, s: string, t: string): EdgeRef {
    EdgeRef(rule.edge, NodeRef(Ref(rule.source, s)), NodeRef(Ref(rule.target, t)))
  }

  function FromOne(rule: Rule, s: string, targets: seq<string>): seq<EdgeRef> {
    if targets == [] then []
    else FromOne(rule, s, targets[..|targets| - 1]) + [Joined(rule, s, targets[|targets| - 1])]
  }

  function FromAll(rule: Rule, sources: seq<string>, targets: seq<string>): seq<EdgeRef> {
    if sources == [] then []
    else FromAll(rule, sources[..|sources| - 1], targets) + FromOne(rule, sources[|sources| - 1], targets)
  }

  function ByRules(rules: seq<Rule>, refs: seq<Ref>): seq<EdgeRef> {
    if rules == [] then []
    else
      var rule := rules[|rules| - 1];
      ByRules(rules[..|rules| - 1], refs) + FromAll(rule, Ids(refs, rule.source), Ids(refs, rule.target))
  }

  function BridgeEdges(e: Envelope): seq<EdgeRef> {
    ByRules(RULES, e.refs)
  }

  function RecordOf(e: Envelope): Record {
    Record(e, NodeRefs(AllRefs(e)), BridgeEdges(e), Ids(e.refs, Case))
  }

  function EdgeOf(e: Envelope): Edge {
    Edge(e.confidence, e.inferred, e.provenance)
  }

  // ---- ingesting -------------------------------------------------------------------------------------

  function WithNode(g: Graph, r: Ref, e: Envelope): Graph {
    if NodeRef(r) in g.nodes then g else g.(nodes := g.nodes[NodeRef(r) := Node(r, e)])
  }

  function WithNodes(g: Graph, refs: seq<Ref>, e: Envelope): Graph {
    if refs == [] then g else WithNode(WithNodes(g, refs[..|refs| - 1], e), refs[|refs| - 1], e)
  }

  function EventsOn(g: Graph, edge: EdgeRef): set<Envelope> {
    if edge in g.eventEdges then g.eventEdges[edge] else {}
  }

  function EventsUnder(g: Graph, c: string): set<Envelope> {
    if c in g.caseEvents then g.caseEvents[c] else {}
  }

  function WithEdge(g: Graph, edge: EdgeRef, e: Envelope): Graph {
    g.(edges := if edge in g.edges then g.edges else g.edges[edge := EdgeOf(e)],
       eventEdges := g.eventEdges[edge := EventsOn(g, edge) + {e}])
  }

  function WithEdges(g: Graph, edges: seq<EdgeRef>, e: Envelope): Graph {
    if edges == [] then g else WithEdge(WithEdges(g, edges[..|edges| - 1], e), edges[|edges| - 1], e)
  }

  function WithCases(g: Graph, cases: seq<string>, e: Envelope): Graph {
    if cases == [] then g
    else
      var h, c := WithCases(g, cases[..|cases| - 1], e), cases[|cases| - 1];
      h.(caseEvents := h.caseEvents[c := EventsUnder(h, c) + {e}])
  }

  /** The graph with a new event. */
  function Extended(g: Graph, e: Envelope): Graph {
    var r := RecordOf(e);
    var h := WithCases(WithEdges(WithNodes(g, AllRefs(e), e), r.edgeRefs, e), r.caseRefs, e);
    h.(events := h.events[e.key := r])
  }

  function Ingested(g: Graph, e: Envelope): (Graph, Result<Receipt, GraphError>) {
    if !Valid(e) then (g, Failure(InvalidEnvelope))
    else if e.key in g.events then
      var r := g.events[e.key];
      if r.envelope != e then (g, Failure(PayloadConflict))
      else (g, Success(Receipt(false, r.envelope, r.nodeRefs, r.edgeRefs)))
    else
      (Extended(g, e), Success(Receipt(true, e, RecordOf(e).nodeRefs, RecordOf(e).edgeRefs)))
  }

  /** `authorize_destructive_action`. */
  predicate Authorized(g: Graph, edge: EdgeRef) {
    edge in g.edges && g.edges[edge].confidence == 1.0 && !g.edges[edge].inferred
  }

  predicate Exact(e: Envelope) {
    e.confidence == 1.0 && !e.inferred
  }

  // ---- the queries -----------------------------------------------------------------------------------

  function CaseNode(c: string): string {
    NodeRef(Ref(Case, c))
  }

  /** The events reached over the edges at a case's node. */
  function OverEdges(g: Graph, c: string): set<Envelope> {
    set edge, e | edge in g.edges && (edge.source == CaseNode(c) || edge.target == CaseNode(c)) && e in EventsOn(g, edge) :: e
  }

  function ForCase(g: Graph, c: string): set<Envelope> {
    EventsUnder(g, c) + OverEdges(g, c)
  }

  // ---- node refs -------------------------------------------------------------------------------------

  lemma TypeNameColonFree(t: RefType)
    ensures ':' !in TypeName(t)
  {
  }

  lemma TypeNameInjective(t: RefType, u: RefType)
    requires TypeName(t) == TypeName(u)
    ensures t == u
  {
  }

  /** No two refs have the same node, although ids may hold colons. */
  lemma NodeRefInjective(a: Ref, b: Ref)
    requires NodeRef(a) == NodeRef(b)
    ensures a == b
  {
    var s, n, m := NodeRef(a), |TypeName(a.kind)|, |TypeName(b.kind)|;
    TypeNameColonFree(a.kind);
    TypeNameColonFree(b.kind);
    assert forall j :: 0 <= j < n ==> s[j] == TypeName(a.kind)[j];
    assert forall j :: 0 <= j < m ==> s[j] == TypeName(b.kind)[j];
    IndexOfFirst(s, ':', n);
    IndexOfFirst(s, ':', m);
    assert TypeName(a.kind) == s[..n] && TypeName(b.kind) == s[..m];
    TypeNameInjective(a.kind, b.kind);
    assert a.id == s[n + 1..] && b.id == s[m + 1..];
  }

  // ---- which edges an envelope carries ---------------------------------------------------------------

  lemma {:induction false} IdsExact(refs: seq<Ref>, t: RefType, id: string)
    ensures id in Ids(refs, t) <==> Ref(t, id) in refs
  {
    if refs != [] {
      var n := |refs| - 1;
      IdsExact(refs[..n], t, id);
      assert refs == refs[..n] + [refs[n]];
    }
  }

  lemma {:induction false} FromOneExact(rule: Rule, s: string, targets: seq<string>, x: EdgeRef)
    ensures x in FromOne(rule, s, targets) <==> exists t :: t in targets && x == Joined(rule, s, t)
  {
    if targets != [] {
      var n := |targets| - 1;
      FromOneExact(rule, s, targets[..n], x);
      assert targets == targets[..n] + [targets[n]];
    }
  }

  lemma {:induction false} FromAllExact(rule: Rule, sources: seq<string>, targets: seq<string>, x: EdgeRef)
    ensures x in FromAll(rule, sources, targets) <==> exists s, t :: s in sources && t in targets && x == Joined(rule, s, t)
  {
    if sources != [] {
      var n := |sources| - 1;
      FromAllExact(rule, sources[..n], targets, x);
      FromOneExact(rule, sources[n], targets, x);
      assert sources == sources[..n] + [sources[n]];
    }
  }

  ghost predicate Bridges(rule: Rule, refs: seq<Ref>, x: EdgeRef) {
    exists s, t :: Ref(rule.source, s) in refs && Ref(rule.target, t) in refs && x == Joined(rule, s, t)
  }

  lemma RuleExact(rule: Rule, refs: seq<Ref>, x: EdgeRef)
    ensures x in FromAll(rule, Ids(refs, rule.source), Ids(refs, rule.target)) <==> Bridges(rule, refs, x)
  {
    var sources, targets := Ids(refs, rule.source), Ids(refs, rule.target);
    FromAllExact(rule, sources, targets, x);
    forall id: string
      ensures (id in sources <==> Ref(rule.source, id) in refs) && (id in targets <==> Ref(rule.target, id) in refs)
    {
      IdsExact(refs, rule.source, id);
      IdsExact(refs, rule.target, id);
    }
  }

  /** An envelope carries an edge exactly when some rule joins two of its refs by it. */
  lemma {:induction false} ByRulesExact(rules: seq<Rule>, refs: seq<Ref>, x: EdgeRef)
    ensures x in ByRules(rules, refs) <==> exists i :: 0 <= i < |rules| && Bridges(rules[i], refs, x)
  {
    if rules != [] {
      var n := |rules| - 1;
      ByRulesExact(rules[..n], refs, x);
      RuleExact(rules[n], refs, x);
      assert forall i :: 0 <= i < n ==> rules[..n][i] == rules[i];
    }
  }

  /** An edge at a case's node is carried only by envelopes that name the case themselves. */
  lemma EdgeAtCase(e: Envelope, x: EdgeRef, c: string)
    requires x in BridgeEdges(e) && (x.source == CaseNode(c) || x.target == CaseNode(c))
    ensures Ref(Case, c) in e.refs
  {
    ByRulesExact(RULES, e.refs, x);
    var i :| 0 <= i < |RULES| && Bridges(RULES[i], e.refs, x);
    var s, t :| Ref(RULES[i].source, s) in e.refs && Ref(RULES[i].target, t) in e.refs && x == Joined(RULES[i], s, t);
    if x.source == CaseNode(c) {
      NodeRefInjective(Ref(RULES[i].source, s), Ref(Case, c));
    } else {
      NodeRefInjective(Ref(RULES[i].target, t), Ref(Case, c));
    }
  }

  /** The ends of an edge are nodes of refs that the envelope names. */
  lemma EdgeEnds(e: Envelope, x: EdgeRef)
    requires x in BridgeEdges(e)
    ensures exists a, b :: a in e.refs && b in e.refs && x.source == NodeRef(a) && x.target == NodeRef(b)
  {
    ByRulesExact(RULES, e.refs, x);
    var i :| 0 <= i < |RULES| && Bridges(RULES[i], e.refs, x);
    var s, t :| Ref(RULES[i].source, s) in e.refs && Ref(RULES[i].target, t) in e.refs && x == Joined(RULES[i], s, t);
    assert x.source == NodeRef(Ref(RULES[i].source, s)) && x.target == NodeRef(Ref(RULES[i].target, t));
  }
}
