/** What the graph answers, in terms of the log and the envelope alone. */
module DomainEventAnswers {
  import opened Common
  import opened CanonicalRef
  import opened DomainEventGraph
  import opened DomainEventRuns

  // ---- what an envelope carries ----------------------------------------------------------------------

  /** The kinds of the two refs that an edge of this type joins. */
  function Ends(t: EdgeType): (RefType, RefType) {
    match t
    case MailCase => (Mail, Case)
    case CaseScheduler => (Case, Scheduler)
    case MailInvoiceFinance => (MailInvoice, Finance)
    case MailInvoiceGewerbe => (MailInvoice, Gewerbe)
    case GithubCiMailRecovery => (GithubCiMail, Recovery)
    case DocumentCase => (Document, Case)
    case DevelopmentGoalRunnerContinuation => (DevelopmentGoal, RunnerContinuation)
  }

  ghost predicate Joins(a: Ref, b: Ref, x: EdgeRef) {
    (a.kind, b.kind) == Ends(x.edge) && x.source == NodeRef(a) && x.target == NodeRef(b)
  }

  lemma RuleOf(t: EdgeType) returns (i: nat)
    ensures i < |RULES| && RULES[i] == Rule(Ends(t).0, Ends(t).1, t)
  {
    i := match t
      case MailCase => 0
      case CaseScheduler => 1
      case MailInvoiceFinance => 2
      case MailInvoiceGewerbe => 3
      case GithubCiMailRecovery => 4
      case DocumentCase => 5
      case DevelopmentGoalRunnerContinuation => 6;
  }

  lemma RulesJoinEnds(i: nat)
    requires i < |RULES|
    ensures Ends(RULES[i].edge) == (RULES[i].source, RULES[i].target)
  {
  }

  /** Two of the refs are of the kinds that edges of this type join. */
  ghost predicate JoinsTwo(refs: seq<Ref>, x: EdgeRef) {
    exists a, b :: a in refs && b in refs && Joins(a, b, x)
  }

  lemma BridgeJoins(i: nat, refs: seq<Ref>, x: EdgeRef)
    requires i < |RULES| && Bridges(RULES[i], refs, x)
    ensures JoinsTwo(refs, x)
  {
    var rule := RULES[i];
    RulesJoinEnds(i);
    var s, t :| Ref(rule.source, s) in refs && Ref(rule.target, t) in refs && x == Joined(rule, s, t);
    assert Joins(Ref(rule.source, s), Ref(rule.target, t), x);
  }

  lemma JoinsBridge(rule: Rule, refs: seq<Ref>, x: EdgeRef)
    requires JoinsTwo(refs, x) && rule == Rule(Ends(x.edge).0, Ends(x.edge).1, x.edge)
    ensures Bridges(rule, refs, x)
  {
    var a, b :| a in refs && b in refs && Joins(a, b, x);
    assert Ref(rule.source, a.id) == a && Ref(rule.target, b.id) == b;
  }

  /** An envelope carries exactly the edges that join two of its refs. */
  lemma CarriesByEnds(e: Envelope, x: EdgeRef)
    ensures x in BridgeEdges(e) <==> JoinsTwo(e.refs, x)
  {
    ByRulesExact(RULES, e.refs, x);
    if x in BridgeEdges(e) {
      var i: nat :| i < |RULES| && Bridges(RULES[i], e.refs, x);
      BridgeJoins(i, e.refs, x);
    }
    if JoinsTwo(e.refs, x) {
      var i := RuleOf(x.edge);
      JoinsBridge(RULES[i], e.refs, x);
    }
  }

  // ---- texts and bounds ------------------------------------------------------------------------------

  /** A node ref is the name of its ref's kind, a colon and the id. */
  lemma NodeRefText(id: string)
    ensures NodeRef(Ref(Mail, id)) == "mail:" + id && NodeRef(Ref(MailInvoice, id)) == "mail_invoice:" + id
    ensures NodeRef(Ref(Case, id)) == "case:" + id && NodeRef(Ref(Scheduler, id)) == "scheduler:" + id
    ensures NodeRef(Ref(Finance, id)) == "finance:" + id && NodeRef(Ref(Gewerbe, id)) == "gewerbe:" + id
    ensures NodeRef(Ref(GithubCiMail, id)) == "github_ci_mail:" + id && NodeRef(Ref(Recovery, id)) == "recovery:" + id
    ensures NodeRef(Ref(Document, id)) == "document:" + id && NodeRef(Ref(DevelopmentGoal, id)) == "development_goal:" + id
    ensures NodeRef(Ref(RunnerContinuation, id)) == "runner_continuation:" + id && NodeRef(Ref(LoopRun, id)) == "loop_run:" + id
    ensures NodeRef(Ref(SourceEvent, id)) == "source_event:" + id
  {
  }

  predicate Letter(c: char) {
    ('a' <= c && c <= 'z') || ('A' <= c && c <= 'Z')
  }

  predicate Digit(c: char) {
    '0' <= c && c <= '9'
  }

  /** At least one and at most 128 letters, digits, dots, underscores, colons and hyphens, the first a letter or a digit. */
  predicate IsToken(s: string) {
    && s != "" && |s| < 129 && (Letter(s[0]) || Digit(s[0]))
    && forall c :: c in s ==> Letter(c) || Digit(c) || c in {'.', '_', ':', '-'}
  }

  /** 64 lower-case hexadecimal digits. */
  predicate IsHash(s: string) {
    |s| == 64 && forall c :: c in s ==> Digit(c) || ('a' <= c && c <= 'f')
  }

  lemma TokenExactly(s: string)
    ensures Token(s) <==> IsToken(s)
    ensures Hash(s) <==> IsHash(s)
  {
    if IsToken(s) || IsHash(s) {
      assert forall i :: 0 <= i < |s| ==> s[i] in s;
    }
  }

  lemma ValidExactly(e: Envelope)
    ensures Valid(e) <==>
            && IsToken(e.eventType) && IsToken(e.source) && IsToken(e.key)
            && |e.refs| > 0 && (forall r :: r in e.refs ==> IsToken(r.id))
            && |e.provenance| > 0
            && (forall p :: p in e.provenance ==>
                  IsToken(p.ref) && IsToken(p.kind) && (p.evidenceHash.None? || IsHash(p.evidenceHash.value)))
            && e.confidence >= 0.0 && e.confidence <= 1.0 && (e.payloadHash.None? || IsHash(e.payloadHash.value))
  {
    forall s: string
      ensures (Token(s) <==> IsToken(s)) && (Hash(s) <==> IsHash(s))
    {
      TokenExactly(s);
    }
    assert forall i :: 0 <= i < |e.refs| ==> e.refs[i] in e.refs;
    assert forall i :: 0 <= i < |e.provenance| ==> e.provenance[i] in e.provenance;
  }

  // ---- what ingesting answers ------------------------------------------------------------------------

  /** Another envelope holds the key. */
  predicate Conflicts(log: seq<Envelope>, e: Envelope) {
    exists d :: d in log && d.key == e.key && d != e
  }

  /** The receipt names the event, a node for its source and one for each of its refs in order, and the edges it carries. */
  ghost predicate Describes(r: Receipt, e: Envelope) {
    && r.event == e
    && |r.nodeRefs| == |e.refs| + 1 && r.nodeRefs[0] == NodeRef(Ref(SourceEvent, e.source))
    && (forall i :: 0 <= i < |e.refs| ==> r.nodeRefs[i + 1] == NodeRef(e.refs[i]))
    && (forall x :: x in r.edgeRefs <==> JoinsTwo(e.refs, x))
  }

  lemma RecordNames(e: Envelope, isNew: bool)
    ensures Describes(Receipt(isNew, e, RecordOf(e).nodeRefs, RecordOf(e).edgeRefs), e)
  {
    forall x: EdgeRef
      ensures x in BridgeEdges(e) <==> JoinsTwo(e.refs, x)
    {
      CarriesByEnds(e, x);
    }
  }

  /** In every graph that some batch left: an invalid envelope is refused, a valid one conflicts exactly if a different one
      holds its key, is new exactly if none does, and nothing but a new one changes the graph. */
  lemma AnswersExactly(batch: seq<Envelope>, e: Envelope)
    ensures var g, log := Build(batch), Accepted(batch);
      var (h, answer) := Ingested(g, e);
      && (answer == Failure(InvalidEnvelope) <==> !Valid(e))
      && (answer == Failure(PayloadConflict) <==> Valid(e) && Conflicts(log, e))
      && (answer.Failure? ==> answer.error in {InvalidEnvelope, PayloadConflict} && h == g)
      && (answer.Success? ==> Describes(answer.value, e) && (answer.value.isNew <==> !HasKey(log, e.key)))
      && (answer.Success? && !answer.value.isNew ==> e in log && h == g)
      && (answer.Success? && answer.value.isNew ==> h == Build(batch + [e]) && Accepted(batch + [e]) == log + [e])
  {
    BuildReflects(batch);
    AnswersInLog(Build(batch), Accepted(batch), e);
    assert (batch + [e])[..|batch|] == batch;
  }

  /** The same of any graph that reflects a log. */
  lemma AnswersInLog(g: Graph, log: seq<Envelope>, e: Envelope)
    requires Reflects(g, log)
    ensures var (h, answer) := Ingested(g, e);
      && (answer == Failure(InvalidEnvelope) <==> !Valid(e))
      && (answer == Failure(PayloadConflict) <==> Valid(e) && Conflicts(log, e))
      && (answer.Failure? ==> answer.error in {InvalidEnvelope, PayloadConflict} && h == g)
      && (answer.Success? ==> Describes(answer.value, e) && (answer.value.isNew <==> !HasKey(log, e.key)))
      && (answer.Success? && !answer.value.isNew ==> e in log && h == g)
  {
    KeysAgree(g, log, e.key);
    RecordNames(e, true);
    RecordNames(e, false);
    if e.key in g.events {
      SameKeySame(g, log, e.key);
    }
  }

  /** One envelope holds a key. */
  lemma SameKeySame(g: Graph, log: seq<Envelope>, key: string)
    requires EventsOk(g, log) && key in g.events
    ensures g.events[key].envelope in log && g.events[key].envelope.key == key && g.events[key] == RecordOf(g.events[key].envelope)
    ensures forall d :: d in log && d.key == key ==> d == g.events[key].envelope
  {
    forall d | d in log && d.key == key
      ensures d == g.events[key].envelope
    {
      assert g.events[key] == RecordOf(d);
    }
  }

  // ---- what an edge remembers ------------------------------------------------------------------------

  /** The confidence, the mark of inference and the provenance of an edge are those of the first event that carried it. */
  lemma EdgeRemembers(batch: seq<Envelope>, x: EdgeRef)
    requires x in Build(batch).edges
    ensures FirstCarrier(Accepted(batch), x).Some?
    ensures var e, edge := FirstCarrier(Accepted(batch), x).value, Build(batch).edges[x];
      edge.confidence == e.confidence && edge.inferred == e.inferred && edge.provenance == e.provenance
  {
    FirstWriterWins(batch, x);
  }

  // ---- no edge twice ---------------------------------------------------------------------------------

  ghost predicate Distinct<T>(s: seq<T>) {
    forall i, j :: 0 <= i < j < |s| ==> s[i] != s[j]
  }

  lemma DistinctConcat<T>(s: seq<T>, t: seq<T>)
    requires Distinct(s) && Distinct(t) && forall x :: x in s ==> x !in t
    ensures Distinct(s + t)
  {
    forall i, j | 0 <= i < j < |s + t|
      ensures (s + t)[i] != (s + t)[j]
    {
      if i < |s| <= j {
        assert s[i] in s && t[j - |s|] in t;
      }
    }
  }

  lemma {:induction false} IdsDistinct(refs: seq<Ref>, t: RefType)
    requires Distinct(refs)
    ensures Distinct(Ids(refs, t))
  {
    if refs != [] {
      var n := |refs| - 1;
      IdsDistinct(refs[..n], t);
      IdsExact(refs[..n], t, refs[n].id);
      if refs[n].kind == t {
        assert Ref(t, refs[n].id) == refs[n] && refs[n] !in refs[..n];
        DistinctConcat(Ids(refs[..n], t), [refs[n].id]);
      }
    }
  }

  lemma JoinedInjective(rule: Rule, s: string, t: string, s': string, t': string)
    requires Joined(rule, s, t) == Joined(rule, s', t')
    ensures s == s' && t == t'
  {
    NodeRefInjective(Ref(rule.source, s), Ref(rule.source, s'));
    NodeRefInjective(Ref(rule.target, t), Ref(rule.target, t'));
  }

  lemma {:induction false} FromOneDistinct(rule: Rule, s: string, targets: seq<string>)
    requires Distinct(targets)
    ensures Distinct(FromOne(rule, s, targets))
  {
    if targets != [] {
      var n := |targets| - 1;
      FromOneDistinct(rule, s, targets[..n]);
      var last := Joined(rule, s, targets[n]);
      FromOneExact(rule, s, targets[..n], last);
      if t :| t in targets[..n] && last == Joined(rule, s, t) {
        JoinedInjective(rule, s, targets[n], s, t);
        assert false;
      }
      DistinctConcat(FromOne(rule, s, targets[..n]), [last]);
    }
  }

  lemma {:induction false} FromAllDistinct(rule: Rule, sources: seq<string>, targets: seq<string>)
    requires Distinct(sources) && Distinct(targets)
    ensures Distinct(FromAll(rule, sources, targets))
  {
    if sources != [] {
      var n := |sources| - 1;
      FromAllDistinct(rule, sources[..n], targets);
      FromOneDistinct(rule, sources[n], targets);
      forall x | x in FromAll(rule, sources[..n], targets)
        ensures x !in FromOne(rule, sources[n], targets)
      {
        FromAllExact(rule, sources[..n], targets, x);
        FromOneExact(rule, sources[n], targets, x);
        var s, t :| s in sources[..n] && t in targets && x == Joined(rule, s, t);
        if t' :| t' in targets && x == Joined(rule, sources[n], t') {
          JoinedInjective(rule, s, t, sources[n], t');
          assert false;
        }
      }
      DistinctConcat(FromAll(rule, sources[..n], targets), FromOne(rule, sources[n], targets));
    }
  }

  ghost predicate OwnTypes(rules: seq<Rule>) {
    forall i, j :: 0 <= i < j < |rules| ==> rules[i].edge != rules[j].edge
  }

  lemma {:induction false} ByRulesDistinct(rules: seq<Rule>, refs: seq<Ref>)
    requires Distinct(refs) && OwnTypes(rules)
    ensures Distinct(ByRules(rules, refs))
  {
    if rules != [] {
      var n := |rules| - 1;
      var rule := rules[n];
      ByRulesDistinct(rules[..n], refs);
      IdsDistinct(refs, rule.source);
      IdsDistinct(refs, rule.target);
      FromAllDistinct(rule, Ids(refs, rule.source), Ids(refs, rule.target));
      forall x | x in ByRules(rules[..n], refs)
        ensures x !in FromAll(rule, Ids(refs, rule.source), Ids(refs, rule.target))
      {
        ByRulesExact(rules[..n], refs, x);
        RuleExact(rule, refs, x);
        var i :| 0 <= i < n && Bridges(rules[..n][i], refs, x);
        assert x.edge == rules[i].edge;
      }
      DistinctConcat(ByRules(rules[..n], refs), FromAll(rule, Ids(refs, rule.source), Ids(refs, rule.target)));
    }
  }

  /** An envelope that names no ref twice lists no edge twice. */
  lemma EdgesOnce(e: Envelope)
    requires Distinct(e.refs)
    ensures Distinct(BridgeEdges(e))
  {
    ByRulesDistinct(RULES, e.refs);
  }
}
