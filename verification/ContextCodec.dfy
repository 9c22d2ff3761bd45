/** The canonical JSON text of a loop context, and its reader. */
module ContextCodec {
  import opened Common
  import opened LoopController
  import opened Json

  function StateName(s: LoopState): string {
    match s
    case CREATED => "CREATED"
    case READY => "READY"
    case RUNNING => "RUNNING"
    case CHECKPOINTED => "CHECKPOINTED"
    case NEEDS_OPERATOR => "NEEDS_OPERATOR"
    case HUMAN_REVIEW => "HUMAN_REVIEW"
    case BLOCKED => "BLOCKED"
    case CANCELLED => "CANCELLED"
    case DONE => "DONE"
  }

  /** `LoopState(text)`. */
  function StateOf(t: string): Option<LoopState> {
    if t == "CREATED" then Some(CREATED)
    else if t == "READY" then Some(READY)
    else if t == "RUNNING" then Some(RUNNING)
    else if t == "CHECKPOINTED" then Some(CHECKPOINTED)
    else if t == "NEEDS_OPERATOR" then Some(NEEDS_OPERATOR)
    else if t == "HUMAN_REVIEW" then Some(HUMAN_REVIEW)
    else if t == "BLOCKED" then Some(BLOCKED)
    else if t == "CANCELLED" then Some(CANCELLED)
    else if t == "DONE" then Some(DONE)
    else None
  }

  function OptText(o: Option<nat>): string {
    match o
    case None => "null"
    case Some(n) => PrintNat(n)
  }

  // The printed members from each field on, names in sorted order, no spaces.
  function FromState(c: LoopContext): string {
    Member("state", "\"" + StateName(c.state) + "\"") + "}"
  }

  function FromRetries(c: LoopContext): string {
    Member("retries", PrintNat(c.retries)) + ("," + FromState(c))
  }

  function FromLease(c: LoopContext): string {
    Member("lease_expires_at", OptText(c.leaseExpiresAt)) + ("," + FromRetries(c))
  }

  function FromIterations(c: LoopContext): string {
    Member("iterations", PrintNat(c.iterations)) + ("," + FromLease(c))
  }

  function FromDeadline(c: LoopContext): string {
    Member("deadline_at", OptText(c.deadlineAt)) + ("," + FromIterations(c))
  }

  /** `_encode_context`. */
  function Encode(c: LoopContext): string {
    "{" + (Member("budget_used", PrintNat(c.budgetUsed)) + ("," + FromDeadline(c)))
  }

  lemma MemberText(name: string, value: string, rest: string)
    ensures Member(name, value) + ("," + rest) == "\"" + name + "\":" + value + "," + rest
  {
  }

  /** The text, member by member: the six names in order, numbers in decimal digits, `null` for what is not given, no spaces. */
  lemma EncodeText(c: LoopContext)
    ensures Encode(c) == "{" + ("\"" + "budget_used" + "\":" + PrintNat(c.budgetUsed) + "," + FromDeadline(c))
    ensures FromDeadline(c) == "\"" + "deadline_at" + "\":" + OptText(c.deadlineAt) + "," + FromIterations(c)
    ensures FromIterations(c) == "\"" + "iterations" + "\":" + PrintNat(c.iterations) + "," + FromLease(c)
    ensures FromLease(c) == "\"" + "lease_expires_at" + "\":" + OptText(c.leaseExpiresAt) + "," + FromRetries(c)
    ensures FromRetries(c) == "\"" + "retries" + "\":" + PrintNat(c.retries) + "," + FromState(c)
    ensures FromState(c) == "\"" + "state" + "\":" + ("\"" + StateName(c.state) + "\"") + "}"
    ensures OptText(None) == "null" && forall n: nat :: OptText(Some(n)) == PrintNat(n)
  {
    MemberText("budget_used", PrintNat(c.budgetUsed), FromDeadline(c));
    MemberText("deadline_at", OptText(c.deadlineAt), FromIterations(c));
    MemberText("iterations", PrintNat(c.iterations), FromLease(c));
    MemberText("lease_expires_at", OptText(c.leaseExpiresAt), FromRetries(c));
    MemberText("retries", PrintNat(c.retries), FromState(c));
  }

  const FIELDS: set<string> := {"budget_used", "deadline_at", "iterations", "lease_expires_at", "retries", "state"}

  predicate IsNat(v: Value) {
    v.Int? && v.i >= 0
  }

  predicate IsOptNat(v: Value) {
    v.Null? || IsNat(v)
  }

  function OptNat(v: Value): Option<nat>
    requires IsOptNat(v)
  {
    if v.Null? then None else Some(v.i)
  }

  /** The fields of a parsed object as a context, if they are exactly the six, with the right types. */
  function FromObject(m: map<string, Value>): Option<LoopContext> {
    if m.Keys != FIELDS then None
    else if !(IsNat(m["budget_used"]) && IsOptNat(m["deadline_at"]) && IsNat(m["iterations"])
              && IsOptNat(m["lease_expires_at"]) && IsNat(m["retries"]) && m["state"].String?) then None
    else if StateOf(m["state"].s).None? then None
    else Some(LoopContext(StateOf(m["state"].s).value, m["iterations"].i, m["retries"].i, m["budget_used"].i,
                          OptNat(m["deadline_at"]), OptNat(m["lease_expires_at"])))
  }

  /** `_decode_context`, for a text whose stored hash is its own. */
  function Decode(s: string): Option<LoopContext> {
    match Loads(s)
    case Some(Object(m)) =>
      var c := FromObject(m);
      if c.Some? && Encode(c.value) == s then c else None
    case _ => None
  }

  function OptValue(o: Option<nat>): Value {
    match o
    case None => Null
    case Some(n) => Int(n)
  }

  function ToObject(c: LoopContext): map<string, Value> {
    map[]["budget_used" := Int(c.budgetUsed)]["deadline_at" := OptValue(c.deadlineAt)]["iterations" := Int(c.iterations)]
      ["lease_expires_at" := OptValue(c.leaseExpiresAt)]["retries" := Int(c.retries)]["state" := String(StateName(c.state))]
  }

  lemma FromToObject(c: LoopContext)
    ensures FromObject(ToObject(c)) == Some(c)
  {
    assert ToObject(c).Keys == FIELDS;
  }

  lemma ParseOpt(o: Option<nat>, rest: string)
    requires Delimited(rest)
    ensures ParseValue(OptText(o) + rest) == Ok(OptValue(o), rest)
    ensures OptText(o) != "" && !IsSpace(OptText(o)[0])
  {
    match o
    case None => ParseNullText(rest);
    case Some(n) =>
      ParsePrintedNat(n, rest);
      assert PrintNat(n)[0] in PrintNat(n);
  }

  /** One printed member that is followed by another. */
  lemma MemberThen(name: string, text: string, v: Value, tail: string, read: map<string, Value>)
    requires PlainText(name) && text != "" && !IsSpace(text[0]) && tail != "" && !IsSpace(tail[0])
    requires ParseValue(text + ("," + tail)) == Ok(v, "," + tail)
    ensures ParseMembers(Member(name, text) + ("," + tail), read) == ParseMembers(tail, read[name := v])
  {
    var rest := "," + tail;
    ParseMember(name, text, v, rest, read);
    assert rest[1..] == tail && rest[1] == tail[0];
  }

  lemma NatThen(name: string, n: nat, tail: string, read: map<string, Value>)
    requires PlainText(name) && tail != "" && !IsSpace(tail[0])
    ensures ParseMembers(Member(name, PrintNat(n)) + ("," + tail), read) == ParseMembers(tail, read[name := Int(n)])
  {
    ParsePrintedNat(n, "," + tail);
    assert PrintNat(n)[0] in PrintNat(n);
    MemberThen(name, PrintNat(n), Int(n), tail, read);
  }

  lemma OptThen(name: string, o: Option<nat>, tail: string, read: map<string, Value>)
    requires PlainText(name) && tail != "" && !IsSpace(tail[0])
    ensures ParseMembers(Member(name, OptText(o)) + ("," + tail), read) == ParseMembers(tail, read[name := OptValue(o)])
  {
    ParseOpt(o, "," + tail);
    MemberThen(name, OptText(o), OptValue(o), tail, read);
  }

  /** The last printed member, a string. */
  lemma StringThenEnd(name: string, content: string, read: map<string, Value>)
    requires PlainText(name) && PlainText(content)
    ensures ParseMembers(Member(name, "\"" + content + "\"") + "}", read) == Ok(read[name := String(content)], "")
  {
    var text := "\"" + content + "\"";
    ParseStringText(content, "}");
    ParseMember(name, text, String(content), "}", read);
    assert "}"[1..] == "";
  }

  lemma StateNamePlain(c: LoopContext)
    ensures PlainText(StateName(c.state))
  {
  }

  lemma ParseState(c: LoopContext, read: map<string, Value>)
    ensures ParseMembers(FromState(c), read) == Ok(read["state" := String(StateName(c.state))], "")
  {
    StateNamePlain(c);
    StringThenEnd("state", StateName(c.state), read);
  }

  lemma ParseRetries(c: LoopContext, read: map<string, Value>)
    ensures ParseMembers(FromRetries(c), read) ==
            Ok(read["retries" := Int(c.retries)]["state" := String(StateName(c.state))], "")
  {
    NatThen("retries", c.retries, FromState(c), read);
    ParseState(c, read["retries" := Int(c.retries)]);
  }

  lemma ParseLease(c: LoopContext, read: map<string, Value>)
    ensures ParseMembers(FromLease(c), read) ==
            ParseMembers(FromRetries(c), read["lease_expires_at" := OptValue(c.leaseExpiresAt)])
  {
    OptThen("lease_expires_at", c.leaseExpiresAt, FromRetries(c), read);
  }

  lemma ParseIterations(c: LoopContext, read: map<string, Value>)
    ensures ParseMembers(FromIterations(c), read) == ParseMembers(FromLease(c), read["iterations" := Int(c.iterations)])
  {
    NatThen("iterations", c.iterations, FromLease(c), read);
  }

  lemma ParseDeadline(c: LoopContext, read: map<string, Value>)
    ensures ParseMembers(FromDeadline(c), read) == ParseMembers(FromIterations(c), read["deadline_at" := OptValue(c.deadlineAt)])
  {
    OptThen("deadline_at", c.deadlineAt, FromIterations(c), read);
  }

  lemma ParseMembersOfContext(c: LoopContext)
    ensures ParseMembers(Member("budget_used", PrintNat(c.budgetUsed)) + ("," + FromDeadline(c)), map[]) == Ok(ToObject(c), "")
  {
    var m1: map<string, Value> := map[]["budget_used" := Int(c.budgetUsed)];
    var m2 := m1["deadline_at" := OptValue(c.deadlineAt)];
    var m3 := m2["iterations" := Int(c.iterations)];
    var m4 := m3["lease_expires_at" := OptValue(c.leaseExpiresAt)];
    NatThen("budget_used", c.budgetUsed, FromDeadline(c), map[]);
    ParseDeadline(c, m1);
    ParseIterations(c, m2);
    ParseLease(c, m3);
    ParseRetries(c, m4);
  }

  lemma LoadsOfEncode(c: LoopContext)
    ensures Loads(Encode(c)) == Some(Object(ToObject(c)))
  {
    ParseMembersOfContext(c);
    var body := Member("budget_used", PrintNat(c.budgetUsed)) + ("," + FromDeadline(c));
    var s := "{" + body;
    assert s[0] == '{' && s[1..] == body && body[0] == '"';
    assert SkipSpace(s) == s && SkipSpace(body) == body;
    assert ParseValue(s) == Ok(Object(ToObject(c)), "");
  }

  /** Decoding accepts a text as the context `c` exactly when the text is the encoding of `c`. */
  lemma DecodeIffEncode(s: string, c: LoopContext)
    ensures Decode(s) == Some(c) <==> s == Encode(c)
  {
    LoadsOfEncode(c);
    FromToObject(c);
  }

  /** Different contexts have different encodings. */
  lemma EncodeInjective(a: LoopContext, b: LoopContext)
    requires Encode(a) == Encode(b)
    ensures a == b
  {
    DecodeIffEncode(Encode(a), a);
    DecodeIffEncode(Encode(b), b);
  }
}
