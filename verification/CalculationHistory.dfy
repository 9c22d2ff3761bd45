/** The project history of calculations in the private memory: written fact by fact, bounded to the last fifty,
    the latest moved to the back. */
module CalculationHistory {
  import opened Common

  /** One line of the history index. */
  datatype Entry = Entry(inputHash: string, status: string, accepted: nat, blocked: nat)

  const MAX_HISTORY: nat := 50

  function Without(entries: seq<Entry>, hash: string): seq<Entry> {
    if entries == [] then []
    else
      var rest, last := Without(entries[..|entries| - 1], hash), entries[|entries| - 1];
      if last.inputHash == hash then rest else rest + [last]
  }

  function Last<T>(k: nat, s: seq<T>): seq<T> {
    if |s| <= k then s else s[|s| - k..]
  }

  /** `_merge_history`. */
  function Merged(entries: seq<Entry>, next: Entry): seq<Entry> {
    Last(MAX_HISTORY, Without(entries, next.inputHash) + [next])
  }

  /** The stored history after some writes. */
  function Stored(writes: seq<Entry>): seq<Entry> {
    if writes == [] then [] else Merged(Stored(writes[..|writes| - 1]), writes[|writes| - 1])
  }

  /** The unbounded history: of each input hash its last write, in order of these writes. */
  function Recent(writes: seq<Entry>): seq<Entry> {
    if writes == [] then []
    else if Occurs(writes[1..], writes[0].inputHash) then Recent(writes[1..])
    else [writes[0]] + Recent(writes[1..])
  }

  predicate Occurs(entries: seq<Entry>, hash: string) {
    exists i :: 0 <= i < |entries| && entries[i].inputHash == hash
  }

  ghost predicate DistinctHashes(entries: seq<Entry>) {
    forall i, j :: 0 <= i < j < |entries| ==> entries[i].inputHash != entries[j].inputHash
  }

  // ---- the bounded history refines the unbounded one -------------------------------------------------

  lemma {:induction false} WithoutAppend(a: seq<Entry>, b: seq<Entry>, hash: string)
    ensures Without(a + b, hash) == Without(a, hash) + Without(b, hash)
  {
    if b == [] {
      assert a + b == a;
    } else {
      var n := |b| - 1;
      WithoutAppend(a, b[..n], hash);
      assert (a + b)[..|a + b| - 1] == a + b[..n];
    }
  }

  lemma {:induction false} WithoutNone(entries: seq<Entry>, hash: string)
    requires !Occurs(entries, hash)
    ensures Without(entries, hash) == entries
  {
    if entries != [] {
      var n := |entries| - 1;
      forall i | 0 <= i < n
        ensures entries[..n][i].inputHash != hash
      {
        assert entries[i].inputHash != hash;
      }
      WithoutNone(entries[..n], hash);
    }
  }

  lemma {:induction false} WithoutFirst(e: Entry, rest: seq<Entry>, hash: string)
    ensures Without([e] + rest, hash) == (if e.inputHash == hash then [] else [e]) + Without(rest, hash)
  {
    WithoutAppend([e], rest, hash);
    assert [e][..0] == [];
  }

  /** A later write of a hash moves it to the back of the unbounded history. */
  lemma {:induction false} RecentNext(writes: seq<Entry>, next: Entry)
    ensures Recent(writes + [next]) == Without(Recent(writes), next.inputHash) + [next]
  {
    if writes == [] {
      assert [next][1..] == [];
    } else {
      var e, rest := writes[0], writes[1..];
      assert (writes + [next])[1..] == rest + [next];
      RecentNext(rest, next);
      OccursNext(rest, next, e.inputHash);
      if !Occurs(rest, e.inputHash) {
        WithoutFirst(e, Recent(rest), next.inputHash);
      }
    }
  }

  lemma OccursNext(entries: seq<Entry>, next: Entry, hash: string)
    ensures Occurs(entries + [next], hash) <==> Occurs(entries, hash) || next.inputHash == hash
  {
    if Occurs(entries, hash) {
      var i :| 0 <= i < |entries| && entries[i].inputHash == hash;
      assert (entries + [next])[i].inputHash == hash;
    }
    if next.inputHash == hash {
      assert (entries + [next])[|entries|].inputHash == hash;
    }
  }

  lemma {:induction false} RecentDistinct(writes: seq<Entry>, hash: string)
    ensures DistinctHashes(Recent(writes))
    ensures Occurs(Recent(writes), hash) <==> Occurs(writes, hash)
  {
    if writes != [] {
      var e, rest := writes[0], writes[1..];
      RecentDistinct(rest, hash);
      RecentDistinct(rest, e.inputHash);
      assert Occurs(writes, hash) <==> e.inputHash == hash || Occurs(rest, hash) by {
        assert writes == [e] + rest;
        OccursFirst(e, rest, hash);
      }
      if !Occurs(rest, e.inputHash) {
        OccursFirst(e, Recent(rest), hash);
        forall i, j | 0 <= i < j < |Recent(writes)|
          ensures Recent(writes)[i].inputHash != Recent(writes)[j].inputHash
        {
          assert Recent(writes)[j] == Recent(rest)[j - 1];
          if i > 0 {
            assert Recent(writes)[i] == Recent(rest)[i - 1];
          }
        }
      }
    }
  }

  lemma OccursFirst(e: Entry, rest: seq<Entry>, hash: string)
    ensures Occurs([e] + rest, hash) <==> e.inputHash == hash || Occurs(rest, hash)
  {
    if Occurs(rest, hash) {
      var i :| 0 <= i < |rest| && rest[i].inputHash == hash;
      assert ([e] + rest)[i + 1].inputHash == hash;
    }
    if e.inputHash == hash {
      assert ([e] + rest)[0].inputHash == hash;
    }
  }

  lemma {:induction false} WithoutLength(entries: seq<Entry>, hash: string)
    requires DistinctHashes(entries)
    ensures |Without(entries, hash)| >= |entries| - 1
  {
    if entries != [] {
      var n := |entries| - 1;
      if entries[n].inputHash == hash {
        WithoutNone(entries[..n], hash);
      } else {
        WithoutLength(entries[..n], hash);
      }
    }
  }

  /** Cutting to the last fifty before a write is the same as cutting after it. */
  lemma CutBeforeOrAfter(entries: seq<Entry>, next: Entry)
    requires DistinctHashes(entries)
    ensures Merged(Last(MAX_HISTORY, entries), next) == Merged(entries, next)
  {
    if |entries| > MAX_HISTORY {
      var gone, kept := entries[..|entries| - MAX_HISTORY], entries[|entries| - MAX_HISTORY..];
      assert entries == gone + kept;
      WithoutAppend(gone, kept, next.inputHash);
      WithoutLength(kept, next.inputHash);
      var a, b := Without(gone, next.inputHash), Without(kept, next.inputHash);
      assert Last(MAX_HISTORY, a + b + [next]) == Last(MAX_HISTORY, b + [next]);
    }
  }

  /** After any writes the stored history is the last fifty distinct input hashes by most recent write, each with
      its latest entry. */
  lemma {:induction false} BoundedRefinesUnbounded(writes: seq<Entry>)
    ensures Stored(writes) == Last(MAX_HISTORY, Recent(writes))
  {
    if writes != [] {
      var n := |writes| - 1;
      BoundedRefinesUnbounded(writes[..n]);
      RecentDistinct(writes[..n], "");
      CutBeforeOrAfter(Recent(writes[..n]), writes[n]);
      RecentNext(writes[..n], writes[n]);
      assert writes == writes[..n] + [writes[n]];
    }
  }

  function BoundedLimit(limit: int): nat {
    if limit < 1 then 1 else if limit > 10 then 10 else limit
  }

  lemma LastOfLast<T>(a: nat, b: nat, s: seq<T>)
    requires a <= b
    ensures Last(a, Last(b, s)) == Last(a, s)
  {
  }

  /** `history(limit)` shows the end of the unbounded history, between one and ten entries of it. */
  lemma HistoryIsSuffix(writes: seq<Entry>, limit: int)
    ensures Last(BoundedLimit(limit), Stored(writes)) == Last(BoundedLimit(limit), Recent(writes))
    ensures 1 <= BoundedLimit(limit) <= 10 && (1 <= limit <= 10 ==> BoundedLimit(limit) == limit)
    ensures (limit <= 0 ==> BoundedLimit(limit) == 1) && (limit > 10 ==> BoundedLimit(limit) == 10)
  {
    BoundedRefinesUnbounded(writes);
    LastOfLast(BoundedLimit(limit), MAX_HISTORY, Recent(writes));
  }

  // ---- writing fact by fact --------------------------------------------------------------------------

  /** Fact ids; the idempotency key is a hash of its three parts, taken as injective. */
  datatype Fact =
    | Idempotency(project: string, hash: string, transaction: string)
    | Latest(project: string)
    | History(project: string)
    | Input(project: string, hash: string)
    | Calculation(project: string, hash: string)
    | Output(project: string, hash: string)
    | Review(project: string, hash: string)
    | Detail(id: string)

  datatype Value =
    | Fingerprint(project: string, hash: string, transaction: string)
    | Calculations(entries: seq<Entry>)
    | Document(content: string)

  /** A calculation to write; `details` are the room, blocker and evidence facts. */
  datatype Write = Write(
    project: string,
    transaction: string,
    entry: Entry,
    latest: string,
    input: string,
    calculation: string,
    output: string,
    review: string,
    details: seq<(string, string)>)

  datatype Answer = Done(idempotent: bool) | KeyCollision | RecordMissing | Interrupted

  const HISTORY_PUT: nat := 3
  const CALCULATION_PUT: nat := 5

  type Facts = map<Fact, Value>

  function HistoryOf(facts: Facts, project: string): seq<Entry> {
    if History(project) in facts && facts[History(project)].Calculations? then facts[History(project)].entries else []
  }

  function Details(details: seq<(string, string)>): seq<(Fact, Value)> {
    seq(|details|, i requires 0 <= i < |details| => (Detail(details[i].0), Document(details[i].1)))
  }

  function KeyOf(w: Write): Fact {
    Idempotency(w.project, w.entry.inputHash, w.transaction)
  }

  /** `_facts_for_record`, in its order. */
  function FactsFor(facts: Facts, w: Write): seq<(Fact, Value)> {
    var p, h := w.project, w.entry.inputHash;
    [ (KeyOf(w), Fingerprint(p, h, w.transaction)),
      (Latest(p), Document(w.latest)),
      (History(p), Calculations(Merged(HistoryOf(facts, p), w.entry))),
      (Input(p, h), Document(w.input)),
      (Calculation(p, h), Document(w.calculation)),
      (Output(p, h), Document(w.output)),
      (Review(p, h), Document(w.review)) ] + Details(w.details)
  }

  function PutAll(facts: Facts, puts: seq<(Fact, Value)>): Facts {
    if puts == [] then facts
    else PutAll(facts, puts[..|puts| - 1])[puts[|puts| - 1].0 := puts[|puts| - 1].1]
  }

  /** `write_calculation` that gets through at most `budget` puts before the process dies or the memory gateway
      refuses one. */
  function Written(facts: Facts, w: Write, budget: nat): (Facts, Answer) {
    if KeyOf(w) in facts then
      (facts,
       if facts[KeyOf(w)] != Fingerprint(w.project, w.entry.inputHash, w.transaction) then KeyCollision
       else if Calculation(w.project, w.entry.inputHash) !in facts then RecordMissing
       else Done(true))
    else
      var puts := FactsFor(facts, w);
      if budget < |puts| then (PutAll(facts, puts[..budget]), Interrupted) else (PutAll(facts, puts), Done(false))
  }

  lemma {:induction false} PutAllKeeps(facts: Facts, puts: seq<(Fact, Value)>, f: Fact)
    requires forall i :: 0 <= i < |puts| ==> puts[i].0 != f
    ensures Lookup(PutAll(facts, puts), f) == Lookup(facts, f)
  {
    if puts != [] {
      PutAllKeeps(facts, puts[..|puts| - 1], f);
    }
  }

  lemma {:induction false} PutAllSets(facts: Facts, puts: seq<(Fact, Value)>, i: nat)
    requires i < |puts| && forall j :: i < j < |puts| ==> puts[j].0 != puts[i].0
    ensures Lookup(PutAll(facts, puts), puts[i].0) == Some(puts[i].1)
  {
    if i < |puts| - 1 {
      PutAllSets(facts, puts[..|puts| - 1], i);
    }
  }

  /** After `n` puts the facts of the first `n` are there and the others are as before. */
  lemma WrittenPart(facts: Facts, w: Write, n: nat, i: nat)
    requires i < 7 && n <= |FactsFor(facts, w)|
    ensures var puts := FactsFor(facts, w);
      Lookup(PutAll(facts, puts[..n]), puts[i].0) == if i < n then Some(puts[i].1) else Lookup(facts, puts[i].0)
  {
    var puts := FactsFor(facts, w);
    assert forall j :: 7 <= j < |puts| ==> puts[j].0.Detail?;
    if i < n {
      PutAllSets(facts, puts[..n], i);
    } else {
      PutAllKeeps(facts, puts[..n], puts[i].0);
    }
  }

  /** A call whose key is there changes nothing: it is refused if the key was made for another call, or if the calculation is
      missing, and otherwise answered as done before. */
  lemma RepeatAnswers(facts: Facts, w: Write, budget: nat)
    requires Idempotency(w.project, w.entry.inputHash, w.transaction) in facts
    ensures var (after, answer) := Written(facts, w, budget);
      var p, h := w.project, w.entry.inputHash;
      && after == facts
      && (answer == KeyCollision <==> facts[Idempotency(p, h, w.transaction)] != Fingerprint(p, h, w.transaction))
      && (answer == RecordMissing <==> facts[Idempotency(p, h, w.transaction)] == Fingerprint(p, h, w.transaction) && Calculation(p, h) !in facts)
      && (answer == Done(true) <==> facts[Idempotency(p, h, w.transaction)] == Fingerprint(p, h, w.transaction) && Calculation(p, h) in facts)
  {
  }

  /** What a first call leaves, fact by fact, if it gets through `budget` of its puts: in this order the key with its
      fingerprint, the latest record, the history with the new entry, the input, the calculation, the output and the review;
      a fact not reached is as before. */
  lemma WriteStores(facts: Facts, w: Write, budget: nat)
    requires KeyOf(w) !in facts
    ensures var (after, answer) := Written(facts, w, budget);
      var p, h := w.project, w.entry.inputHash;
      && (answer.Done? <==> budget >= 7 + |w.details|) && (answer.Done? ==> !answer.idempotent)
      && (!answer.Done? ==> answer == Interrupted)
      && (budget >= 1 ==> Lookup(after, Idempotency(p, h, w.transaction)) == Some(Fingerprint(p, h, w.transaction)))
      && Lookup(after, Latest(p)) == (if budget >= 2 then Some(Document(w.latest)) else Lookup(facts, Latest(p)))
      && HistoryOf(after, p) == (if budget >= 3 then Merged(HistoryOf(facts, p), w.entry) else HistoryOf(facts, p))
      && Lookup(after, Input(p, h)) == (if budget >= 4 then Some(Document(w.input)) else Lookup(facts, Input(p, h)))
      && Lookup(after, Calculation(p, h)) == (if budget >= 5 then Some(Document(w.calculation)) else Lookup(facts, Calculation(p, h)))
      && Lookup(after, Output(p, h)) == (if budget >= 6 then Some(Document(w.output)) else Lookup(facts, Output(p, h)))
      && Lookup(after, Review(p, h)) == (if budget >= 7 then Some(Document(w.review)) else Lookup(facts, Review(p, h)))
  {
    var puts := FactsFor(facts, w);
    var n := if budget < |puts| then budget else |puts|;
    WrittenIsPut(facts, w, budget, n);
    WrittenPart(facts, w, n, 0);
    WrittenPart(facts, w, n, 1);
    WrittenPart(facts, w, n, 2);
    WrittenPart(facts, w, n, 3);
    WrittenPart(facts, w, n, 4);
    WrittenPart(facts, w, n, 5);
    WrittenPart(facts, w, n, 6);
  }

  lemma DetailPut(facts: Facts, w: Write, j: nat)
    requires j < |w.details|
    ensures |FactsFor(facts, w)| == 7 + |w.details|
    ensures FactsFor(facts, w)[7 + j] == (Detail(w.details[j].0), Document(w.details[j].1))
  {
  }

  /** A room, blocker or evidence fact holds what the last put under its id that was reached gave it. */
  lemma WriteStoresDetails(facts: Facts, w: Write, budget: nat, i: nat)
    requires KeyOf(w) !in facts && i < |w.details| && budget > 7 + i
    requires forall j :: i < j < |w.details| && 7 + j < budget ==> w.details[j].0 != w.details[i].0
    ensures Lookup(Written(facts, w, budget).0, Detail(w.details[i].0)) == Some(Document(w.details[i].1))
  {
    var puts := FactsFor(facts, w);
    DetailPut(facts, w, i);
    var n := if budget < |puts| then budget else |puts|;
    WrittenIsPut(facts, w, budget, n);
    forall m | 7 + i < m < n
      ensures puts[m].0 != puts[7 + i].0
    {
      DetailPut(facts, w, m - 7);
      assert w.details[m - 7].0 != w.details[i].0;
    }
    PutAllSets(facts, puts[..n], 7 + i);
  }

  lemma WrittenIsPut(facts: Facts, w: Write, budget: nat, n: nat)
    requires KeyOf(w) !in facts && n == if budget < |FactsFor(facts, w)| then budget else |FactsFor(facts, w)|
    ensures Written(facts, w, budget).0 == PutAll(facts, FactsFor(facts, w)[..n])
  {
    var puts := FactsFor(facts, w);
    assert puts[..|puts|] == puts;
  }

  /** A call that died after `n` of its puts, tried again: it starts over if nothing was put; otherwise it changes
      nothing, and is answered as done once the calculation is there, from this call or from an earlier one on the
      same input, although the facts after the `n`th have not been put. */
  lemma RetryAfterCrash(facts: Facts, w: Write, n: nat, budget: nat)
    requires KeyOf(w) !in facts && n < |FactsFor(facts, w)|
    ensures Written(facts, w, n).1 == Interrupted
    ensures var half := Written(facts, w, n).0;
      Written(half, w, budget) ==
      if n == 0 then Written(facts, w, budget)
      else (half, if n >= CALCULATION_PUT || Calculation(w.project, w.entry.inputHash) in facts then Done(true) else RecordMissing)
  {
    WrittenPart(facts, w, n, 0);
    WrittenPart(facts, w, n, 4);
    if n == 0 {
      assert FactsFor(facts, w)[..0] == [];
    }
  }

  ghost predicate EveryFactStored(facts: Facts, puts: seq<(Fact, Value)>) {
    forall i :: 0 <= i < |puts| ==> Lookup(facts, puts[i].0) == Some(puts[i].1)
  }

  /** No fact is put twice with different values. */
  ghost predicate Consistent(puts: seq<(Fact, Value)>) {
    forall i, j :: 0 <= i < j < |puts| && puts[i].0 == puts[j].0 ==> puts[i].1 == puts[j].1
  }

  /** The facts from the `n`th put on are among those before it, or in the store already. */
  ghost predicate RestThere(facts: Facts, puts: seq<(Fact, Value)>, n: nat)
    requires n <= |puts|
  {
    forall i :: n <= i < |puts| ==> PutBefore(puts, n, puts[i].0) || Lookup(facts, puts[i].0) == Some(puts[i].1)
  }

  ghost predicate PutBefore(puts: seq<(Fact, Value)>, n: nat, f: Fact)
    requires n <= |puts|
  {
    exists j :: 0 <= j < n && puts[j].0 == f
  }

  lemma {:induction false} ConsistentPut(facts: Facts, puts: seq<(Fact, Value)>, n: nat, j: nat)
    requires j < n <= |puts| && Consistent(puts)
    ensures Lookup(PutAll(facts, puts[..n]), puts[j].0) == Some(puts[j].1)
    decreases n
  {
    assert puts[..n][..n - 1] == puts[..n - 1];
    if j < n - 1 {
      ConsistentPut(facts, puts, n - 1, j);
    }
  }

  /** After the first `n` puts every fact of the list is stored exactly when the list is consistent and the rest of
      it is there. */
  lemma StoredExactly(facts: Facts, puts: seq<(Fact, Value)>, n: nat)
    requires n <= |puts|
    ensures EveryFactStored(PutAll(facts, puts[..n]), puts) <==> Consistent(puts) && RestThere(facts, puts, n)
  {
    var after := PutAll(facts, puts[..n]);
    forall i | n <= i < |puts| && !PutBefore(puts, n, puts[i].0)
      ensures Lookup(after, puts[i].0) == Lookup(facts, puts[i].0)
    {
      PutAllKeeps(facts, puts[..n], puts[i].0);
    }
    if Consistent(puts) {
      forall j: nat | j < n
        ensures Lookup(after, puts[j].0) == Some(puts[j].1)
      {
        ConsistentPut(facts, puts, n, j);
      }
    }
  }

  lemma StoredInOneGo(facts: Facts, puts: seq<(Fact, Value)>)
    ensures EveryFactStored(PutAll(facts, puts), puts) <==> Consistent(puts)
  {
    assert puts[..|puts|] == puts;
    StoredExactly(facts, puts, |puts|);
  }

  lemma CalculationThere(facts: Facts, w: Write, n: nat)
    requires n < CALCULATION_PUT && RestThere(facts, FactsFor(facts, w), n)
    ensures Calculation(w.project, w.entry.inputHash) in facts
  {
    var puts := FactsFor(facts, w);
    assert puts[4].0 == Calculation(w.project, w.entry.inputHash) && !PutBefore(puts, n, puts[4].0);
  }

  /** So a retry that is answered as done leaves every fact of the call stored, down to the rooms, blockers and
      evidence, exactly when no fact is put with two values and the first try died before its first put or the
      facts it had not reached are in the store from before. */
  lemma DoneMeansStored(facts: Facts, w: Write, n: nat, budget: nat)
    requires KeyOf(w) !in facts && n < |FactsFor(facts, w)|
    ensures var (after, answer) := Written(Written(facts, w, n).0, w, budget);
      var puts := FactsFor(facts, w);
      answer.Done? && EveryFactStored(after, puts) <==>
      Consistent(puts) && if n == 0 then budget >= |puts| else RestThere(facts, puts, n)
  {
    RetryAfterCrash(facts, w, n, budget);
    if n == 0 {
      StoredInOneGo(facts, FactsFor(facts, w));
    } else {
      if n < CALCULATION_PUT && RestThere(facts, FactsFor(facts, w), n) { CalculationThere(facts, w, n); }
      StoredExactly(facts, FactsFor(facts, w), n);
    }
  }

  /** On an input calculated before, a retry of a call that died after its first put is answered as done although
      the calculation that it was to replace is still in the store. */
  lemma StaleButDone(facts: Facts, w: Write, n: nat, budget: nat)
    requires KeyOf(w) !in facts && 1 <= n < CALCULATION_PUT
    requires Lookup(facts, Calculation(w.project, w.entry.inputHash)) != None
    requires Lookup(facts, Calculation(w.project, w.entry.inputHash)) != Some(Document(w.calculation))
    ensures var (after, answer) := Written(Written(facts, w, n).0, w, budget);
      answer == Done(true) && Lookup(after, Calculation(w.project, w.entry.inputHash)) != Some(Document(w.calculation))
  {
    RetryAfterCrash(facts, w, n, budget);
    WrittenPart(facts, w, n, 4);
  }

  // ---- histories of writes ---------------------------------------------------------------------------

  /** One call of `write_calculation` and how far it can get. */
  datatype Attempt = Attempt(write: Write, budget: nat)

  function AfterAttempts(attempts: seq<Attempt>): Facts {
    if attempts == [] then map[]
    else
      var a := attempts[|attempts| - 1];
      Written(AfterAttempts(attempts[..|attempts| - 1]), a.write, a.budget).0
  }

  /** An earlier call of the same transaction got as far as its key. */
  predicate Begun(attempts: seq<Attempt>, f: Fact) {
    exists i :: 0 <= i < |attempts| && attempts[i].budget >= 1 && KeyOf(attempts[i].write) == f
  }

  /** The entries of the project's calls that were no repeats and got as far as the history index. */
  function EntriesOf(attempts: seq<Attempt>, project: string): seq<Entry> {
    if attempts == [] then []
    else
      var init, a := attempts[..|attempts| - 1], attempts[|attempts| - 1];
      var entries := EntriesOf(init, project);
      if a.write.project == project && !Begun(init, KeyOf(a.write)) && a.budget >= HISTORY_PUT then entries + [a.write.entry]
      else entries
  }

  predicate Main(w: Write, f: Fact) {
    var p, h := w.project, w.entry.inputHash;
    f == KeyOf(w) || f == Latest(p) || f == History(p) || f == Input(p, h) || f == Calculation(p, h)
    || f == Output(p, h) || f == Review(p, h)
  }

  /** How many puts a first call gets through. */
  function Reached(facts: Facts, w: Write, budget: nat): nat {
    if budget < |FactsFor(facts, w)| then budget else |FactsFor(facts, w)|
  }

  lemma FirstCall(facts: Facts, w: Write, budget: nat)
    requires KeyOf(w) !in facts
    ensures Written(facts, w, budget).0 == PutAll(facts, FactsFor(facts, w)[..Reached(facts, w, budget)])
  {
    assert FactsFor(facts, w)[..|FactsFor(facts, w)|] == FactsFor(facts, w);
  }

  lemma PutOther(facts: Facts, w: Write, n: nat, f: Fact)
    requires !f.Detail? && !Main(w, f) && n <= |FactsFor(facts, w)|
    ensures Lookup(PutAll(facts, FactsFor(facts, w)[..n]), f) == Lookup(facts, f)
  {
    var puts := FactsFor(facts, w);
    assert forall j :: 7 <= j < |puts| ==> puts[j].0.Detail?;
    PutAllKeeps(facts, puts[..n], f);
  }

  lemma BegunNext(attempts: seq<Attempt>, a: Attempt, f: Fact)
    ensures Begun(attempts + [a], f) <==> Begun(attempts, f) || (a.budget >= 1 && KeyOf(a.write) == f)
  {
    if Begun(attempts, f) {
      var i :| 0 <= i < |attempts| && attempts[i].budget >= 1 && KeyOf(attempts[i].write) == f;
      assert (attempts + [a])[i] == attempts[i];
    }
    if a.budget >= 1 && KeyOf(a.write) == f {
      assert (attempts + [a])[|attempts|] == a;
    }
  }

  /** The store has the keys of the calls that began, each with its fingerprint. */
  ghost predicate KeysOk(facts: Facts, attempts: seq<Attempt>) {
    forall f: Fact :: f.Idempotency? ==>
      && (f in facts <==> Begun(attempts, f))
      && (f in facts ==> facts[f] == Fingerprint(f.project, f.hash, f.transaction))
  }

  lemma KeysStep(facts: Facts, attempts: seq<Attempt>, a: Attempt, f: Fact)
    requires KeysOk(facts, attempts) && KeyOf(a.write) !in facts && f.Idempotency?
    ensures var after := Written(facts, a.write, a.budget).0;
      && (f in after <==> Begun(attempts + [a], f))
      && (f in after ==> after[f] == Fingerprint(f.project, f.hash, f.transaction))
  {
    var n := Reached(facts, a.write, a.budget);
    FirstCall(facts, a.write, a.budget);
    BegunNext(attempts, a, f);
    if f == KeyOf(a.write) {
      WrittenPart(facts, a.write, n, 0);
    } else {
      PutOther(facts, a.write, n, f);
    }
  }

  lemma HistoryStep(facts: Facts, a: Attempt, project: string)
    requires KeyOf(a.write) !in facts
    ensures HistoryOf(Written(facts, a.write, a.budget).0, project) ==
            if project == a.write.project && a.budget >= HISTORY_PUT then Merged(HistoryOf(facts, project), a.write.entry)
            else HistoryOf(facts, project)
  {
    var n := Reached(facts, a.write, a.budget);
    FirstCall(facts, a.write, a.budget);
    if project == a.write.project {
      WrittenPart(facts, a.write, n, 2);
    } else {
      PutOther(facts, a.write, n, History(project));
    }
  }

  lemma RepeatStep(facts: Facts, attempts: seq<Attempt>, a: Attempt)
    requires KeysOk(facts, attempts) && KeyOf(a.write) in facts
    ensures KeysOk(facts, attempts + [a])
  {
    forall f: Fact | f.Idempotency?
      ensures Begun(attempts + [a], f) <==> Begun(attempts, f)
    {
      BegunNext(attempts, a, f);
    }
  }

  lemma StoredNext(entries: seq<Entry>, e: Entry)
    ensures Stored(entries + [e]) == Merged(Stored(entries), e)
  {
    assert (entries + [e])[..|entries|] == entries;
  }

  lemma {:induction false} KeysKeep(attempts: seq<Attempt>)
    ensures KeysOk(AfterAttempts(attempts), attempts)
  {
    if attempts != [] {
      var init, a := attempts[..|attempts| - 1], attempts[|attempts| - 1];
      var facts := AfterAttempts(init);
      KeysKeep(init);
      assert attempts == init + [a];
      if KeyOf(a.write) in facts {
        RepeatStep(facts, init, a);
      } else {
        forall f: Fact | f.Idempotency?
          ensures var after := AfterAttempts(attempts);
            && (f in after <==> Begun(attempts, f))
            && (f in after ==> after[f] == Fingerprint(f.project, f.hash, f.transaction))
        {
          KeysStep(facts, init, a, f);
        }
      }
    }
  }

  lemma {:induction false} HistoryKeeps(attempts: seq<Attempt>, project: string)
    ensures HistoryOf(AfterAttempts(attempts), project) == Stored(EntriesOf(attempts, project))
  {
    if attempts != [] {
      var init, a := attempts[..|attempts| - 1], attempts[|attempts| - 1];
      HistoryKeeps(init, project);
      KeysKeep(init);
      if KeyOf(a.write) !in AfterAttempts(init) {
        HistoryStep(AfterAttempts(init), a, project);
        StoredNext(EntriesOf(init, project), a.write.entry);
      }
    }
  }

  /** After any sequence of calls, for any projects, with any repeats and interrupted anywhere, a project's stored
      history is the last fifty distinct input hashes, by most recent write, of its calls that were no repeats and
      got as far as the index. */
  lemma HistoryOfWrites(attempts: seq<Attempt>, project: string)
    ensures HistoryOf(AfterAttempts(attempts), project) == Last(MAX_HISTORY, Recent(EntriesOf(attempts, project)))
  {
    HistoryKeeps(attempts, project);
    BoundedRefinesUnbounded(EntriesOf(attempts, project));
  }

  /** A repeat of a call that began changes nothing, and is answered by whether the calculation is there. */
  lemma RepeatChangesNothing(attempts: seq<Attempt>, w: Write, budget: nat)
    requires Begun(attempts, KeyOf(w))
    ensures var facts := AfterAttempts(attempts);
      Written(facts, w, budget) == (facts, if Calculation(w.project, w.entry.inputHash) in facts then Done(true) else RecordMissing)
  {
    KeysKeep(attempts);
  }

  // ---- the bridge ------------------------------------------------------------------------------------

  class AufmassMemoryBridge {
    var facts: Facts

    constructor ()
      ensures facts == map[]
    {
      facts := map[];
    }

    /** Puts the facts one after the other; the process may die after `budget` of them. */
    method WriteCalculation(w: Write, budget: nat) returns (answer: Answer)
      modifies this
      ensures (facts, answer) == Written(old(facts), w, budget)
    {
      if KeyOf(w) in facts {
        if facts[KeyOf(w)] != Fingerprint(w.project, w.entry.inputHash, w.transaction) {
          return KeyCollision;
        }
        return if Calculation(w.project, w.entry.inputHash) in facts then Done(true) else RecordMissing;
      }
      var puts := FactsFor(facts, w);
      assert puts[..0] == [];
      for i := 0 to |puts|
        invariant i <= budget && facts == PutAll(old(facts), puts[..i])
      {
        if i == budget {
          return Interrupted;
        }
        facts := facts[puts[i].0 := puts[i].1];
        assert puts[..i + 1][..i] == puts[..i];
      }
      assert puts[..|puts|] == puts;
      answer := Done(false);
    }

    method History(project: string, limit: int) returns (count: nat, shown: seq<Entry>)
      ensures count == |HistoryOf(facts, project)| && shown == Last(BoundedLimit(limit), HistoryOf(facts, project))
    {
      var entries := HistoryOf(facts, project);
      count, shown := |entries|, Last(BoundedLimit(limit), entries);
    }

    /** The most recent calculation of another input that has a record; index lines whose record is missing are
        passed over. */
    method LatestCalculation(project: string, exclude: string) returns (found: Option<string>)
      ensures found.None? ==> forall e :: e in HistoryOf(facts, project) ==> !Comparable(project, exclude, e)
      ensures found.Some? ==>
        exists i :: 0 <= i < |HistoryOf(facts, project)|
          && HistoryOf(facts, project)[i].inputHash == found.value && Comparable(project, exclude, HistoryOf(facts, project)[i])
          && forall j :: i < j < |HistoryOf(facts, project)| ==> !Comparable(project, exclude, HistoryOf(facts, project)[j])
    {
      var entries := HistoryOf(facts, project);
      var i := |entries|;
      while i > 0
        invariant 0 <= i <= |entries|
        invariant forall j :: i <= j < |entries| ==> !Comparable(project, exclude, entries[j])
      {
        i := i - 1;
        if Comparable(project, exclude, entries[i]) {
          return Some(entries[i].inputHash);
        }
      }
      found := None;
    }

    predicate Comparable(project: string, exclude: string, e: Entry)
      reads this
    {
      e.inputHash != "" && e.inputHash != exclude && Calculation(project, e.inputHash) in facts
    }
  }
}
