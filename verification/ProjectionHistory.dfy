/** What the index shows in terms of the writes alone: the states in between are gone from these statements. */
module ProjectionHistory {
  import opened Common
  import opened CanonicalRef
  import opened ProjectionOutbox
  import opened ProjectionInvariant
  import opened ProjectionTheorems

  predicate Writes(a: Action) {
    a.Mutate? || a.MutateElsewhere?
  }

  /** How many writes there were, which is the revision of the last one. */
  function WritesIn(actions: seq<Action>): nat {
    if actions == [] then 0
    else WritesIn(actions[..|actions| - 1]) + if Writes(actions[|actions| - 1]) then 1 else 0
  }

  /** A write of a fact: its value, or none for a deletion, and its revision. */
  datatype LastWrite = Never | Deleted | Wrote(text: string, revision: nat)

  /** The last write of the fact, through whichever dataset. */
  function LastOf(actions: seq<Action>, k: Key): LastWrite {
    if actions == [] then Never
    else
      var init, a := actions[..|actions| - 1], actions[|actions| - 1];
      if !Writes(a) || a.key != k then LastOf(init, k)
      else if a.value.None? then Deleted
      else Wrote(a.value.value, WritesIn(init) + 1)
  }

  /** The write is one of this fact, or of a fact whose name reads as this one. */
  predicate Concerns(a: Action, k: Key) {
    Writes(a) && (a.key == k || (a.Mutate? && !ColonFree(a.key) && Cut(Render(a.key)) == k))
  }

  function LastConcern(actions: seq<Action>, k: Key): Option<Action> {
    if actions == [] then None
    else if Concerns(actions[|actions| - 1], k) then Some(actions[|actions| - 1])
    else LastConcern(actions[..|actions| - 1], k)
  }

  /** This dataset wrote the fact last, and no fact of the same name since. */
  predicate Own(actions: seq<Action>, k: Key) {
    ColonFree(k) && (LastConcern(actions, k).Some? ==> LastConcern(actions, k).value.Mutate? && LastConcern(actions, k).value.key == k)
  }

  function FactFrom(last: LastWrite): Option<Fact> {
    match last
    case Wrote(text, revision) => Some(Fact(revision, text))
    case _ => None
  }

  ghost predicate HistoryOk(w: World, actions: seq<Action>, k: Key) {
    && w.revision == WritesIn(actions)
    && Lookup(w.facts, k) == FactFrom(LastOf(actions, k))
    && (ColonFree(k) ==> (k !in w.foreign <==> Own(actions, k)))
  }

  lemma HistoryStep(w: World, actions: seq<Action>, a: Action, v: World, k: Key)
    requires HistoryOk(w, actions, k) && Next(w, a, v)
    ensures HistoryOk(v, actions + [a], k)
  {
    assert (actions + [a])[..|actions|] == actions;
    StepFrame(w, a, v);
    if a.Mutate? {
      assert Overwritten(a.key) == if ColonFree(a.key) then {} else {Cut(Render(a.key))};
    }
  }

  lemma {:induction false} HistoryKept(trail: seq<World>, actions: seq<Action>, i: nat, k: Key)
    requires Run(trail, actions) && trail[0] == START && i < |trail|
    ensures HistoryOk(trail[i], actions[..i], k)
  {
    if i > 0 {
      HistoryKept(trail, actions, i - 1, k);
      HistoryStep(trail[i - 1], actions[..i - 1], actions[i - 1], trail[i], k);
      assert actions[..i - 1] + [actions[i - 1]] == actions[..i];
    }
  }

  /** In any run the store holds of a fact what was written of it last, and no more. */
  lemma FactsAreLastWrites(trail: seq<World>, actions: seq<Action>, i: nat, k: Key)
    requires Run(trail, actions) && trail[0] == START && i < |trail|
    ensures match LastOf(actions[..i], k)
            case Wrote(text, revision) => k in trail[i].facts && trail[i].facts[k] == Fact(revision, text)
            case _ => k !in trail[i].facts
  {
    HistoryKept(trail, actions, i, k);
  }

  /** Whatever was written, drained, failed and crashed in between: whenever nothing is pending, the index has an entry for
      a fact that this dataset wrote last exactly if that write was no deletion, and then the entry has the revision of
      that write and its text, cut to the 4096 characters an event may carry. */
  lemma QuietShowsLastWrite(trail: seq<World>, actions: seq<Action>, i: nat, k: Key)
    requires SafeRun(trail, actions) && i < |trail| && Quiet(trail[i])
    requires SafeKey(k) && Own(actions[..i], k)
    ensures var index := trail[i].index;
      match LastOf(actions[..i], k)
      case Wrote(text, revision) =>
        && Render(k) in index && index[Render(k)].ref == Render(k) && index[Render(k)].revision == revision
        && index[Render(k)].text == if |text| <= 4096 then text else text[..4096]
      case _ => Render(k) !in index
  {
    HistoryKept(trail, actions, i, k);
    QuietMeansSettled(trail, actions, i, k);
  }
}
