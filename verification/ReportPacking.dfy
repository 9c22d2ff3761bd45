/** How a package report is cut into messages: sections are appended to the current message while it stays
    within the length limit. */
module ReportPacking {

  const MAX_MESSAGE: nat := 4096

  const SEPARATOR: string := "\n\n"

  /** A rendered section always has its title line. */
  type Section = s: string | s != "" witness "#"

  function Join(blocks: seq<string>): string {
    if blocks == [] then ""
    else if |blocks| == 1 then blocks[0]
    else Join(blocks[..|blocks| - 1]) + SEPARATOR + blocks[|blocks| - 1]
  }

  predicate Fits(message: string) {
    |message| <= MAX_MESSAGE
  }

  /** What the loop still produces with `current` in hand. */
  function Pack(current: string, sections: seq<string>): seq<string>
    decreases |sections|
  {
    if sections == [] then [current]
    else if Fits(current + SEPARATOR + sections[0]) then Pack(current + SEPARATOR + sections[0], sections[1..])
    else [current] + Pack(sections[0], sections[1..])
  }

  method RenderPackageReport(header: Section, sections: seq<Section>) returns (parts: seq<string>)
    ensures parts == Pack(header, sections)
  {
    parts := [];
    var current := header;
    for i := 0 to |sections|
      invariant current != ""
      invariant parts + Pack(current, sections[i..]) == Pack(header, sections)
    {
      var candidate := current + SEPARATOR + sections[i];
      if Fits(candidate) {
        current := candidate;
      } else {
        assert parts + ([current] + Pack(sections[i], sections[i + 1..])) == (parts + [current]) + Pack(sections[i], sections[i + 1..]);
        parts := parts + [current];
        current := sections[i];
      }
    }
    if current != "" {
      parts := parts + [current];
    }
  }

  // ---- groups of blocks ------------------------------------------------------------------------------

  function Flatten(groups: seq<seq<string>>): seq<string> {
    if groups == [] then [] else groups[0] + Flatten(groups[1..])
  }

  function JoinAll(groups: seq<seq<string>>): seq<string> {
    seq(|groups|, i requires 0 <= i < |groups| => Join(groups[i]))
  }

  /** A group that is one message: it fits, or it is a single block that cannot be cut. */
  predicate Sendable(group: seq<string>) {
    |group| == 1 || (|group| > 1 && Fits(Join(group)))
  }

  /** A division of the blocks, in order, into messages. */
  ghost predicate Division(groups: seq<seq<string>>, blocks: seq<string>) {
    Flatten(groups) == blocks && forall i :: 0 <= i < |groups| ==> Sendable(groups[i])
  }

  function Groups(current: seq<string>, sections: seq<string>): seq<seq<string>>
    decreases |sections|
  {
    if sections == [] then [current]
    else if Fits(Join(current + [sections[0]])) then Groups(current + [sections[0]], sections[1..])
    else [current] + Groups([sections[0]], sections[1..])
  }

  lemma JoinNext(group: seq<string>, block: string)
    requires group != []
    ensures Join(group + [block]) == Join(group) + SEPARATOR + block
  {
    assert (group + [block])[..|group|] == group;
  }

  /** The messages are the joined groups. */
  lemma {:induction false} PackIsGroups(current: seq<string>, sections: seq<string>)
    requires current != []
    ensures Pack(Join(current), sections) == JoinAll(Groups(current, sections))
    decreases |sections|
  {
    if sections != [] {
      JoinNext(current, sections[0]);
      if Fits(Join(current + [sections[0]])) {
        PackIsGroups(current + [sections[0]], sections[1..]);
      } else {
        PackIsGroups([sections[0]], sections[1..]);
        var rest := Groups([sections[0]], sections[1..]);
        assert JoinAll([current] + rest) == [Join(current)] + JoinAll(rest);
      }
    }
  }

  lemma {:induction false} GroupsDivide(current: seq<string>, sections: seq<string>)
    requires Sendable(current)
    ensures Division(Groups(current, sections), current + sections)
    decreases |sections|
  {
    if sections == [] {
      assert Flatten([current]) == current + [];
    } else {
      var next := current + [sections[0]];
      assert sections == [sections[0]] + sections[1..];
      if Fits(Join(next)) {
        GroupsDivide(next, sections[1..]);
        assert next + sections[1..] == current + sections;
      } else {
        GroupsDivide([sections[0]], sections[1..]);
        var rest := Groups([sections[0]], sections[1..]);
        assert ([current] + rest)[1..] == rest;
      }
    }
  }

  // ---- joining back ----------------------------------------------------------------------------------

  lemma {:induction false} JoinAppend(a: seq<string>, b: seq<string>)
    requires a != [] && b != []
    ensures Join(a + b) == Join(a) + SEPARATOR + Join(b)
  {
    var n := |b| - 1;
    assert (a + b)[..|a + b| - 1] == a + b[..n];
    if n == 0 {
      assert a + b[..0] == a;
    } else {
      JoinAppend(a, b[..n]);
      assert Join(a + b) == Join(a) + SEPARATOR + Join(b[..n]) + SEPARATOR + b[n];
    }
  }

  lemma {:induction false} JoinJoins(groups: seq<seq<string>>)
    requires forall i :: 0 <= i < |groups| ==> groups[i] != []
    ensures Join(JoinAll(groups)) == Join(Flatten(groups))
  {
    if |groups| == 1 {
      assert Flatten(groups[1..]) == [] && groups[0] + [] == groups[0];
      assert JoinAll(groups) == [Join(groups[0])];
    } else if groups != [] {
      JoinJoins(groups[1..]);
      assert JoinAll(groups) == [Join(groups[0])] + JoinAll(groups[1..]);
      JoinAppend([Join(groups[0])], JoinAll(groups[1..]));
      assert groups[1..][0] != [];
      JoinAppend(groups[0], Flatten(groups[1..]));
    }
  }

  /** Joined by the separator, the messages give back the header and every section in order; each message fits or
      is one single block. */
  lemma NothingLost(header: string, sections: seq<string>)
    ensures Join(Pack(header, sections)) == Join([header] + sections)
    ensures forall i :: 0 <= i < |Pack(header, sections)| ==>
              |Pack(header, sections)[i]| <= 4096 || Pack(header, sections)[i] in [header] + sections
  {
    var groups := Groups([header], sections);
    PackIsGroups([header], sections);
    GroupsDivide([header], sections);
    JoinJoins(groups);
    forall i | 0 <= i < |groups|
      ensures Fits(Join(groups[i])) || Join(groups[i]) in [header] + sections
    {
      if |groups[i]| == 1 {
        InFlatten(groups, i, groups[i][0]);
      }
    }
  }

  lemma {:induction false} InFlatten(groups: seq<seq<string>>, i: nat, block: string)
    requires i < |groups| && block in groups[i]
    ensures block in Flatten(groups)
  {
    if i > 0 {
      InFlatten(groups[1..], i - 1, block);
    }
  }

  // ---- fewest messages -------------------------------------------------------------------------------

  function Width(group: seq<string>): nat {
    if group == [] then 0 else |group[0]| + |SEPARATOR| + Width(group[1..])
  }

  lemma {:induction false} WidthAppend(a: seq<string>, b: seq<string>)
    ensures Width(a + b) == Width(a) + Width(b)
  {
    if a == [] {
      assert a + b == b;
    } else {
      WidthAppend(a[1..], b);
      assert (a + b)[1..] == a[1..] + b;
    }
  }

  lemma {:induction false} JoinWidth(group: seq<string>)
    requires group != []
    ensures |Join(group)| + |SEPARATOR| == Width(group)
  {
    var n := |group| - 1;
    WidthAppend(group[..n], [group[n]]);
    assert group == group[..n] + [group[n]];
    if n > 0 {
      JoinWidth(group[..n]);
    }
  }

  /** A part of a fitting group fits. */
  lemma SubgroupFits(a: seq<string>, b: seq<string>, c: seq<string>)
    requires b != [] && Fits(Join(a + b + c))
    ensures Fits(Join(b))
  {
    JoinWidth(a + b + c);
    JoinWidth(b);
    WidthAppend(a + b, c);
    WidthAppend(a, b);
  }

  /** Greedy stays ahead: whatever the other division still has to send, greedy has no more. `behind` are the
      blocks the other division has yet to send although greedy is past them. */
  lemma {:induction false} StaysAhead(behind: seq<string>, current: seq<string>, sections: seq<string>, other: seq<seq<string>>)
    requires current != [] && Division(other, behind + current + sections)
    ensures |Groups(current, sections)| <= |other|
    decreases |sections|, |other|
  {
    assert other != [];
    var h, rest := other[0], other[1..];
    var blocks := behind + current + sections;
    assert h == blocks[..|h|] && Flatten(rest) == blocks[|h|..];
    assert forall i :: 0 <= i < |rest| ==> rest[i] == other[i + 1];
    if sections == [] {
    } else if |h| <= |behind| {
      assert blocks[|h|..] == behind[|h|..] + current + sections;
      StaysAhead(behind[|h|..], current, sections, rest);
    } else if Fits(Join(current + [sections[0]])) {
      assert behind + (current + [sections[0]]) + sections[1..] == blocks;
      StaysAhead(behind, current + [sections[0]], sections[1..], other);
    } else {
      if |h| > |behind| + |current| {
        assert h == behind + (current + [sections[0]]) + h[|behind| + |current| + 1..];
        SubgroupFits(behind, current + [sections[0]], h[|behind| + |current| + 1..]);
        assert false;
      } else {
        var left := (behind + current)[|h|..];
        assert blocks[|h|..] == left + [sections[0]] + sections[1..];
        StaysAhead(left, [sections[0]], sections[1..], rest);
      }
    }
  }

  /** The text of a message: its blocks with an empty line between any two. */
  lemma {:induction false} JoinText(blocks: seq<string>)
    requires |blocks| >= 2
    ensures Join(blocks) == Join(blocks[..|blocks| - 1]) + "\n\n" + blocks[|blocks| - 1]
    ensures Join([blocks[0]]) == blocks[0]
  {
  }

  /** No in-order division of the header and sections into messages that fit, or single blocks, uses fewer
      messages. */
  lemma FewestMessages(header: string, sections: seq<string>, other: seq<seq<string>>)
    requires Flatten(other) == [header] + sections
    requires forall i :: 0 <= i < |other| ==> |other[i]| == 1 || (|other[i]| > 1 && |Join(other[i])| <= 4096)
    ensures |Pack(header, sections)| <= |other|
  {
    PackIsGroups([header], sections);
    assert [] + [header] + sections == [header] + sections;
    StaysAhead([], [header], sections, other);
  }

  lemma PartsFit(groups: seq<seq<string>>, blocks: seq<string>)
    requires Division(groups, blocks) && forall b :: b in blocks ==> Fits(b)
    ensures forall i :: 0 <= i < |groups| ==> Fits(Join(groups[i]))
  {
    forall i | 0 <= i < |groups|
      ensures Fits(Join(groups[i]))
    {
      if |groups[i]| == 1 {
        InFlatten(groups, i, groups[i][0]);
      }
    }
  }

  /** The messages are such a division themselves, and all of them fit exactly when every block does. */
  lemma AllFitExactly(header: string, sections: seq<string>)
    ensures Pack(header, sections) == JoinAll(Groups([header], sections))
    ensures Division(Groups([header], sections), [header] + sections)
    ensures (forall i :: 0 <= i < |Pack(header, sections)| ==> |Pack(header, sections)[i]| <= 4096) <==>
            (forall b :: b in [header] + sections ==> |b| <= 4096)
  {
    var groups, parts := Groups([header], sections), Pack(header, sections);
    PackIsGroups([header], sections);
    GroupsDivide([header], sections);
    assert |parts| == |groups| && forall i :: 0 <= i < |groups| ==> parts[i] == Join(groups[i]);
    if forall b :: b in [header] + sections ==> Fits(b) {
      PartsFit(groups, [header] + sections);
    }
    if forall i :: 0 <= i < |parts| ==> Fits(parts[i]) {
      forall b | b in [header] + sections
        ensures Fits(b)
      {
        assert forall i :: 0 <= i < |groups| ==> Fits(parts[i]) && Fits(Join(groups[i]));
        BlockFits(groups, b);
      }
    }
  }

  lemma {:induction false} BlockFits(groups: seq<seq<string>>, b: string)
    requires forall i :: 0 <= i < |groups| ==> Fits(Join(groups[i]))
    requires b in Flatten(groups)
    ensures Fits(b)
  {
    var g := groups[0];
    if b in g {
      var j :| 0 <= j < |g| && g[j] == b;
      assert g == g[..j] + [b] + g[j + 1..];
      SubgroupFits(g[..j], [b], g[j + 1..]);
    } else {
      forall i | 0 <= i < |groups[1..]|
        ensures Fits(Join(groups[1..][i]))
      {
        assert groups[1..][i] == groups[i + 1];
      }
      BlockFits(groups[1..], b);
    }
  }
}
