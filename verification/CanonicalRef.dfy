/** How a canonical fact is named in the outbox: `namespace:fact_id`, and how the drain reads the
    name back (`_canonical_ref_parts` cuts at the first colon). */
module CanonicalRef {
  import opened Common

  /** The primary key of a canonical fact. */
  datatype Key = Key(namespace: string, factId: string)

  const MAX_TOKEN_CHARS: nat := 128

  /** Characters `safe_token` lets through; the colon is one of them. */
  predicate SafeChar(c: char) {
    'a' <= c <= 'z' || 'A' <= c <= 'Z' || '0' <= c <= '9' || c == '_' || c == '.' || c == ':' || c == '-'
  }

  predicate SafeToken(s: string) {
    0 < |s| <= MAX_TOKEN_CHARS && forall c :: c in s ==> SafeChar(c)
  }

  predicate SafeKey(k: Key) {
    SafeToken(k.namespace) && SafeToken(k.factId)
  }

  function Render(k: Key): string {
    k.namespace + ":" + k.factId
  }

  predicate HasDoubleDot(s: string) {
    exists i :: 0 <= i < |s| - 1 && s[i] == '.' && s[i + 1] == '.'
  }

  function IndexOf(s: string, c: char): (i: nat)
    ensures i <= |s|
    ensures forall j :: 0 <= j < i ==> s[j] != c
    ensures i < |s| ==> s[i] == c
  {
    if s == "" then 0 else if s[0] == c then 0 else 1 + IndexOf(s[1..], c)
  }

  function Parse(s: string): Option<Key> {
    if ':' !in s || '/' in s || '\\' in s then None
    else
      var i := IndexOf(s, ':');
      if i == |s| then None
      else
        var k := Key(s[..i], s[i + 1..]);
        if k.namespace == "" || k.factId == "" || HasDoubleDot(k.namespace) || HasDoubleDot(k.factId) then None
        else Some(k)
  }

  /** The fact that the drain looks up under a name: the two parts, if `safe_token` accepts both. Otherwise the
      read raises. */
  function Target(s: string): Option<Key> {
    match Parse(s)
    case Some(k) => if SafeKey(k) then Some(k) else None
    case None => None
  }

  predicate ColonFree(k: Key) {
    ':' !in k.namespace
  }

  /** The key that a name is cut into, whether or not its parts are accepted. */
  function Cut(s: string): Key
    requires ':' in s
  {
    var i := IndexOf(s, ':');
    if i < |s| then Key(s[..i], s[i + 1..]) else assert false; Key("", "")
  }

  lemma IndexOfFirst(s: string, c: char, i: nat)
    requires i < |s| && s[i] == c && forall j :: 0 <= j < i ==> s[j] != c
    ensures IndexOf(s, c) == i
  {
  }

  /** The cut of a colon-free name gives its parts back. */
  lemma CutColonFree(k: Key)
    requires ColonFree(k)
    ensures var s := Render(k);
      IndexOf(s, ':') == |k.namespace| && s[..|k.namespace|] == k.namespace && s[|k.namespace| + 1..] == k.factId
  {
    var s, n := Render(k), |k.namespace|;
    assert forall j :: 0 <= j < n ==> s[j] == k.namespace[j];
    IndexOfFirst(s, ':', n);
  }

  /** With a colon the cut comes too early. */
  lemma CutInNamespace(k: Key)
    requires !ColonFree(k)
    ensures IndexOf(Render(k), ':') < |k.namespace|
  {
    var s := Render(k);
    var j :| 0 <= j < |k.namespace| && k.namespace[j] == ':';
    assert s[j] == ':';
  }

  lemma SafeNameChars(k: Key)
    requires SafeKey(k)
    ensures ':' in Render(k) && '/' !in Render(k) && '\\' !in Render(k)
  {
    var s := Render(k);
    assert s[|k.namespace|] == ':';
    assert forall c :: c in s ==> c in k.namespace || c == ':' || c in k.factId;
  }

  /** A rendered name is read back as the key it came from exactly when the namespace has no colon
      and neither part has two dots in a row. */
  lemma ParseRender(k: Key)
    requires SafeKey(k)
    ensures Parse(Render(k)) == Some(k) <==> ColonFree(k) && !HasDoubleDot(k.namespace) && !HasDoubleDot(k.factId)
    ensures ColonFree(k) ==> Parse(Render(k)) == None || Parse(Render(k)) == Some(k)
  {
    SafeNameChars(k);
    if ColonFree(k) {
      CutColonFree(k);
    } else {
      CutInNamespace(k);
    }
  }

  /** A name is cut into the one colon-free key it renders. */
  lemma CutOfRender(k: Key)
    ensures ':' in Render(k)
    ensures ColonFree(Cut(Render(k))) && Render(Cut(Render(k))) == Render(k)
    ensures Cut(Render(k)) == k <==> ColonFree(k)
  {
    var s := Render(k);
    assert s[|k.namespace|] == ':';
    var i := IndexOf(s, ':');
    assert i < |s|;
    assert s == s[..i] + ":" + s[i + 1..];
    if ColonFree(k) {
      CutColonFree(k);
    }
  }

  /** What a name reads as, if anything, is what it is cut into. */
  lemma ParseIsCut(k: Key)
    ensures ':' in Render(k)
    ensures Parse(Render(k)).Some? ==> Parse(Render(k)).value == Cut(Render(k))
    ensures Target(Render(k)).Some? ==> Target(Render(k)).value == Cut(Render(k))
  {
    CutOfRender(k);
  }

  /** The drain finds a safe fact under its own name exactly when the name reads back; a colon-free one it finds or
      refuses. */
  lemma TargetRender(k: Key)
    requires SafeKey(k)
    ensures Target(Render(k)) == Some(k) <==> Parse(Render(k)) == Some(k)
    ensures ColonFree(k) ==> Target(Render(k)) == None || Target(Render(k)) == Some(k)
  {
    ParseRender(k);
  }

  /** The name of a safe fact is refused exactly when its parts are, or when too much of it is left behind the first
      colon. */
  lemma TargetExactly(k: Key)
    requires SafeKey(k)
    ensures ':' in Render(k)
    ensures Target(Render(k)).Some? <==> Parse(Render(k)).Some? && |Cut(Render(k)).factId| <= MAX_TOKEN_CHARS
  {
    var s := Render(k);
    ParseIsCut(k);
    if Parse(s).Some? {
      var c := Cut(s);
      assert s == c.namespace + ":" + c.factId by { CutOfRender(k); }
      CutNotLater(k);
      forall x | x in c.namespace || x in c.factId
        ensures SafeChar(x)
      {
        assert x in s;
        assert x in k.namespace || x == ':' || x in k.factId;
      }
    }
  }

  lemma CutNotLater(k: Key)
    ensures ':' in Render(k) && |Cut(Render(k)).namespace| <= |k.namespace|
  {
    CutOfRender(k);
    if ColonFree(k) {
      CutColonFree(k);
    } else {
      CutInNamespace(k);
    }
  }

  /** Without colons in namespaces no two facts share a name. */
  lemma RenderInjective(a: Key, b: Key)
    requires ColonFree(a) && ColonFree(b)
    requires Render(a) == Render(b)
    ensures a == b
  {
    CutColonFree(a);
    CutColonFree(b);
  }

  /** With a colon in a namespace two facts can share one name. */
  lemma RenderCollides()
    ensures Key("a:b", "c") != Key("a", "b:c")
    ensures SafeKey(Key("a:b", "c")) && SafeKey(Key("a", "b:c"))
    ensures Render(Key("a:b", "c")) == Render(Key("a", "b:c"))
  {
    assert Key("a:b", "c").namespace != Key("a", "b:c").namespace;
    assert Render(Key("a:b", "c")) == "a:b:c";
    assert Render(Key("a", "b:c")) == "a:b:c";
  }

  /** Two dots in a row. */
  lemma DoubleDotExactly(s: string)
    ensures HasDoubleDot(s) <==> exists a: string, b: string :: s == a + ".." + b
  {
    if HasDoubleDot(s) {
      var i :| 0 <= i < |s| - 1 && s[i] == '.' && s[i + 1] == '.';
      assert s == s[..i] + ".." + s[i + 2..];
    }
    if a: string, b: string :| s == a + ".." + b {
      assert s[|a|] == '.' && s[|a| + 1] == '.';
    }
  }

  /** A name is refused exactly if it has no colon, has a slash or a backslash, or one of the parts around its first colon is
      empty or has two dots in a row; otherwise it is cut into these parts. */
  lemma ParsesExactly(s: string, namespace: string, factId: string)
    ensures Parse(s) == Some(Key(namespace, factId)) <==>
            && s == namespace + ":" + factId && ':' !in namespace && '/' !in s && '\\' !in s
            && namespace != "" && factId != "" && !HasDoubleDot(namespace) && !HasDoubleDot(factId)
  {
    if s == namespace + ":" + factId && ':' !in namespace {
      assert s[|namespace|] == ':';
      IndexOfFirst(s, ':', |namespace|);
      assert s[..|namespace|] == namespace && s[|namespace| + 1..] == factId;
    }
    if Parse(s) == Some(Key(namespace, factId)) {
      var i := IndexOf(s, ':');
      assert s == s[..i] + ":" + s[i + 1..];
    }
  }
}
