/** The JSON texts of RFC 8259 (sections 2 to 7) that `json.loads` reads, as far as a stored loop context
    needs them: numbers with a fraction or an exponent are recognised but their value is not kept. */
module Json {
  import opened Common

  datatype Value =
    | Null
    | Bool(b: bool)
    | Int(i: int)
    | Float
    | String(s: string)
    | Array(items: seq<Value>)
    | Object(members: map<string, Value>)

  /** A value read from the front of a text, and the text behind it. */
  datatype Parsed<T> = Fail | Ok(value: T, rest: string)

  predicate IsSpace(c: char) {
    c == ' ' || c == '\t' || c == '\n' || c == '\r'
  }

  predicate IsDigit(c: char) {
    '0' <= c <= '9'
  }

  function SkipSpace(s: string): (r: string)
    ensures |r| <= |s|
    ensures r != "" ==> !IsSpace(r[0])
    ensures s == "" || !IsSpace(s[0]) ==> r == s
  {
    if s != "" && IsSpace(s[0]) then SkipSpace(s[1..]) else s
  }

  function DigitValue(c: char): nat
    requires IsDigit(c)
  {
    c as nat - '0' as nat
  }

  /** The value of a run of digits, most significant first. */
  function DigitsValue(d: string): nat
    requires forall c :: c in d ==> IsDigit(c)
  {
    if d == "" then 0 else DigitsValue(d[..|d| - 1]) * 10 + DigitValue(d[|d| - 1])
  }

  /** The longest run of digits at the front. */
  function TakeDigits(s: string): (d: string)
    ensures |d| <= |s| && s[..|d|] == d
    ensures forall c :: c in d ==> IsDigit(c)
    ensures |d| < |s| ==> !IsDigit(s[|d|])
  {
    if s != "" && IsDigit(s[0]) then [s[0]] + TakeDigits(s[1..]) else ""
  }

  function SkipFraction(s: string): Parsed<bool> {
    if s == "" || s[0] != '.' then Ok(false, s)
    else
      var d := TakeDigits(s[1..]);
      if d == "" then Ok(false, s) else Ok(true, s[1 + |d|..])
  }

  function SkipExponent(s: string): Parsed<bool> {
    if s == "" || s[0] !in {'e', 'E'} then Ok(false, s)
    else
      var from := if |s| > 1 && s[1] in {'+', '-'} then 2 else 1;
      var d := TakeDigits(s[from..]);
      if d == "" then Ok(false, s) else Ok(true, s[from + |d|..])
  }

  /** An integer has no leading zero. */
  function ParseNumber(s: string): (r: Parsed<Value>)
    ensures r.Ok? ==> |r.rest| < |s|
  {
    var negative := s != "" && s[0] == '-';
    var t := if negative then s[1..] else s;
    var d := TakeDigits(t);
    if d == "" || (d[0] == '0' && |d| > 1) then Fail
    else
      var fraction := SkipFraction(t[|d|..]);
      var exponent := SkipExponent(fraction.rest);
      if fraction.value || exponent.value then Ok(Float, exponent.rest)
      else
        var n: int := DigitsValue(d);
        Ok(Int(if negative then -n else n), t[|d|..])
  }

  function HexValue(c: char): int {
    if IsDigit(c) then DigitValue(c)
    else if 'a' <= c <= 'f' then c as int - 'a' as int + 10
    else if 'A' <= c <= 'F' then c as int - 'A' as int + 10
    else -1
  }

  /** One escape, the backslash already read. A surrogate escape is not read as a character. */
  function ParseEscape(s: string): (r: Parsed<char>)
    ensures r.Ok? ==> |r.rest| < |s|
  {
    if s == "" then Fail
    else if s[0] in {'"', '\\', '/'} then Ok(s[0], s[1..])
    else if s[0] == 'n' then Ok('\n', s[1..])
    else if s[0] == 't' then Ok('\t', s[1..])
    else if s[0] == 'r' then Ok('\r', s[1..])
    else if s[0] == 'b' then Ok(8 as char, s[1..])
    else if s[0] == 'f' then Ok(12 as char, s[1..])
    else if s[0] == 'u' && |s| >= 5 && forall i :: 1 <= i < 5 ==> HexValue(s[i]) >= 0 then
      var code := ((HexValue(s[1]) * 16 + HexValue(s[2])) * 16 + HexValue(s[3])) * 16 + HexValue(s[4]);
      if 0 <= code < 0xD800 || 0xE000 <= code < 0x10000 then Ok(code as char, s[5..]) else Fail
    else Fail
  }

  /** The rest of a string whose opening quote is already read. */
  function ParseChars(s: string): (r: Parsed<string>)
    ensures r.Ok? ==> |r.rest| < |s|
  {
    if s == "" || s[0] < ' ' then Fail
    else if s[0] == '"' then Ok("", s[1..])
    else if s[0] == '\\' then
      var e := ParseEscape(s[1..]);
      if e.Fail? then Fail
      else
        var more := ParseChars(e.rest);
        if more.Fail? then Fail else Ok([e.value] + more.value, more.rest)
    else
      var more := ParseChars(s[1..]);
      if more.Fail? then Fail else Ok([s[0]] + more.value, more.rest)
  }

  function StartsWith(s: string, word: string): bool {
    |word| <= |s| && s[..|word|] == word
  }

  function ParseValue(s: string): (r: Parsed<Value>)
    decreases |s|, 0
    ensures r.Ok? ==> |r.rest| < |s|
  {
    if s == "" then Fail
    else if s[0] == '"' then
      var t := ParseChars(s[1..]);
      if t.Fail? then Fail else Ok(String(t.value), t.rest)
    else if s[0] == '{' then
      var t := SkipSpace(s[1..]);
      if t != "" && t[0] == '}' then Ok(Object(map[]), t[1..])
      else
        var m := ParseMembers(t, map[]);
        if m.Fail? then Fail else Ok(Object(m.value), m.rest)
    else if s[0] == '[' then
      var t := SkipSpace(s[1..]);
      if t != "" && t[0] == ']' then Ok(Array([]), t[1..])
      else
        var m := ParseItems(t);
        if m.Fail? then Fail else Ok(Array(m.value), m.rest)
    else if StartsWith(s, "null") then Ok(Null, s[4..])
    else if StartsWith(s, "true") then Ok(Bool(true), s[4..])
    else if StartsWith(s, "false") then Ok(Bool(false), s[5..])
    else ParseNumber(s)
  }

  function ParseItems(s: string): (r: Parsed<seq<Value>>)
    decreases |s|, 1
    ensures r.Ok? ==> |r.rest| < |s|
  {
    var v := ParseValue(s);
    if v.Fail? then Fail
    else
      var t := SkipSpace(v.rest);
      if t == "" then Fail
      else if t[0] == ']' then Ok([v.value], t[1..])
      else if t[0] != ',' then Fail
      else
        var more := ParseItems(SkipSpace(t[1..]));
        if more.Fail? then Fail else Ok([v.value] + more.value, more.rest)
  }

  /** Members up to the closing brace, on top of those already read: of equal names the last one counts. */
  function ParseMembers(s: string, read: map<string, Value>): (r: Parsed<map<string, Value>>)
    decreases |s|, 1
    ensures r.Ok? ==> |r.rest| < |s|
  {
    if s == "" || s[0] != '"' then Fail
    else
      var name := ParseChars(s[1..]);
      if name.Fail? then Fail
      else
        var colon := SkipSpace(name.rest);
        if colon == "" || colon[0] != ':' then Fail
        else
          var v := ParseValue(SkipSpace(colon[1..]));
          if v.Fail? then Fail
          else
            var t := SkipSpace(v.rest);
            if t == "" then Fail
            else if t[0] == '}' then Ok(read[name.value := v.value], t[1..])
            else if t[0] != ',' then Fail
            else ParseMembers(SkipSpace(t[1..]), read[name.value := v.value])
  }

  /** `json.loads`. */
  function Loads(s: string): Option<Value> {
    var v := ParseValue(SkipSpace(s));
    if v.Ok? && SkipSpace(v.rest) == "" then Some(v.value) else None
  }

  // ---- printing ----------------------------------------------------------------------------------

  function Digit(n: nat): char
    requires n < 10
  {
    ('0' as int + n) as char
  }

  function PrintNat(n: nat): (d: string)
    ensures d != "" && forall c :: c in d ==> IsDigit(c)
    ensures |d| > 1 ==> d[0] != '0'
    ensures n > 0 ==> d[0] != '0'
  {
    if n < 10 then [Digit(n)] else PrintNat(n / 10) + [Digit(n % 10)]
  }

  lemma {:induction false} PrintNatValue(n: nat)
    ensures DigitsValue(PrintNat(n)) == n
  {
    if n >= 10 {
      PrintNatValue(n / 10);
      var d := PrintNat(n);
      assert d[..|d| - 1] == PrintNat(n / 10);
      assert DigitsValue(d) == DigitsValue(d[..|d| - 1]) * 10 + DigitValue(d[|d| - 1]);
    } else {
      var d := [Digit(n)];
      assert d[..|d| - 1] == "";
      assert DigitsValue(d) == DigitsValue(d[..|d| - 1]) * 10 + DigitValue(d[|d| - 1]);
    }
  }

  /** What may stand behind a value inside an object. */
  predicate Delimited(rest: string) {
    rest != "" && rest[0] in {',', '}'}
  }

  lemma {:induction false} TakeDigitsOf(d: string, rest: string)
    requires (forall c :: c in d ==> IsDigit(c)) && (rest == "" || !IsDigit(rest[0]))
    ensures TakeDigits(d + rest) == d
  {
    if d == "" {
      assert d + rest == rest;
    } else {
      TakeDigitsOf(d[1..], rest);
      assert (d + rest)[1..] == d[1..] + rest;
    }
  }

  lemma ParsePrintedNat(n: nat, rest: string)
    requires Delimited(rest)
    ensures ParseValue(PrintNat(n) + rest) == Ok(Int(n), rest)
  {
    var d := PrintNat(n);
    var s := d + rest;
    assert d[0] in d && s[0] == d[0];
    TakeDigitsOf(d, rest);
    PrintNatValue(n);
    assert s[|d|..] == rest;
    assert !StartsWith(s, "null") && !StartsWith(s, "true") && !StartsWith(s, "false") by {
      if |s| >= 4 { assert s[..4][0] == s[0]; }
      if |s| >= 5 { assert s[..5][0] == s[0]; }
    }
  }

  lemma ParseNullText(rest: string)
    ensures ParseValue("null" + rest) == Ok(Null, rest)
  {
    var s := "null" + rest;
    assert s[0] == 'n' && s[..4] == "null" && s[4..] == rest;
  }

  /** A name without quotes, backslashes or control characters is read as it is written. */
  predicate PlainText(t: string) {
    forall c :: c in t ==> c >= ' ' && c != '"' && c != '\\'
  }

  lemma {:induction false} ParsePlain(t: string, rest: string)
    requires PlainText(t)
    ensures ParseChars(t + "\"" + rest) == Ok(t, rest)
  {
    var s := t + "\"" + rest;
    if t == "" {
      assert s[0] == '"' && s[1..] == rest;
    } else {
      assert t[0] in t && forall c :: c in t[1..] ==> c in t;
      ParsePlain(t[1..], rest);
      assert s[0] == t[0] && s[1..] == t[1..] + "\"" + rest;
      assert t == [t[0]] + t[1..];
    }
  }

  lemma ParseStringText(t: string, rest: string)
    requires PlainText(t)
    ensures ParseValue("\"" + t + "\"" + rest) == Ok(String(t), rest)
  {
    var s := "\"" + t + "\"" + rest;
    assert s[0] == '"' && s[1..] == t + "\"" + rest;
    ParsePlain(t, rest);
  }

  function Member(name: string, text: string): string {
    "\"" + name + "\":" + text
  }

  /** What `ParseMembers` does behind a name and its colon. */
  function AfterColon(s: string, name: string, read: map<string, Value>): Parsed<map<string, Value>> {
    var v := ParseValue(s);
    if v.Fail? then Fail
    else
      var t := SkipSpace(v.rest);
      if t == "" then Fail
      else if t[0] == '}' then Ok(read[name := v.value], t[1..])
      else if t[0] != ',' then Fail
      else ParseMembers(SkipSpace(t[1..]), read[name := v.value])
  }

  lemma ParseName(name: string, s: string, read: map<string, Value>)
    requires PlainText(name) && s != "" && !IsSpace(s[0])
    ensures ParseMembers("\"" + name + "\":" + s, read) == AfterColon(s, name, read)
  {
    var whole := "\"" + name + "\":" + s;
    var colon := ":" + s;
    assert whole[0] == '"' && whole[1..] == name + "\"" + colon;
    ParsePlain(name, colon);
    assert SkipSpace(colon) == colon && colon[1..] == s && SkipSpace(s) == s;
  }

  /** Reading one printed member: the object goes on behind a comma and ends at a brace. */
  lemma ParseMember(name: string, text: string, v: Value, rest: string, read: map<string, Value>)
    requires PlainText(name) && text != "" && !IsSpace(text[0]) && Delimited(rest)
    requires ParseValue(text + rest) == Ok(v, rest)
    ensures rest[0] == '}' ==> ParseMembers(Member(name, text) + rest, read) == Ok(read[name := v], rest[1..])
    ensures rest[0] == ',' && |rest| > 1 && !IsSpace(rest[1]) ==>
              ParseMembers(Member(name, text) + rest, read) == ParseMembers(rest[1..], read[name := v])
  {
    assert Member(name, text) + rest == "\"" + name + "\":" + (text + rest);
    ParseName(name, text + rest, read);
    assert SkipSpace(rest) == rest;
    if rest[0] == ',' && |rest| > 1 && !IsSpace(rest[1]) {
      assert SkipSpace(rest[1..]) == rest[1..];
    }
  }
}
