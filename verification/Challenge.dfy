// The `WWW-Authenticate` scanner of the TypeScript harness client
// (harness/ts-client/main.ts), proved against printed challenges: auth-params
// separated by white space and commas, each value a token or a quoted-string
// (sections 11.2 and 5.6.4 of RFC 9110). A string is a sequence of code points,
// as the source's spread makes it.
module Challenge {
  import opened Common

  // ---- the scan, read front to back ----

  predicate Separator(ch: char) {
    ch == ' ' || ch == ',' || ch == '\t'
  }

  // How many separators s starts with.
  function Skip(s: string): (n: nat)
    ensures n <= |s| && forall i | 0 <= i < n :: Separator(s[i])
    ensures n < |s| ==> !Separator(s[n])
  {
    if s == "" || !Separator(s[0]) then 0 else 1 + Skip(s[1..])
  }

  // How many characters of s come before the first one in stops.
  function Span(s: string, stops: string): (n: nat)
    ensures n <= |s| && forall i | 0 <= i < n :: s[i] !in stops
    ensures n < |s| ==> s[n] in stops
  {
    if s == "" || s[0] in stops then 0 else 1 + Span(s[1..], stops)
  }

  datatype Read = Read(value: string, rest: string)

  // A quoted value, from just after its opening quote; rest starts after the
  // closing one, or is empty if there is none.
  function ReadQuoted(s: string): (r: Read)
    ensures |r.rest| <= |s| && r.rest == s[|s| - |r.rest|..]
  {
    if s == "" then Read("", "")
    else if s[0] == '"' then Read("", s[1..])
    else if s[0] == '\\' && |s| > 1 then
      var r := ReadQuoted(s[2..]);
      Read([s[1]] + r.value, r.rest)
    else
      var r := ReadQuoted(s[1..]);
      Read([s[0]] + r.value, r.rest)
  }

  // A value, from just after the `=`.
  function ReadValue(s: string): (r: Read)
    ensures |r.rest| <= |s| && r.rest == s[|s| - |r.rest|..]
  {
    if s != "" && s[0] == '"' then ReadQuoted(s[1..]) else Read(s[..Span(s, ", ")], s[Span(s, ", ")..])
  }

  datatype Pair = Pair(name: string, value: string)

  datatype Step = Stop | Found(pair: Pair, rest: string)

  // The first parameter of s, and what follows it.
  function First(s: string): (step: Step)
    ensures step.Found? ==> |step.rest| < |s|
  {
    var t := s[Skip(s)..];
    var k := Span(t, "=");
    if k == |t| then Stop
    else
      var r := ReadValue(t[k + 1..]);
      Found(Pair(t[..k], r.value), r.rest)
  }

  // The name and value pairs of a parameter list, in order.
  function Scan(s: string): seq<Pair>
    decreases |s|
  {
    match First(s)
    case Stop => []
    case Found(pair, rest) => [pair] + Scan(rest)
  }

  // Writing the pairs into a map, in order.
  function Collapse(pairs: seq<Pair>): map<string, string> {
    if pairs == [] then map[]
    else
      var last := pairs[|pairs| - 1];
      Collapse(pairs[..|pairs| - 1])[last.name := last.value]
  }

  // The last pair of a name wins.
  lemma {:induction false} LastWins(pairs: seq<Pair>, name: string)
    ensures name in Collapse(pairs) <==> exists i :: 0 <= i < |pairs| && pairs[i].name == name
    ensures forall i | 0 <= i < |pairs| && pairs[i].name == name && (forall j | i < j < |pairs| :: pairs[j].name != name) ::
      Collapse(pairs)[name] == pairs[i].value
  {
    if pairs != [] {
      var front := pairs[..|pairs| - 1];
      LastWins(front, name);
      assert forall i | 0 <= i < |front| :: front[i] == pairs[i];
    }
  }

  // ---- the header ----

  datatype Challenge = Challenge(
    id: string, realm: string, method_: string, intent: string, request: string,
    expires: Option<string>, description: Option<string>)

  // What JavaScript's trim removes.
  predicate Blank(ch: char) {
    || '\t' <= ch <= '\r' || ch == ' ' || ch == '\U{A0}' || ch == '\U{1680}'
    || '\U{2000}' <= ch <= '\U{200A}' || ch == '\U{2028}' || ch == '\U{2029}'
    || ch == '\U{202F}' || ch == '\U{205F}' || ch == '\U{3000}' || ch == '\U{FEFF}'
  }

  function TrimStart(s: string): string {
    if s != "" && Blank(s[0]) then TrimStart(s[1..]) else s
  }

  function TrimEnd(s: string): string {
    if s != "" && Blank(s[|s| - 1]) then TrimEnd(s[..|s| - 1]) else s
  }

  function Lower(ch: char): char {
    if 'A' <= ch <= 'Z' then ch - 'A' + 'a' else ch
  }

  // Lower-casing yields "payment " from ASCII letters only.
  predicate HasScheme(header: string) {
    var scheme := "payment ";
    |header| >= |scheme| && forall i | 0 <= i < |scheme| :: Lower(header[i]) == scheme[i]
  }

  function Get(params: map<string, string>, name: string): Option<string> {
    if name in params then Some(params[name]) else None
  }

  const REQUIRED := ["id", "realm", "method", "intent", "request"]

  function FirstMissing(params: map<string, string>, names: seq<string>): (r: Option<string>)
    ensures r.None? <==> forall i | 0 <= i < |names| :: names[i] in params
  {
    if names == [] then None
    else if names[0] !in params then Some(names[0])
    else FirstMissing(params, names[1..])
  }

  function FromParams(params: map<string, string>): Result<Challenge> {
    var missing := FirstMissing(params, REQUIRED);
    if missing.Some? then Err("Missing '" + missing.value + "' in challenge")
    else
      assert forall i | 0 <= i < |REQUIRED| :: REQUIRED[i] in params;
      assert REQUIRED[0] in params && REQUIRED[1] in params && REQUIRED[2] in params;
      assert REQUIRED[3] in params && REQUIRED[4] in params;
      Ok(Challenge(params["id"], params["realm"], params["method"], params["intent"], params["request"],
                   Get(params, "expires"), Get(params, "description")))
  }

  function Parsed(header: string): Result<Challenge> {
    if !HasScheme(header) then Err("should use Payment scheme")
    else FromParams(Collapse(Scan(TrimEnd(TrimStart(header[8..])))))
  }

  // The scheme is `payment` in any case, and a space.
  lemma SchemeExactly(header: string)
    ensures HasScheme(header) <==> (
      && |header| >= 8 && header[7] == ' '
      && forall i | 0 <= i < 7 :: header[i] == "payment"[i] || header[i] == "PAYMENT"[i])
  {
    if |header| >= 8 {
      forall i | 0 <= i < 8
        ensures Lower(header[i]) == "payment "[i] <==>
          if i == 7 then header[i] == ' ' else header[i] == "payment"[i] || header[i] == "PAYMENT"[i]
      {
        LowerExactly(header[i], "payment "[i]);
      }
    }
  }

  lemma LowerExactly(ch: char, low: char)
    requires 'a' <= low <= 'z' || low == ' '
    ensures Lower(ch) == low <==> ch == low || ('a' <= low && ch == low - 'a' + 'A')
  {
  }

  // Any other header is refused; the case of the scheme makes no difference.
  lemma SchemeDecides(header: string, other: string)
    ensures !HasScheme(header) ==> Parsed(header).Err?
    ensures HasScheme(header) && HasScheme(other) && header[8..] == other[8..] ==> Parsed(header) == Parsed(other)
  {
    hide HasScheme, TrimStart, TrimEnd, Scan, Collapse, FromParams;
    SchemeExactly(header);
    SchemeExactly(other);
  }

  // Trimming takes the white space at both ends and nothing else.
  lemma {:induction false} TrimIs(s: string) returns (a: string, b: string)
    ensures var t := TrimEnd(TrimStart(s));
      && s == a + t + b && (forall ch | ch in a + b :: Blank(ch))
      && (t != "" ==> !Blank(t[0]) && !Blank(t[|t| - 1]))
  {
    hide Blank;
    a := FrontTrimmed(s);
    b := BackTrimmed(TrimStart(s));
    var t := TrimEnd(TrimStart(s));
    assert TrimStart(s) == t + b;
    assert s == a + (t + b) == a + t + b;
    if t != "" {
      assert t[0] == TrimStart(s)[0];
    }
  }

  lemma {:induction false} FrontTrimmed(s: string) returns (a: string)
    ensures s == a + TrimStart(s) && (forall ch | ch in a :: Blank(ch))
    ensures TrimStart(s) != "" ==> !Blank(TrimStart(s)[0])
  {
    hide Blank;
    a := "";
    if s != "" && Blank(s[0]) {
      a := FrontTrimmed(s[1..]);
      a := [s[0]] + a;
    }
  }

  lemma {:induction false} BackTrimmed(s: string) returns (b: string)
    ensures s == TrimEnd(s) + b && (forall ch | ch in b :: Blank(ch))
    ensures TrimEnd(s) != "" ==> !Blank(TrimEnd(s)[|TrimEnd(s)| - 1])
  {
    hide Blank;
    b := "";
    if s != "" && Blank(s[|s| - 1]) {
      b := BackTrimmed(s[..|s| - 1]);
      b := b + [s[|s| - 1]];
    }
  }

  // ---- the scanner itself ----

  lemma {:induction false} SkipIs(s: string, n: nat)
    requires n <= |s| && (forall i | 0 <= i < n :: Separator(s[i])) && (n < |s| ==> !Separator(s[n]))
    ensures Skip(s) == n
  {
  }

  lemma SpanIs(s: string, stops: string, n: nat)
    requires n <= |s| && (forall i | 0 <= i < n :: s[i] !in stops) && (n < |s| ==> s[n] in stops)
    ensures Span(s, stops) == n
  {
  }

  // A value whose first characters are read already.
  function Resumed(value: string, rest: string): Read {
    var r := ReadQuoted(rest);
    Read(value + r.value, r.rest)
  }

  // One turn of the loop over a quoted value.
  lemma QuotedStep(chars: string, i: nat, value: string)
    requires i < |chars| && chars[i] != '"'
    ensures var j := if chars[i] == '\\' && i + 1 < |chars| then i + 1 else i;
      Resumed(value, chars[i..]) == Resumed(value + [chars[j]], chars[j + 1..])
  {
    hide ReadQuoted, Resumed;
    var j := if chars[i] == '\\' && i + 1 < |chars| then i + 1 else i;
    QuotedChar(chars, i, j);
    ResumeNext(value, chars[j], chars[i..], chars[j + 1..]);
  }

  lemma ResumeNext(value: string, ch: char, s: string, t: string)
    requires ReadQuoted(s) == Read([ch] + ReadQuoted(t).value, ReadQuoted(t).rest)
    ensures Resumed(value, s) == Resumed(value + [ch], t)
  {
    hide ReadQuoted;
    Regroup(value, [ch], ReadQuoted(t).value);
  }

  lemma Regroup(a: string, b: string, c: string)
    ensures a + (b + c) == a + b + c
  {
  }

  lemma QuotedChar(chars: string, i: nat, j: nat)
    requires i < |chars| && chars[i] != '"'
    requires j == if chars[i] == '\\' && i + 1 < |chars| then i + 1 else i
    ensures var r := ReadQuoted(chars[j + 1..]);
      ReadQuoted(chars[i..]) == Read([chars[j]] + r.value, r.rest)
  {
    assert chars[i..][j - i + 1..] == chars[j + 1..];
  }

  lemma QuotedStop(chars: string, i: nat)
    requires i <= |chars| && (i < |chars| ==> chars[i] == '"')
    ensures ReadQuoted(chars[i..]) == Read("", if i < |chars| then chars[i + 1..] else chars[i..])
  {
    if i < |chars| {
      assert chars[i..][1..] == chars[i + 1..];
    }
  }

  // The loop over a quoted value: i starts after the opening quote and ends
  // after the closing one.
  method ScanQuoted(chars: string, start: nat) returns (value: string, i: nat)
    requires start <= |chars|
    ensures start <= i <= |chars| && ReadQuoted(chars[start..]) == Read(value, chars[i..])
  {
    hide ReadQuoted;
    i, value := start, "";
    assert Resumed("", chars[start..]) == ReadQuoted(chars[start..]);
    while i < |chars| && chars[i] != '"'
      invariant start <= i <= |chars|
      invariant Resumed(value, chars[i..]) == ReadQuoted(chars[start..])
    {
      hide Resumed;
      QuotedStep(chars, i, value);
      if chars[i] == '\\' && i + 1 < |chars| {
        i := i + 1;
        value := value + [chars[i]];
      } else {
        value := value + [chars[i]];
      }
      i := i + 1;
    }
    QuotedStop(chars, i);
    if i < |chars| {
      i := i + 1;
    }
  }

  // The loop over an unquoted value.
  method ScanToken(chars: string, start: nat) returns (i: nat)
    requires start <= |chars|
    ensures start <= i <= |chars| && i - start == Span(chars[start..], ", ")
  {
    i := start;
    while i < |chars| && chars[i] != ',' && chars[i] != ' '
      invariant start <= i <= |chars|
      invariant forall j | start <= j < i :: chars[j] !in ", "
    {
      i := i + 1;
    }
    SpanIs(chars[start..], ", ", i - start);
  }

  method ScanName(chars: string, start: nat) returns (i: nat)
    requires start <= |chars|
    ensures start <= i <= |chars| && i - start == Span(chars[start..], "=")
  {
    i := start;
    while i < |chars| && chars[i] != '='
      invariant start <= i <= |chars|
      invariant forall j | start <= j < i :: chars[j] !in "="
    {
      i := i + 1;
    }
    SpanIs(chars[start..], "=", i - start);
  }

  method SkipSeparators(chars: string, start: nat) returns (i: nat)
    requires start <= |chars|
    ensures start <= i <= |chars| && i - start == Skip(chars[start..])
  {
    i := start;
    while i < |chars| && (chars[i] == ' ' || chars[i] == ',' || chars[i] == '\t')
      invariant start <= i <= |chars|
      invariant forall j | start <= j < i :: Separator(chars[j])
    {
      i := i + 1;
    }
    SkipIs(chars[start..], i - start);
  }

  method ScanValue(chars: string, start: nat) returns (value: string, i: nat)
    requires start <= |chars|
    ensures start <= i <= |chars| && ReadValue(chars[start..]) == Read(value, chars[i..])
  {
    hide Span, ReadQuoted;
    ghost var u := chars[start..];
    if start < |chars| && chars[start] == '"' {
      assert u[1..] == chars[start + 1..];
      value, i := ScanQuoted(chars, start + 1);
    } else {
      i := ScanToken(chars, start);
      value := chars[start..i];
      assert u[..i - start] == value && u[i - start..] == chars[i..];
    }
  }

  // One turn of the outer loop, in terms of the scan.
  lemma FirstFound(s: string, n: nat, k: nat)
    requires n == Skip(s) && k == Span(s[n..], "=") && n + k < |s|
    ensures var r := ReadValue(s[n + k + 1..]);
      First(s) == Found(Pair(s[n..n + k], r.value), r.rest)
  {
    hide Skip, Span, ReadValue;
    var t := s[n..];
    assert t[..k] == s[n..n + k];
    assert t[k + 1..] == s[n + k + 1..];
  }

  lemma NothingToScan()
    ensures Scan("") == []
  {
  }

  // The body of the outer loop.
  method ScanFirst(chars: string, start: nat) returns (found: bool, pair: Pair, i: nat)
    requires start <= |chars|
    ensures i <= |chars|
    ensures First(chars[start..]) == if found then Found(pair, chars[i..]) else Stop
  {
    hide Skip, Span, ReadValue;
    ghost var s := chars[start..];
    pair := Pair("", "");
    i := SkipSeparators(chars, start);
    ghost var n := i - start;
    assert s[n..] == chars[i..];
    if i >= |chars| {
      return false, pair, i;
    }
    var nameStart := i;
    i := ScanName(chars, i);
    if i >= |chars| {
      return false, pair, i;
    }
    FirstFound(s, n, i - nameStart);
    var name := chars[nameStart..i];
    assert name == s[n..i - start] && s[i - start + 1..] == chars[i + 1..];
    i := i + 1;
    var value: string;
    value, i := ScanValue(chars, i);
    return true, Pair(name, value), i;
  }

  // The outer loop; it ends on every input.
  method ScanParams(chars: string) returns (params: map<string, string>)
    ensures params == Collapse(Scan(chars))
  {
    hide First;
    params := map[];
    ghost var done: seq<Pair> := [];
    var i := 0;
    assert chars[0..] == chars;
    while i < |chars|
      invariant i <= |chars|
      invariant Scan(chars) == done + Scan(chars[i..])
      invariant params == Collapse(done)
      decreases |chars| - i
    {
      hide Collapse;
      var found, pair, next := ScanFirst(chars, i);
      if !found {
        assert Scan(chars) == done;
        return;
      }
      CollapseNext(done, pair);
      params := params[pair.name := pair.value];
      done := done + [pair];
      i := next;
    }
    assert chars[i..] == "";
    NothingToScan();
    assert Scan(chars) == done;
  }

  lemma CollapseNext(done: seq<Pair>, p: Pair)
    ensures Collapse(done + [p]) == Collapse(done)[p.name := p.value]
  {
    assert (done + [p])[..|done|] == done;
  }

  method ParseWwwAuthenticate(header: string) returns (r: Result<Challenge>)
    ensures r == Parsed(header)
  {
    hide Scan, Collapse;
    if !HasScheme(header) {
      return Err("should use Payment scheme");
    }
    var params := ScanParams(TrimEnd(TrimStart(header[8..])));
    return FromParams(params);
  }

  // ---- printed challenges ----

  // A value as RFC 9110 writes it: a token, or the text between two quotes.
  datatype Value = Token(text: string) | Quoted(raw: string) {
    // The value it stands for: a backslash quotes the next character.
    function Meaning(): string {
      match this
      case Token(text) => text
      case Quoted(raw) => Unquoted(raw)
    }

    function Print(): string {
      match this
      case Token(text) => text
      case Quoted(raw) => "\"" + raw + "\""
    }

    predicate WellFormed() {
      match this
      case Token(text) => text != "" && text[0] != '"' && forall i | 0 <= i < |text| :: Solid(text[i])
      case Quoted(raw) => Quotable(raw)
    }
  }

  // A character of a token or a name: every tchar of RFC 9110 is one.
  predicate Solid(ch: char) {
    !Separator(ch) && !Blank(ch)
  }

  // Quoted pairs and characters other than a quote or a backslash.
  predicate Quotable(raw: string) {
    || raw == ""
    || (raw[0] == '\\' && |raw| > 1 && Quotable(raw[2..]))
    || (raw[0] != '\\' && raw[0] != '"' && Quotable(raw[1..]))
  }

  function Unquoted(raw: string): string {
    if raw == "" then ""
    else if raw[0] == '\\' && |raw| > 1 then [raw[1]] + Unquoted(raw[2..])
    else [raw[0]] + Unquoted(raw[1..])
  }

  // The least quoting: only `"` and `\`.
  function Escaped(value: string): string {
    if value == "" then ""
    else if value[0] == '"' || value[0] == '\\' then ['\\', value[0]] + Escaped(value[1..])
    else [value[0]] + Escaped(value[1..])
  }

  lemma {:induction false} EscapedMeans(value: string)
    ensures Quotable(Escaped(value)) && Unquoted(Escaped(value)) == value
  {
    if value != "" {
      EscapedMeans(value[1..]);
      var rest := Escaped(value[1..]);
      if value[0] == '"' || value[0] == '\\' {
        assert (['\\', value[0]] + rest)[2..] == rest;
      } else {
        assert ([value[0]] + rest)[1..] == rest;
      }
    }
  }

  // One printed auth-param: the separators in front of it, its name, white
  // space around the `=`, and its value.
  datatype Param = Param(gap: string, name: string, before: string, after: string, value: Value) {
    function Print(): string {
      gap + name + before + "=" + after + value.Print()
    }

    function Meaning(): Pair {
      Pair(name, value.Meaning())
    }

    predicate WellFormed() {
      && (forall i | 0 <= i < |gap| :: Separator(gap[i]))
      && name != "" && (forall i | 0 <= i < |name| :: Solid(name[i]) && name[i] != '=')
      && (forall i | 0 <= i < |before + after| :: (before + after)[i] == ' ' || (before + after)[i] == '\t')
      && value.WellFormed()
    }

    // White space that hides a quoted value but is, up to its first space, what
    // the value means: no characters, or tabs.
    predicate StandsIn() {
      value.Quoted? && ' ' in after && value.Meaning() == after[..Span(after, " ")]
    }

    // What the scanner needs of a parameter and the text behind it.
    predicate Tight(rest: string) {
      && before == ""
      && if after == "" then value.Token? && rest != "" ==> rest[0] != '\t' else rest == "" && StandsIn()
    }
  }

  function Print(ps: seq<Param>): string {
    if ps == [] then "" else ps[0].Print() + Print(ps[1..])
  }

  function Meaning(ps: seq<Param>): seq<Pair> {
    if ps == [] then [] else [ps[0].Meaning()] + Meaning(ps[1..])
  }

  // Parameters after the first are separated from the one before.
  predicate WellFormed(ps: seq<Param>) {
    forall i | 0 <= i < |ps| :: ps[i].WellFormed() && (i > 0 ==> ps[i].gap != "")
  }

  // No white space around an `=`, except in front of a last quoted value whose
  // meaning it happens to be; and no token directly followed by a tab.
  predicate Tight(ps: seq<Param>) {
    forall i | 0 <= i < |ps| :: ps[i].Tight(Behind(ps, i))
  }

  // What directly follows a parameter.
  function Behind(ps: seq<Param>, i: nat): string
    requires i < |ps|
  {
    if i + 1 < |ps| then ps[i + 1].gap else ""
  }

  // A closing quote, a plain character and a quoted pair in front of a tail.
  lemma ReadEnd(tail: string)
    requires tail != "" && tail[0] == '"'
    ensures ReadQuoted(tail) == Read("", tail[1..]) && Unquoted("") == ""
  {
  }

  lemma ReadPlain(ch: char, rest: string)
    requires ch != '"' && ch != '\\'
    ensures ReadQuoted([ch] + rest) == Read([ch] + ReadQuoted(rest).value, ReadQuoted(rest).rest)
    ensures Unquoted([ch] + rest) == [ch] + Unquoted(rest)
  {
    assert ([ch] + rest)[1..] == rest;
  }

  lemma ReadPair(ch: char, rest: string)
    ensures ReadQuoted(['\\', ch] + rest) == Read([ch] + ReadQuoted(rest).value, ReadQuoted(rest).rest)
    ensures Unquoted(['\\', ch] + rest) == [ch] + Unquoted(rest)
  {
    assert (['\\', ch] + rest)[2..] == rest;
  }

  // A quotable text is empty, or starts with a plain character or a pair.
  lemma QuotableNext(raw: string)
    requires Quotable(raw) && raw != ""
    ensures raw[0] != '"' && (raw[0] == '\\' ==> |raw| > 1)
    ensures Quotable(raw[if raw[0] == '\\' then 2 else 1..])
  {
  }

  lemma {:induction false} QuotedRoundTrip(raw: string, tail: string)
    requires Quotable(raw) && tail != "" && tail[0] == '"'
    ensures ReadQuoted(raw + tail) == Read(Unquoted(raw), tail[1..])
  {
    hide ReadQuoted, Quotable, Unquoted;
    if raw == "" {
      assert raw + tail == tail;
      ReadEnd(tail);
    } else {
      QuotableNext(raw);
      if raw[0] == '\\' {
        var rest := raw[2..];
        QuotedRoundTrip(rest, tail);
        assert raw == ['\\', raw[1]] + rest;
        Regroup(['\\', raw[1]], rest, tail);
        ReadPair(raw[1], rest);
        ReadPair(raw[1], rest + tail);
      } else {
        var rest := raw[1..];
        QuotedRoundTrip(rest, tail);
        assert raw == [raw[0]] + rest;
        Regroup([raw[0]], rest, tail);
        ReadPlain(raw[0], rest);
        ReadPlain(raw[0], rest + tail);
      }
    }
  }

  lemma QuotedValue(raw: string, rest: string)
    requires Quotable(raw)
    ensures ReadValue("\"" + raw + "\"" + rest) == Read(Unquoted(raw), rest)
  {
    hide ReadQuoted, Unquoted, Quotable, Span;
    var u, tail := "\"" + raw + "\"" + rest, "\"" + rest;
    QuotedRoundTrip(raw, tail);
    assert u[1..] == raw + tail && tail[1..] == rest;
  }

  lemma TokenRoundTrip(text: string, rest: string)
    requires Token(text).WellFormed() && (rest != "" ==> Separator(rest[0]))
    ensures var r := ReadValue(text + rest);
      if rest != "" && rest[0] == '\t' then r.value != text else r == Read(text, rest)
  {
    hide Span, ReadQuoted;
    var u := text + rest;
    if rest == "" || rest[0] != '\t' {
      SpanIs(u, ", ", |text|);
      assert u[..|text|] == text && u[|text|..] == rest;
    } else {
      assert u[|text|] == '\t';
    }
  }

  // White space after the `=` hides the token.
  lemma TokenHidden(after: string, text: string, rest: string)
    requires after != "" && (after[0] == ' ' || after[0] == '\t') && Token(text).WellFormed()
    ensures ReadValue(after + text + rest).value != text
  {
    var u := after + text + rest;
    assert u[0] == after[0];
  }

  lemma {:induction false} UnquotedKeeps(raw: string, ch: char)
    requires Quotable(raw) && ch != '\\'
    ensures |Unquoted(raw)| <= |raw| && (ch in raw ==> ch in Unquoted(raw))
  {
    if raw != "" {
      QuotableNext(raw);
      if raw[0] == '\\' {
        UnquotedKeeps(raw[2..], ch);
        assert raw == [raw[0], raw[1]] + raw[2..];
      } else {
        UnquotedKeeps(raw[1..], ch);
        assert raw == [raw[0]] + raw[1..];
      }
    }
  }

  // White space after the `=` is read as the value up to its first space. If it
  // has none, the value runs into the quotes and is never the quoted one.
  lemma QuoteHidden(after: string, raw: string, rest: string)
    requires Quotable(raw) && after != "" && forall i | 0 <= i < |after| :: after[i] == ' ' || after[i] == '\t'
    ensures var behind := "\"" + raw + "\"" + rest;
      var r, k := ReadValue(after + behind), Span(after, " ");
      if ' ' in after then r == Read(after[..k], after[k..] + behind) else r.value != Unquoted(raw)
  {
    hide ReadValue, Span, ReadQuoted, Unquoted, Quotable;
    if ' ' in after {
      ReadToSpace(after, "\"" + raw + "\"" + rest);
    } else {
      ReadPastQuote(after, raw, rest);
    }
  }

  lemma ReadToSpace(after: string, behind: string)
    requires ' ' in after && forall i | 0 <= i < |after| :: after[i] == ' ' || after[i] == '\t'
    ensures var k := Span(after, " "); ReadValue(after + behind) == Read(after[..k], after[k..] + behind)
  {
    hide Span, ReadQuoted;
    var u, k := after + behind, Span(after, " ");
    Slices(after, behind, k);
    forall i | 0 <= i < k ensures u[i] !in ", " {
      assert u[i] == after[i] && after[i] !in " ";
    }
    assert k < |after| && u[k] == after[k] && u[0] == after[0];
    SpanIs(u, ", ", k);
  }

  lemma Slices(a: string, b: string, k: nat)
    requires k <= |a|
    ensures (a + b)[..k] == a[..k] && (a + b)[k..] == a[k..] + b
  {
  }

  lemma ReadPastQuote(after: string, raw: string, rest: string)
    requires Quotable(raw) && after != "" && forall i | 0 <= i < |after| :: after[i] == '\t'
    ensures ReadValue(after + ("\"" + raw + "\"" + rest)).value != Unquoted(raw)
  {
    hide Span, ReadQuoted, Unquoted, Quotable;
    var u := after + ("\"" + raw + "\"" + rest);
    var n := Span(u, ", ");
    var inside := |after| + 1;
    assert u[0] == after[0];
    UnquotedKeeps(raw, ',');
    UnquotedKeeps(raw, ' ');
    assert forall i | 0 <= i < |raw| :: u[inside + i] == raw[i];
    if ',' !in raw && ' ' !in raw {
      assert forall i | 0 <= i < inside + |raw| + 1 :: u[i] !in ", ";
      assert n > |raw|;
    }
  }

  // Reading one printed value gives its meaning exactly when the parameter is
  // tight, unless white space hides a quoted value.
  lemma ValueRoundTrip(p: Param, rest: string)
    requires p.WellFormed() && p.before == "" && (rest != "" ==> Separator(rest[0]))
    requires p.value.Quoted? ==> p.after == ""
    ensures var r := ReadValue(p.after + p.value.Print() + rest);
      if p.Tight(rest) then r == Read(p.value.Meaning(), rest) else r.value != p.value.Meaning()
  {
    hide ReadValue, ReadQuoted, Unquoted, Quotable, Span;
    match p.value
    case Quoted(raw) =>
      QuotedValue(raw, rest);
      assert p.after + p.value.Print() + rest == "\"" + raw + "\"" + rest;
    case Token(text) =>
      if p.after == "" {
        assert p.after + text + rest == text + rest;
        TokenRoundTrip(text, rest);
      } else {
        assert p.after[0] == (p.before + p.after)[0];
        TokenHidden(p.after, text, rest);
      }
  }

  // ---- the round trip ----

  lemma FirstOf(gap: string, key: string, v: string)
    requires (forall i | 0 <= i < |gap| :: Separator(gap[i])) && key != "" && !Separator(key[0])
    requires forall i | 0 <= i < |key| :: key[i] != '='
    ensures First(gap + key + "=" + v) == Found(Pair(key, ReadValue(v).value), ReadValue(v).rest)
  {
    hide ReadValue, Span, Skip, First;
    var s, t := gap + key + "=" + v, key + "=" + v;
    assert s[|gap|] == key[0];
    SkipIs(s, |gap|);
    assert s[|gap|..] == t;
    SpanIs(t, "=", |key|);
    FirstFound(s, |gap|, |key|);
    assert s[|gap|..|gap| + |key|] == key && s[|gap| + |key| + 1..] == v;
  }

  // Where the name of a printed parameter starts and ends.
  lemma NameFound(p: Param, rest: string)
    requires p.WellFormed()
    ensures var s := p.Print() + rest;
      var r := ReadValue(p.after + p.value.Print() + rest);
      First(s) == Found(Pair(p.name + p.before, r.value), r.rest)
  {
    hide ReadValue, Span, Skip, First;
    var key, v := p.name + p.before, p.after + p.value.Print() + rest;
    assert p.Print() + rest == p.gap + key + "=" + v;
    forall i | 0 <= i < |key| ensures key[i] != '=' {
      if i >= |p.name| {
        assert key[i] == (p.before + p.after)[i - |p.name|];
      }
    }
    FirstOf(p.gap, key, v);
  }

  // Reading one printed parameter.
  lemma ParamRoundTrip(p: Param, rest: string)
    requires p.WellFormed() && (rest != "" ==> Separator(rest[0]))
    requires p.before == "" && p.value.Quoted? ==> p.after == ""
    ensures var step := First(p.Print() + rest);
      if p.Tight(rest) then step == Found(p.Meaning(), rest) else step.Found? && step.pair != p.Meaning()
  {
    hide ReadValue, First;
    NameFound(p, rest);
    if p.before == "" {
      assert p.name + p.before == p.name;
      ValueRoundTrip(p, rest);
    } else {
      assert |p.name + p.before| > |p.name|;
    }
  }

  lemma TailWellFormed(ps: seq<Param>)
    requires ps != [] && WellFormed(ps)
    ensures ps[0].WellFormed() && WellFormed(ps[1..])
  {
  }

  // A quoted text in front of a separator is read as part of a name.
  lemma QuoteInName(raw: string, rest: string)
    requires '=' !in raw && (rest != "" ==> Separator(rest[0]))
    ensures var step := First("\"" + raw + "\"" + rest);
      if rest == "" then step == Stop else step.Found? ==> rest[0] in step.pair.name
  {
    hide ReadValue, Span, Skip, First;
    var s, n := "\"" + raw + "\"" + rest, |raw| + 2;
    SkipIs(s, 0);
    assert s[0..] == s;
    assert forall i | 0 <= i < |raw| :: s[i + 1] == raw[i];
    var k := Span(s, "=");
    assert forall i | 0 <= i < n :: s[i] !in "=";
    if rest == "" {
      assert k == |s|;
      NoName(s);
    } else {
      assert s[n] == rest[0];
      assert k > n;
      if k < |s| {
        FirstFound(s, 0, k);
        assert s[0..k][n] == rest[0];
      } else {
        NoName(s);
      }
    }
  }

  lemma NoName(s: string)
    requires Skip(s) == 0 && Span(s, "=") == |s|
    ensures First(s) == Stop
  {
    hide Skip, Span, ReadValue;
    assert s[0..] == s;
  }

  // The first parameter, if white space hides its quoted value.
  lemma HiddenFirst(p: Param, rest: string)
    requires p.WellFormed() && p.before == "" && p.value.Quoted? && p.after != ""
    ensures var behind, k := "\"" + p.value.raw + "\"" + rest, Span(p.after, " ");
      var step := First(p.Print() + rest);
      if ' ' in p.after then step == Found(Pair(p.name, p.after[..k]), p.after[k..] + behind)
      else step.Found? && step.pair != p.Meaning()
  {
    hide First, ReadValue, Unquoted, Quotable, Span;
    NameFound(p, rest);
    assert p.name + p.before == p.name;
    assert forall i | 0 <= i < |p.after| :: p.after[i] == (p.before + p.after)[i];
    QuoteHidden(p.after, p.value.raw, rest);
    assert p.after + p.value.Print() + rest == p.after + ("\"" + p.value.raw + "\"" + rest);
  }

  // What is read behind such a parameter: nothing at the end, else another name.
  lemma BehindQuote(gap: string, raw: string, rest: string)
    requires '=' !in raw && (rest != "" ==> Separator(rest[0])) && forall i | 0 <= i < |gap| :: Separator(gap[i])
    ensures var pairs := Scan(gap + ("\"" + raw + "\"" + rest));
      if rest == "" then pairs == [] else pairs == [] || rest[0] in pairs[0].name
  {
    hide First, Scan;
    var behind := "\"" + raw + "\"" + rest;
    GapSkipped(gap, behind);
    QuoteInName(raw, rest);
    ScanFound(behind);
  }

  lemma HiddenQuote(ps: seq<Param>)
    requires ps != [] && WellFormed(ps) && ps[0].before == "" && ps[0].value.Quoted? && ps[0].after != ""
    ensures Scan(Print(ps)) == Meaning(ps) <==> |ps| == 1 && ps[0].StandsIn()
  {
    hide First, Unquoted, Quotable, Span, Scan, Print, WellFormed, Meaning;
    var p, raw, rest := ps[0], ps[0].value.raw, Print(ps[1..]);
    TailWellFormed(ps);
    PrintCons(ps);
    MeaningCons(ps);
    RestStarts(ps);
    HiddenFirst(p, rest);
    ScanFound(Print(ps));
    var k := Span(p.after, " ");
    if p.StandsIn() {
      AfterIsBlank(p);
      UnquotedKeeps(raw, '=');
      BehindQuote(p.after[k..], raw, rest);
      assert First(Print(ps)).pair == p.Meaning();
      SamePairs(p.Meaning(), Scan(First(Print(ps)).rest), Meaning(ps[1..]));
      if |ps| > 1 {
        OtherName(ps[1..], rest[0]);
      }
    } else {
      assert First(Print(ps)).pair != p.Meaning();
      assert Scan(Print(ps))[0] != Meaning(ps)[0];
    }
  }

  lemma MeaningCons(ps: seq<Param>)
    requires ps != []
    ensures Meaning(ps) == [ps[0].Meaning()] + Meaning(ps[1..]) && (|ps| == 1 ==> Meaning(ps[1..]) == [])
  {
  }

  lemma AfterIsBlank(p: Param)
    requires p.WellFormed()
    ensures forall i | 0 <= i < |p.after| :: p.after[i] == ' ' || p.after[i] == '\t'
  {
    assert forall i | 0 <= i < |p.after| :: p.after[i] == (p.before + p.after)[|p.before| + i];
  }

  lemma PrintCons(ps: seq<Param>)
    requires ps != []
    ensures Print(ps) == ps[0].Print() + Print(ps[1..])
  {
  }

  // Scanning, one step at a time.
  lemma ScanFound(s: string)
    ensures Scan(s) == if First(s).Found? then [First(s).pair] + Scan(First(s).rest) else []
  {
    hide First;
  }

  lemma OtherName(ps: seq<Param>, ch: char)
    requires ps != [] && WellFormed(ps) && Separator(ch)
    ensures Meaning(ps) != [] && ch !in Meaning(ps)[0].name
  {
    assert ps[0].WellFormed();
  }

  // Scanning a printed list gives its meaning exactly when the first parameter
  // is tight and the others are read right.
  lemma ScanNext(ps: seq<Param>)
    requires ps != [] && WellFormed(ps)
    ensures var rest := Print(ps[1..]);
      Scan(Print(ps)) == Meaning(ps) <==> ps[0].Tight(rest) && Scan(rest) == Meaning(ps[1..])
  {
    hide First, Scan;
    var p, rest := ps[0], Print(ps[1..]);
    RestStarts(ps);
    if p.before == "" && p.value.Quoted? && p.after != "" {
      HiddenQuote(ps);
      NothingToScan();
      assert |ps| == 1 ==> ps[1..] == [];
    } else {
      ParamRoundTrip(p, rest);
      ScanFound(Print(ps));
      SamePairs(p.Meaning(), Scan(rest), Meaning(ps[1..]));
    }
  }

  lemma SamePairs(a: Pair, s: seq<Pair>, t: seq<Pair>)
    ensures [a] + s == [a] + t <==> s == t
  {
    assert ([a] + s)[1..] == s && ([a] + t)[1..] == t;
  }

  // Scanning a printed parameter list gives its meaning exactly when it is tight.
  lemma {:induction false} ScanRoundTrip(ps: seq<Param>)
    requires WellFormed(ps)
    ensures Scan(Print(ps)) == Meaning(ps) <==> Tight(ps)
  {
    if ps == [] {
      NothingToScan();
    } else {
      hide Scan, Print, WellFormed, Tight;
      TailWellFormed(ps);
      ScanNext(ps);
      ScanRoundTrip(ps[1..]);
      TightNext(ps);
    }
  }

  lemma RestStarts(ps: seq<Param>)
    requires ps != [] && WellFormed(ps)
    ensures var rest := Print(ps[1..]);
      if |ps| == 1 then rest == "" else rest != "" && Separator(rest[0]) && rest[0] == ps[1].gap[0]
  {
    if |ps| > 1 {
      assert Print(ps[1..]) == ps[1].Print() + Print(ps[1..][1..]);
    }
  }

  lemma TightNext(ps: seq<Param>)
    requires ps != [] && WellFormed(ps)
    ensures Tight(ps) <==> ps[0].Tight(Print(ps[1..])) && Tight(ps[1..])
  {
    hide Print;
    RestStarts(ps);
    var tail := ps[1..];
    assert forall i | 0 <= i < |tail| :: tail[i] == ps[i + 1] && Behind(tail, i) == Behind(ps, i + 1);
    SameStart(ps[0], Print(tail), Behind(ps, 0));
    if ps[0].Tight(Print(tail)) && Tight(tail) {
      forall i | 0 <= i < |ps| ensures ps[i].Tight(Behind(ps, i)) {
        if i > 0 {
          assert tail[i - 1].Tight(Behind(tail, i - 1));
        }
      }
    }
    if Tight(ps) {
      assert ps[0].Tight(Behind(ps, 0));
      forall i | 0 <= i < |tail| ensures tail[i].Tight(Behind(tail, i)) {
        assert ps[i + 1].Tight(Behind(ps, i + 1));
      }
    }
  }

  // Only the first character behind a parameter matters to it.
  lemma SameStart(p: Param, a: string, b: string)
    requires (a == "" <==> b == "") && (a != "" ==> a[0] == b[0])
    ensures p.Tight(a) <==> p.Tight(b)
  {
  }

  lemma GapSkipped(gap: string, body: string)
    requires (forall i | 0 <= i < |gap| :: Separator(gap[i])) && body != "" && !Separator(body[0])
    ensures Scan(gap + body) == Scan(body)
  {
    hide Span, ReadValue, Skip;
    assert (gap + body)[|gap|] == body[0];
    SkipIs(gap + body, |gap|);
    SkipIs(body, 0);
    assert (gap + body)[|gap|..] == body && body[0..] == body;
    assert First(gap + body) == First(body);
  }

  // Trimming takes only separators off the front of a printed list.
  lemma {:induction false} TrimmedStart(gap: string, body: string) returns (j: nat)
    requires body != "" && !Blank(body[0])
    ensures j <= |gap| && TrimStart(gap + body) == gap[j..] + body
  {
    if gap == "" {
      assert gap + body == body;
      j := 0;
    } else if Blank(gap[0]) {
      j := TrimmedStart(gap[1..], body);
      assert (gap + body)[1..] == gap[1..] + body;
      j := j + 1;
    } else {
      j := 0;
    }
  }

  // A printed list ends in a token character or a quote.
  lemma {:induction false} PrintEnds(ps: seq<Param>)
    requires ps != [] && WellFormed(ps)
    ensures var s := Print(ps); s != "" && !Blank(s[|s| - 1])
  {
    var one := ps[0].Print();
    var v := ps[0].value.Print();
    assert one[|one| - 1] == v[|v| - 1];
    if |ps| > 1 {
      PrintEnds(ps[1..]);
      assert Print(ps)[|Print(ps)| - 1] == Print(ps[1..])[|Print(ps[1..])| - 1];
    }
  }

  // A printed list is its first gap and then a name.
  lemma PrintSplits(ps: seq<Param>) returns (body: string)
    requires ps != [] && WellFormed(ps)
    ensures Print(ps) == ps[0].gap + body && body != "" && Solid(body[0])
    ensures forall i | 0 <= i < |ps[0].gap| :: Separator(ps[0].gap[i])
  {
    assert ps[0].WellFormed();
    assert Print(ps) == ps[0].Print() + Print(ps[1..]);
    hide Print, WellFormed;
    var core := ParamSplits(ps[0]);
    body := core + Print(ps[1..]);
    Regroup(ps[0].gap, core, Print(ps[1..]));
  }

  lemma ParamSplits(p: Param) returns (core: string)
    requires p.WellFormed()
    ensures p.Print() == p.gap + core && core != "" && Solid(core[0])
  {
    core := p.name + p.before + "=" + p.after + p.value.Print();
    assert core[0] == p.name[0];
  }

  lemma TrimKeepsScan(ps: seq<Param>)
    requires WellFormed(ps)
    ensures Scan(TrimEnd(TrimStart(Print(ps)))) == Scan(Print(ps))
  {
    if ps != [] {
      hide Scan, WellFormed, TrimStart, TrimEnd, Print;
      PrintEnds(ps);
      var gap := ps[0].gap;
      var body := PrintSplits(ps);
      var j := Trimmed(gap, body);
      GapSkipped(gap, body);
      GapSkipped(gap[j..], body);
    }
  }

  lemma Trimmed(gap: string, body: string) returns (j: nat)
    requires body != "" && !Blank(body[0]) && !Blank((gap + body)[|gap + body| - 1])
    ensures j <= |gap| && TrimEnd(TrimStart(gap + body)) == gap[j..] + body
  {
    hide TrimStart, Blank;
    j := TrimmedStart(gap, body);
    var s := gap[j..] + body;
    assert s[|s| - 1] == body[|body| - 1] == (gap + body)[|gap + body| - 1];
  }

  // Any challenge, with its names in any order and repeated at will: what the
  // scanner returns is what the printed parameters mean, the last one winning.
  lemma HeaderRoundTrip(scheme: string, ps: seq<Param>)
    requires |scheme| == 8 && HasScheme(scheme) && WellFormed(ps) && Tight(ps)
    ensures Parsed(scheme + Print(ps)) == FromParams(Collapse(Meaning(ps)))
  {
    hide Scan, Collapse, Print, WellFormed, Tight;
    var header := scheme + Print(ps);
    assert header[8..] == Print(ps);
    TrimKeepsScan(ps);
    ScanRoundTrip(ps);
  }

  ghost predicate Names(pairs: seq<Pair>, name: string) {
    exists i :: 0 <= i < |pairs| && pairs[i].name == name
  }

  // A parameter list is a challenge exactly when all five required names occur.
  lemma AcceptedExactly(pairs: seq<Pair>)
    ensures FromParams(Collapse(pairs)).Ok? <==> forall k | 0 <= k < |REQUIRED| :: Names(pairs, REQUIRED[k])
  {
    hide Collapse;
    forall k | 0 <= k < |REQUIRED|
      ensures REQUIRED[k] in Collapse(pairs) <==> Names(pairs, REQUIRED[k])
    {
      LastWins(pairs, REQUIRED[k]);
    }
  }

  function Fields(c: Challenge): seq<Pair> {
    [Pair("id", c.id), Pair("realm", c.realm), Pair("method", c.method_), Pair("intent", c.intent), Pair("request", c.request)]
    + (if c.expires.Some? then [Pair("expires", c.expires.value)] else [])
    + if c.description.Some? then [Pair("description", c.description.value)] else []
  }

  // Printing a pair with the least quoting.
  function Quote(p: Pair): Param {
    Param(", ", p.name, "", "", Quoted(Escaped(p.value)))
  }

  function QuoteAll(pairs: seq<Pair>): seq<Param> {
    if pairs == [] then [] else [Quote(pairs[0])] + QuoteAll(pairs[1..])
  }

  predicate LowerCase(name: string) {
    name != "" && forall k | 0 <= k < |name| :: 'a' <= name[k] <= 'z'
  }

  lemma QuoteMeans(p: Pair)
    requires LowerCase(p.name)
    ensures Quote(p).WellFormed() && Quote(p).Meaning() == p
  {
    EscapedMeans(p.value);
  }

  lemma {:induction false} QuoteAllMeans(pairs: seq<Pair>)
    requires forall i | 0 <= i < |pairs| :: LowerCase(pairs[i].name)
    ensures |QuoteAll(pairs)| == |pairs| && forall i | 0 <= i < |pairs| :: QuoteAll(pairs)[i] == Quote(pairs[i])
    ensures Meaning(QuoteAll(pairs)) == pairs
  {
    if pairs != [] {
      hide Quote, LowerCase;
      QuoteAllMeans(pairs[1..]);
      QuoteMeans(pairs[0]);
      assert QuoteAll(pairs)[1..] == QuoteAll(pairs[1..]);
    }
  }

  lemma QuoteAllPrintable(pairs: seq<Pair>)
    requires forall i | 0 <= i < |pairs| :: LowerCase(pairs[i].name)
    ensures WellFormed(QuoteAll(pairs)) && Tight(QuoteAll(pairs)) && Meaning(QuoteAll(pairs)) == pairs
  {
    hide LowerCase, Escaped;
    QuoteAllMeans(pairs);
    forall i | 0 <= i < |pairs| ensures Quote(pairs[i]).WellFormed() {
      QuoteMeans(pairs[i]);
    }
  }

  lemma FieldsRebuild(c: Challenge)
    ensures FromParams(Collapse(Fields(c))) == Ok(c)
  {
    hide Collapse;
    var f := Fields(c);
    var required :=
      map["id" := c.id, "realm" := c.realm, "method" := c.method_, "intent" := c.intent, "request" := c.request];
    assert Collapse(f[..5]) == required by {
      assert f[..0] == [];
      EmptyCollapse();
      CollapsePrefix(f, 0);
      CollapsePrefix(f, 1);
      CollapsePrefix(f, 2);
      CollapsePrefix(f, 3);
      CollapsePrefix(f, 4);
    }
    if |f| > 5 {
      CollapsePrefix(f, 5);
    }
    if |f| > 6 {
      CollapsePrefix(f, 6);
    }
    assert f[..|f|] == f;
  }

  lemma EmptyCollapse()
    ensures Collapse([]) == map[]
  {
  }

  lemma CollapsePrefix(pairs: seq<Pair>, k: nat)
    requires k < |pairs|
    ensures Collapse(pairs[..k + 1]) == Collapse(pairs[..k])[pairs[k].name := pairs[k].value]
  {
    assert pairs[..k + 1] == pairs[..k] + [pairs[k]];
    CollapseNext(pairs[..k], pairs[k]);
  }

  // Every challenge, whatever its values contain, survives printing and parsing.
  lemma ChallengeRoundTrip(c: Challenge)
    ensures Parsed("Payment " + Print(QuoteAll(Fields(c)))) == Ok(c)
  {
    hide Print, QuoteAll, WellFormed, Tight, Meaning, Collapse, FromParams, Parsed;
    QuoteAllPrintable(Fields(c));
    FieldsRebuild(c);
    HeaderRoundTrip("Payment ", QuoteAll(Fields(c)));
  }
}
