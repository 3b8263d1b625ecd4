// The challenge-binding secret kept in `.env` (go/paykit/preflight.go): reading
// a key, appending a key, and what the next boot resolves. A file is its text,
// or nothing when it does not exist.
module Dotenv {
  import opened Common
  import opened KeyTable

  // ---- lines ----

  function FindChar(s: string, ch: char): (p: nat)
    ensures p <= |s| && (forall i | 0 <= i < p :: s[i] != ch) && (p < |s| ==> s[p] == ch)
  {
    if s == "" || s[0] == ch then 0 else 1 + FindChar(s[1..], ch)
  }

  lemma FindCharIs(s: string, ch: char, p: nat)
    requires p <= |s| && (forall i | 0 <= i < p :: s[i] != ch) && (p < |s| ==> s[p] == ch)
    ensures FindChar(s, ch) == p
  {
  }

  function DropReturn(line: string): string {
    if line != "" && line[|line| - 1] == '\r' then line[..|line| - 1] else line
  }

  // bufio.ScanLines: a last line without its newline counts, an empty one does not.
  function Lines(text: string): seq<string>
    decreases |text|
  {
    if text == "" then []
    else
      var p := FindChar(text, '\n');
      [DropReturn(text[..p])] + if p < |text| then Lines(text[p + 1..]) else []
  }

  predicate Ended(text: string) {
    text == "" || text[|text| - 1] == '\n'
  }

  lemma NextLine(text: string, p: nat)
    requires p < |text| && text[p] == '\n' && forall i | 0 <= i < p :: text[i] != '\n'
    ensures Lines(text) == [DropReturn(text[..p])] + Lines(text[p + 1..])
  {
    hide DropReturn;
    FindCharIs(text, '\n', p);
  }

  lemma LastLine(text: string)
    requires '\n' !in text
    ensures Lines(text) == if text == "" then [] else [DropReturn(text)]
  {
    hide DropReturn;
    FindCharIs(text, '\n', |text|);
    assert text[..|text|] == text;
  }

  // A newline ends the last line, or adds an empty one.
  lemma {:induction false} LinesAppend(text: string, rest: string)
    ensures Lines(text + "\n" + rest) == Lines(text) + (if Ended(text) then [""] else []) + Lines(rest)
    decreases |text|
  {
    hide Lines;
    var whole := text + "\n" + rest;
    var p := FindChar(text, '\n');
    assert forall i | 0 <= i < |text| :: whole[i] == text[i];
    NextLine(whole, p);
    assert whole[..p] == text[..p];
    if p < |text| {
      var tail := text[p + 1..];
      assert whole[p + 1..] == tail + "\n" + rest;
      LinesAppend(tail, rest);
      NextLine(text, p);
      assert Ended(tail) == Ended(text);
    } else {
      assert whole[p + 1..] == rest && text[..p] == text;
      LastLine(text);
    }
  }

  // ---- reading a key ----

  // Go's unicode.IsSpace.
  predicate Space(ch: char) {
    || '\t' <= ch <= '\r' || ch == ' ' || ch == '\U{85}' || ch == '\U{A0}' || ch == '\U{1680}'
    || '\U{2000}' <= ch <= '\U{200A}' || ch == '\U{2028}' || ch == '\U{2029}'
    || ch == '\U{202F}' || ch == '\U{205F}' || ch == '\U{3000}'
  }

  function Trim(s: string): string {
    if s == "" then ""
    else if Space(s[0]) then Trim(s[1..])
    else if Space(s[|s| - 1]) then Trim(s[..|s| - 1])
    else s
  }

  // The name in front of the first `=` of a line that is not a comment.
  function NameOf(line: string): Option<string> {
    var t := Trim(line);
    var p := FindChar(t, '=');
    if t == "" || t[0] == '#' || p == |t| then None else Some(Trim(t[..p]))
  }

  function Unquote(val: string): string {
    if |val| >= 2 && val[0] == val[|val| - 1] && (val[0] == '"' || val[0] == '\'') then val[1..|val| - 1] else val
  }

  function ValueOf(line: string): string
    requires NameOf(line).Some?
  {
    var t := Trim(line);
    Unquote(Trim(t[FindChar(t, '=') + 1..]))
  }

  // The value of the first line that names the key.
  function FirstValue(lines: seq<string>, key: string): Option<string> {
    if lines == [] then None
    else if NameOf(lines[0]) == Some(key) then Some(ValueOf(lines[0]))
    else FirstValue(lines[1..], key)
  }

  function Named(file: Option<string>, key: string): Option<string> {
    if file.None? then None else FirstValue(Lines(file.value), key)
  }

  lemma {:induction false} FirstValueAppend(a: seq<string>, b: seq<string>, key: string)
    ensures FirstValue(a + b, key) == if FirstValue(a, key).Some? then FirstValue(a, key) else FirstValue(b, key)
  {
    if a == [] {
      assert a + b == b;
    } else {
      hide NameOf, ValueOf;
      FirstValueAppend(a[1..], b, key);
      assert (a + b)[1..] == a[1..] + b;
    }
  }

  lemma EmptyLineNamesNothing()
    ensures NameOf("") == None
  {
  }

  // What a reader sees of a text with more behind it.
  lemma NamedAppend(text: string, rest: string, key: string)
    ensures var before := Named(Some(text), key);
      Named(Some(text + "\n" + rest), key) == if before.Some? then before else Named(Some(rest), key)
  {
    hide Lines, NameOf, ValueOf;
    var blank: seq<string> := if Ended(text) then [""] else [];
    LinesAppend(text, rest);
    EmptyLineNamesNothing();
    assert FirstValue(blank, key) == None;
    FirstValueAppend(Lines(text) + blank, Lines(rest), key);
    FirstValueAppend(Lines(text), blank, key);
  }

  // ---- appending a key ----

  predicate PlainValue(s: string) {
    forall i | 0 <= i < |s| :: !Space(s[i]) && s[i] != '"' && s[i] != '\''
  }

  predicate PlainKey(s: string) {
    s != "" && s[0] != '#' && '=' !in s && forall i | 0 <= i < |s| :: !Space(s[i])
  }

  function Entry(key: string, value: string): string {
    key + "=" + value + "\n"
  }

  function Upto(s: string, n: nat): string {
    if n < |s| then s[..n] else s
  }

  // The file after appendToDotenv: nothing if it cannot be opened; otherwise it
  // exists and has as much of the new text as there is room for.
  function Appended(file: Option<string>, key: string, value: string, opens: bool, room: nat): Option<string> {
    if !opens then file
    else if file.None? then Some(Upto(Entry(key, value), room))
    else Some(file.value + Upto("\n" + Entry(key, value), room))
  }

  // How much of an entry itself is written: the newline in front of it goes first.
  function Written(file: Option<string>, opens: bool, room: nat): int {
    if !opens then 0 else if file.Some? then room - 1 else room
  }

  // Whether all of it was written.
  predicate Complete(file: Option<string>, key: string, value: string, opens: bool, room: nat) {
    opens && room >= |Entry(key, value)| + if file.Some? then 1 else 0
  }

  // That is when the file ends in the whole entry, on a line of its own.
  lemma CompleteMeansWhole(file: Option<string>, key: string, value: string, opens: bool, room: nat)
    ensures var whole := if file.None? then key + "=" + value + "\n" else file.value + "\n" + key + "=" + value + "\n";
      Complete(file, key, value, opens, room) <==> opens && Appended(file, key, value, opens, room) == Some(whole)
  {
    if file.Some? {
      assert file.value + "\n" + key + "=" + value + "\n" == file.value + ("\n" + Entry(key, value));
    }
  }

  lemma TrimPlain(s: string)
    requires forall i | 0 <= i < |s| :: !Space(s[i])
    ensures Trim(s) == s
  {
  }

  // A line that is cut off behind its `=`, and one cut off before it.
  lemma PlainLine(key: string, value: string)
    requires PlainKey(key) && PlainValue(value)
    ensures NameOf(key + "=" + value) == Some(key) && ValueOf(key + "=" + value) == value
  {
    var w := key + "=" + value;
    TrimPlain(w);
    assert forall i | 0 <= i < |key| :: w[i] == key[i];
    assert w[|key|] == '=';
    FindCharIs(w, '=', |key|);
    assert w[..|key|] == key && w[|key| + 1..] == value;
    TrimPlain(key);
    TrimPlain(value);
  }

  lemma NamelessLine(w: string)
    requires '=' !in w && forall i | 0 <= i < |w| :: !Space(w[i])
    ensures NameOf(w) == None
  {
    TrimPlain(w);
  }

  // One line of text without white space in it, ended or not.
  lemma OneLine(w: string, key: string)
    requires forall i | 0 <= i < |w| :: !Space(w[i])
    ensures var named := if NameOf(w) == Some(key) then Some(ValueOf(w)) else None;
      Named(Some(w), key) == named && Named(Some(w + "\n"), key) == named
  {
    hide NameOf, ValueOf, Lines;
    LastLine(w);
    var t := w + "\n";
    NextLine(t, |w|);
    LastLine("");
    assert t[..|w|] == w && t[|w| + 1..] == "";
    OneValue(w, key);
    EmptyLineNamesNothing();
  }

  lemma OneValue(w: string, key: string)
    ensures FirstValue([w], key) == if NameOf(w) == Some(key) then Some(ValueOf(w)) else None
  {
    hide NameOf, ValueOf;
    assert [w][1..] == [];
  }

  // What a reader finds in the part of an entry that was written.
  lemma EntryRead(key: string, value: string, n: nat, k: string)
    requires PlainKey(key) && PlainValue(value)
    ensures Named(Some(Upto(Entry(key, value), n)), k) ==
      if k == key && n > |key| then Some(Upto(value, n - |key| - 1)) else None
  {
    hide NameOf, ValueOf, Lines, FirstValue, Named;
    var e := Entry(key, value);
    if n <= |key| {
      assert e[..n] == key[..n];
      NamelessLine(key[..n]);
      OneLine(key[..n], k);
    } else {
      var v := Upto(value, n - |key| - 1);
      var w := key + "=" + v;
      PlainLine(key, v);
      OneLine(w, k);
      if n < |e| {
        assert e[..n] == w;
      } else {
        assert Upto(e, n) == w + "\n";
      }
    }
  }

  // How much of an entry is written: less than the leading newline is nothing.
  lemma AppendRead(file: Option<string>, key: string, value: string, opens: bool, room: nat, k: string)
    requires PlainKey(key) && PlainValue(value)
    ensures var before, written := Named(file, k), Written(file, opens, room);
      Named(Appended(file, key, value, opens, room), k) ==
        if before.None? && k == key && written > |key| then Some(Upto(value, written - |key| - 1)) else before
  {
    hide Named, Entry;
    if opens {
      NothingNamed(k);
      if file.None? {
        NoFile(k);
        EntryRead(key, value, room, k);
      } else if room == 0 {
        assert file.value + "" == file.value;
      } else {
        assert Upto("\n" + Entry(key, value), room) == "\n" + Upto(Entry(key, value), room - 1);
        assert file.value + ("\n" + Upto(Entry(key, value), room - 1)) == file.value + "\n" + Upto(Entry(key, value), room - 1);
        EntryRead(key, value, room - 1, k);
        NamedAppend(file.value, Upto(Entry(key, value), room - 1), k);
      }
    }
  }

  lemma NoFile(k: string)
    ensures Named(None, k) == None
  {
  }

  lemma NothingNamed(k: string)
    ensures Named(Some(""), k) == None
  {
  }

  // Every other key reads as before, however much of the entry was written and
  // whether or not the file ended in a newline.
  lemma OtherKeysUntouched(file: Option<string>, key: string, value: string, opens: bool, room: nat, k: string)
    requires PlainKey(key) && PlainValue(value) && k != key
    ensures Named(Appended(file, key, value, opens, room), k) == Named(file, k)
  {
    AppendRead(file, key, value, opens, room, k);
  }

  // The value is read back exactly when the key had it before, or had no line
  // and the whole value was written.
  lemma AppendedIsRead(file: Option<string>, key: string, value: string, opens: bool, room: nat)
    requires PlainKey(key) && PlainValue(value)
    ensures var before, after := Named(file, key), Named(Appended(file, key, value, opens, room), key);
      var kept := if before.Some? then before.value == value else Written(file, opens, room) > |key| + |value|;
      after == Some(value) <==> kept
  {
    hide Named, Appended;
    AppendRead(file, key, value, opens, room, key);
  }

  // ---- boots ----

  const SECRET_KEY: string := "PAY_KIT_MPP_CHALLENGE_BINDING_SECRET"

  lemma SecretIsPlain(secret: bytes)
    ensures PlainKey(SECRET_KEY) && PlainValue(Hex(secret))
  {
    HexIsPlain(secret);
  }

  lemma {:induction false} HexIsPlain(bs: bytes)
    ensures PlainValue(Hex(bs))
  {
    if bs != [] {
      HexIsPlain(bs[1..]);
      assert Hex(bs) == [HexDigit(bs[0] / 16), HexDigit(bs[0] % 16)] + Hex(bs[1..]);
    }
  }

  // The three steps of resolveMPPSecret. random is None when the system has no
  // random bytes to give.
  function Resolved(env: string, file: Option<string>, random: Option<bytes>): Result<string> {
    if env != "" then Ok(env)
    else if Named(file, SECRET_KEY).GetOr("") != "" then Ok(Named(file, SECRET_KEY).value)
    else if random.None? then Err("failed to generate MPP secret")
    else Ok(Hex(random.value))
  }

  function FileAfter(env: string, file: Option<string>, random: Option<bytes>, opens: bool, room: nat): Option<string> {
    if env != "" || Named(file, SECRET_KEY).GetOr("") != "" || random.None? then file
    else Appended(file, SECRET_KEY, Hex(random.value), opens, room)
  }

  // The environment comes first, whatever the file says, and then the file is
  // left alone; there is no secret exactly if no step has one.
  lemma StepsInOrder(env: string, file: Option<string>, random: Option<bytes>, opens: bool, room: nat)
    ensures env != "" ==> Resolved(env, file, random) == Ok(env) && FileAfter(env, file, random, opens, room) == file
    ensures Resolved(env, file, random).Err? <==> env == "" && Named(file, SECRET_KEY).GetOr("") == "" && random.None?
  {
    hide Named;
  }

  // ---- what lines say ----

  ghost predicate Blank(s: string) {
    forall i | 0 <= i < |s| :: Space(s[i])
  }

  predicate Tight(s: string) {
    s == "" || (!Space(s[0]) && !Space(s[|s| - 1]))
  }

  predicate Quote(ch: char) {
    ch == '"' || ch == '\''
  }

  lemma {:induction false} TrimTight(a: string, t: string, b: string)
    requires Blank(a) && Tight(t) && Blank(b)
    ensures Trim(a + t + b) == t
    decreases |a| + |b|
  {
    hide Space;
    var s := a + t + b;
    if a != "" {
      TrimTight(a[1..], t, b);
      assert s[0] == a[0] && s[1..] == a[1..] + t + b;
    } else if b != "" {
      TrimTight(a, t, b[..|b| - 1]);
      assert s[|s| - 1] == b[|b| - 1] && s[..|s| - 1] == a + t + b[..|b| - 1];
      if Space(s[0]) {
        BlankTail(t, b);
      }
    } else {
      assert s == t;
    }
  }

  lemma {:induction false} BlankTail(t: string, b: string)
    requires Tight(t) && Blank(b) && b != "" && Space((t + b)[0])
    ensures t == "" && Trim(t + b) == ""
  {
    hide Space;
    assert t == "";
    assert t + b == b;
    BlankTrims(b);
  }

  lemma {:induction false} BlankTrims(b: string)
    requires Blank(b)
    ensures Trim(b) == ""
  {
    hide Space;
    if b != "" {
      BlankTrims(b[1..]);
    }
  }

  lemma {:induction false} TrimParts(s: string) returns (a: string, b: string)
    ensures Blank(a) && Tight(Trim(s)) && Blank(b) && s == a + Trim(s) + b
    decreases |s|
  {
    hide Space;
    a, b := "", "";
    if s != "" && Space(s[0]) {
      a, b := TrimParts(s[1..]);
      a := [s[0]] + a;
    } else if s != "" && Space(s[|s| - 1]) {
      a, b := TrimParts(s[..|s| - 1]);
      b := b + [s[|s| - 1]];
    }
  }

  // A name a line can define.
  predicate NameText(key: string) {
    key != "" && Tight(key) && '=' !in key && key[0] != '#'
  }

  // A definition: blanks may stand around the name and around the value.
  lemma DefinitionParts(a: string, key: string, b: string, c: string, w: string, d: string)
    requires Blank(a) && Blank(b) && Blank(c) && Blank(d) && NameText(key) && Tight(w)
    ensures var line := a + key + b + "=" + c + w + d;
      NameOf(line) == Some(key) && ValueOf(line) == Unquote(w)
  {
    hide Space, Trim, Unquote;
    EqualsIsNoSpace();
    if w == "" {
      BareDefinition(key, b, "");
      var t := key + b + "=" + "";
      assert t[0] == key[0] && t[|t| - 1] == '=';
      Regroup(a, key, b, "", c + "" + d);
      assert a + key + b + "=" + c + "" + d == a + key + b + "=" + "" + (c + "" + d);
      TrimTight(a, t, c + "" + d);
      BlankTrims("");
    } else {
      BareDefinition(key, b, c + w);
      var t := key + b + "=" + (c + w);
      assert t[0] == key[0] && t[|t| - 1] == w[|w| - 1];
      Regroup(a, key, b, c + w, d);
      assert a + key + b + "=" + c + w + d == a + key + b + "=" + (c + w) + d;
      TrimTight(a, t, d);
      assert c + w == c + w + "";
      TrimTight(c, w, "");
    }
  }

  lemma Regroup(a: string, key: string, b: string, e: string, f: string)
    ensures a + key + b + "=" + e + f == a + (key + b + "=" + e) + f
  {
  }

  // Blanks in front of a text show.
  lemma LeadingBlank(b: string, t: string)
    requires Blank(b)
    ensures b == "" || Space((b + t)[0])
  {
  }

  lemma BareDefinition(key: string, b: string, e: string)
    requires NameText(key) && Blank(b)
    ensures var t := key + b + "=" + e;
      FindChar(t, '=') == |key + b| && Trim(t[..|key + b|]) == key && t[|key + b| + 1..] == e
  {
    hide Space, Trim;
    EqualsIsNoSpace();
    var t := key + b + "=" + e;
    assert forall i | 0 <= i < |key + b| :: t[i] == (key + b)[i] != '=';
    FindCharIs(t, '=', |key + b|);
    assert t[..|key + b|] == "" + key + b;
    TrimTight("", key, b);
  }

  lemma EqualsIsNoSpace()
    ensures !Space('=') && !Space('"') && !Space('\'') && !Space('#') && Space('\r')
  {
  }

  // A line defines a name exactly if it is the name in blanks, an equals sign
  // and anything.
  lemma DefinesExactly(line: string, key: string)
    requires NameText(key)
    ensures var defines := exists a, b, rest :: Blank(a) && Blank(b) && line == a + key + b + "=" + rest;
      NameOf(line) == Some(key) <==> defines
  {
    hide Space, NameOf;
    if NameOf(line) == Some(key) {
      var a, b, rest := DefinedParts(line, key);
    }
    if a, b, rest :| Blank(a) && Blank(b) && line == a + key + b + "=" + rest {
      var c, d := TrimParts(rest);
      DefinitionParts(a, key, b, c, Trim(rest), d);
      assert line == a + key + b + "=" + c + Trim(rest) + d;
    }
  }

  lemma DefinedParts(line: string, key: string) returns (a: string, b: string, rest: string)
    requires NameText(key) && NameOf(line) == Some(key)
    ensures Blank(a) && Blank(b) && line == a + key + b + "=" + rest
  {
    hide Space;
    var t := Trim(line);
    var p := FindChar(t, '=');
    var d, x;
    a, d := TrimParts(line);
    x, b := TrimParts(t[..p]);
    assert x == "" by {
      assert t[0] == t[..p][0] || p == 0;
    }
    assert t == key + b + "=" + t[p + 1..];
    rest := t[p + 1..] + d;
  }

  // One pair of equal quotes around the value is taken off, whatever is in
  // them; any other value is kept as it is.
  lemma ValueExactly(a: string, key: string, b: string, c: string, w: string, d: string)
    requires Blank(a) && Blank(b) && Blank(c) && Blank(d) && NameText(key) && Tight(w)
    ensures NameOf(a + key + b + "=" + c + w + d) == Some(key)
    ensures var value := ValueOf(a + key + b + "=" + c + w + d);
      && (forall q, v | Quote(q) && w == [q] + v + [q] :: value == v)
      && ((forall q, v | Quote(q) :: w != [q] + v + [q]) ==> value == w)
  {
    DefinitionParts(a, key, b, c, w, d);
    hide Space, Trim, ValueOf, NameOf;
    if |w| >= 2 {
      assert w == [w[0]] + w[1..|w| - 1] + [w[|w| - 1]];
    }
  }

  // A comment defines no key, whatever follows its `#`.
  lemma CommentDefinesNothing(a: string, rest: string)
    requires Blank(a)
    ensures NameOf(a + "#" + rest) == None
  {
    hide Space;
    EqualsIsNoSpace();
    var hash := "#" + rest;
    var b, d := TrimParts(hash);
    var t := Trim(hash);
    LeadingBlank(b, t + d);
    assert hash == b + (t + d) == t + d;
    assert t[0] == hash[0];
    assert a + "#" + rest == a + hash == a + t + d;
    TrimTight(a, t, d);
  }

  // The carriage return of a line's end is white space anyway.
  lemma ReturnDropped(line: string)
    ensures Trim(DropReturn(line)) == Trim(line)
  {
    hide Space;
    EqualsIsNoSpace();
    var s := DropReturn(line);
    if s != line {
      var a, b := TrimParts(s);
      assert line == a + Trim(s) + (b + "\r");
      TrimTight(a, Trim(s), b + "\r");
    }
  }

  // The first line that defines the key is the one that is read, wherever it
  // stands and however it ends.
  lemma FirstDefinitionRead(before: string, line: string, ending: string, key: string)
    requires Ended(before) && '\n' !in line && (ending == "" || ending[0] == '\n')
    requires Named(Some(before), key) == None && NameOf(line) == Some(key)
    ensures Named(Some(before + line + ending), key) == Some(ValueOf(line))
  {
    OnlyLine(line, key);
    hide Named, NameOf, ValueOf, Lines;
    LineEnds(line, ending, key);
    LineStarts(before, line + ending, key);
    Joined(before, line, ending);
  }

  lemma Joined(a: string, b: string, c: string)
    ensures a + b + c == a + (b + c)
  {
  }

  lemma LineEnds(line: string, ending: string, key: string)
    requires Named(Some(line), key).Some? && (ending == "" || ending[0] == '\n')
    ensures Named(Some(line + ending), key) == Named(Some(line), key)
  {
    hide Named;
    if ending != "" {
      NamedAppend(line, ending[1..], key);
      assert line + "\n" + ending[1..] == line + ending;
    } else {
      assert line + ending == line;
    }
  }

  lemma LineStarts(before: string, rest: string, key: string)
    requires Ended(before) && Named(Some(before), key) == None
    ensures Named(Some(before + rest), key) == Named(Some(rest), key)
  {
    hide Named;
    if before != "" {
      var x := before[..|before| - 1];
      NothingNamed(key);
      assert before == x + "\n" == x + "\n" + "";
      NamedAppend(x, "", key);
      NamedAppend(x, rest, key);
    } else {
      assert before + rest == rest;
    }
  }

  lemma OnlyLine(line: string, key: string)
    requires '\n' !in line && NameOf(line) == Some(key)
    ensures Named(Some(line), key) == Some(ValueOf(line))
  {
    ReturnDropped(line);
    LastLine(line);
    hide Lines, Trim, Unquote;
    OneValue(DropReturn(line), key);
    if line == "" {
      EmptyLineNamesNothing();
    }
  }

  // A quoted secret is what a boot resolves, whatever stands in the quotes and
  // behind the line, if no line before it defines one.
  lemma QuotedSecretResolves(
    before: string, a: string, b: string, c: string, q: char, v: string, d: string, ending: string, random: Option<bytes>)
    requires Ended(before) && Named(Some(before), SECRET_KEY) == None && (ending == "" || ending[0] == '\n')
    requires Blank(a) && Blank(b) && Blank(c) && Blank(d) && Quote(q) && v != ""
    requires var line := a + SECRET_KEY + b + "=" + c + ([q] + v + [q]) + d; '\n' !in line
    ensures var line := a + SECRET_KEY + b + "=" + c + ([q] + v + [q]) + d;
      Resolved("", Some(before + line + ending), random) == Ok(v)
  {
    hide Space, Named, NameOf, ValueOf;
    SecretIsPlain([]);
    PlainIsName(SECRET_KEY);
    EqualsIsNoSpace();
    var w := [q] + v + [q];
    var line := a + SECRET_KEY + b + "=" + c + w + d;
    DefinitionParts(a, SECRET_KEY, b, c, w, d);
    ValueExactly(a, SECRET_KEY, b, c, w, d);
    FirstDefinitionRead(before, line, ending, SECRET_KEY);
  }

  lemma PlainIsName(key: string)
    requires PlainKey(key)
    ensures NameText(key)
  {
  }

  // Two writes in a row are one longer write.
  lemma NewlineFirst(before: string, entry: string, room: nat)
    ensures before + Upto("\n" + entry, room) ==
      if room == 0 then before + Upto("\n", 0) else before + "\n" + Upto(entry, room - 1)
  {
    var whole := "\n" + entry;
    if 0 < room <= |whole| {
      assert whole[..room] == "\n" + entry[..room - 1];
    }
  }

  class DotenvFile {
    var text: Option<string>

    constructor (text: Option<string>)
      ensures this.text == text
    {
      this.text := text;
    }

    // readDotenv
    method Read(key: string) returns (val: string, ok: bool)
      ensures ok <==> Named(text, key).GetOr("") != ""
      ensures val == Named(text, key).GetOr("")
    {
      hide Lines;
      if text.None? {
        return "", false;
      }
      var lines := Lines(text.value);
      for i := 0 to |lines|
        invariant FirstValue(lines, key) == FirstValue(lines[i..], key)
      {
        assert lines[i..][1..] == lines[i + 1..];
        var line := Trim(lines[i]);
        if line == "" || line[0] == '#' {
          continue;
        }
        var eq := FindChar(line, '=');
        if eq == |line| {
          continue;
        }
        var name := Trim(line[..eq]);
        if name != key {
          continue;
        }
        val := Unquote(Trim(line[eq + 1..]));
        return val, val != "";
      }
      return "", false;
    }

    // One write call: as much as there is room for, and an error if that is not all.
    method WriteString(chunk: string, room: nat) returns (ok: bool)
      requires text.Some?
      modifies this
      ensures text == Some(old(text).value + Upto(chunk, room)) && (ok <==> |chunk| <= room)
    {
      text := Some(text.value + Upto(chunk, room));
      ok := |chunk| <= room;
    }

    // appendToDotenv
    method Append(key: string, value: string, opens: bool, room: nat) returns (ok: bool)
      modifies this
      ensures text == Appended(old(text), key, value, opens, room)
      ensures ok <==> Complete(old(text), key, value, opens, room)
    {
      hide Entry;
      var existed := text.Some?;
      if !opens {
        return false;
      }
      if !existed {
        text := Some("");
      }
      ghost var before := text.value;
      var left := room;
      if existed {
        NewlineFirst(before, Entry(key, value), room);
        var wrote := WriteString("\n", left);
        if !wrote {
          return false;
        }
        left := left - 1;
      }
      ok := WriteEntry(key, value, left);
      assert !existed ==> "" + Upto(Entry(key, value), room) == Upto(Entry(key, value), room);
    }

    method WriteEntry(key: string, value: string, room: nat) returns (ok: bool)
      requires text.Some?
      modifies this
      ensures text == Some(old(text).value + Upto(Entry(key, value), room)) && (ok <==> |Entry(key, value)| <= room)
    {
      ok := WriteString(key + "=" + value + "\n", room);
    }

    // resolveMPPSecret
    method ResolveSecret(env: string, random: Option<bytes>, opens: bool, room: nat) returns (r: Result<string>)
      modifies this
      ensures r == Resolved(env, old(text), random)
      ensures text == FileAfter(env, old(text), random, opens, room)
    {
      if env != "" {
        return Ok(env);
      }
      var v, found := Read(SECRET_KEY);
      if found && v != "" {
        return Ok(v);
      }
      if random.None? {
        return Err("failed to generate MPP secret");
      }
      var hexed := Hex(random.value);
      var _ := Append(SECRET_KEY, hexed, opens, room);
      return Ok(hexed);
    }
  }

  // What the next boot resolves, for every file and however much of the first
  // boot's entry was written: the defined value; else the written part of the
  // first boot's secret, if any; else a secret of its own.
  lemma NextBootResolves(file: Option<string>, first: bytes, second: bytes, opens: bool, room: nat)
    requires first != []
    ensures var after := FileAfter("", file, Some(first), opens, room);
      var value, named := Written(file, opens, room) - |SECRET_KEY| - 1, Named(file, SECRET_KEY);
      Resolved("", after, Some(second)) == Ok(
        if named.GetOr("") != "" then named.value
        else if named == None && value > 0 then Upto(Hex(first), value)
        else Hex(second))
  {
    hide Named, Appended, Hex;
    SecretIsPlain(first);
    if Named(file, SECRET_KEY).GetOr("") == "" {
      AppendRead(file, SECRET_KEY, Hex(first), opens, room, SECRET_KEY);
    }
  }

  // The condition, over the file and the write: the key has a value; or it is
  // defined as empty, or nothing of the value was written, and both boots drew
  // the same bytes; or it is not defined and the whole value was written.
  ghost predicate SecretKept(file: Option<string>, first: bytes, second: bytes, opens: bool, room: nat) {
    var value := Written(file, opens, room) - |SECRET_KEY| - 1;
    match Named(file, SECRET_KEY)
    case Some(v) => v != "" || first == second
    case None => if value > 0 then value >= |Hex(first)| else first == second
  }

  // The secret survives a restart exactly then.
  lemma NextBootResolvesSame(file: Option<string>, first: bytes, second: bytes, opens: bool, room: nat)
    requires first != [] && second != []
    ensures var after := FileAfter("", file, Some(first), opens, room);
      var same := Resolved("", after, Some(second)) == Resolved("", file, Some(first));
      same <==> SecretKept(file, first, second, opens, room)
  {
    hide Named, FileAfter, Hex;
    NextBootResolves(file, first, second, opens, room);
    if Hex(first) == Hex(second) {
      HexInjective(first, second);
    }
  }

  // `KEY=` on any first line is such a file, whatever else it holds.
  lemma EmptyDefinitionSticks(rest: string)
    ensures Named(Some(SECRET_KEY + "=" + "\n" + rest), SECRET_KEY) == Some("")
  {
    hide Lines, Named;
    SecretIsPlain([]);
    PlainLine(SECRET_KEY, "");
    OneLine(SECRET_KEY + "=" + "", SECRET_KEY);
    NamedAppend(SECRET_KEY + "=" + "", rest, SECRET_KEY);
    assert SECRET_KEY + "=" + "" == SECRET_KEY + "=";
  }
}
