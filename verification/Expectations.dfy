// Exact-set reconciliation of declared and observed test outcomes:
// harness/src/expectations.ts, expectations-run.ts and coverage-table.ts.
module Expectations {
  import opened Common

  datatype Suite = Vector | Protocol | Flow | Cross | Interop

  function SuiteName(s: Suite): string {
    match s
    case Vector => "vector"
    case Protocol => "protocol"
    case Flow => "flow"
    case Cross => "cross"
    case Interop => "interop"
  }

  function Prefix(s: Suite): string {
    SuiteName(s) + "/"
  }

  datatype CaseRef = CaseRef(suite: Suite, id: string, capability: string)

  function CaseKey(c: CaseRef): string {
    Prefix(c.suite) + c.id
  }

  predicate StartsWith(s: string, prefix: string) {
    |prefix| <= |s| && s[..|prefix|] == prefix
  }

  lemma PrefixesDiffer(key: string, s: Suite, t: Suite)
    requires StartsWith(key, Prefix(s)) && StartsWith(key, Prefix(t))
    ensures s == t
  {
    assert key[..|Prefix(s)|][0] == key[0] == key[..|Prefix(t)|][0];
    assert Prefix(s)[0] == Prefix(t)[0];
  }

  lemma CaseKeyPrefix(c: CaseRef)
    ensures StartsWith(CaseKey(c), Prefix(c.suite))
  {
  }

  // A key names one suite and one id.
  lemma CaseKeyInjective(a: CaseRef, b: CaseRef)
    ensures CaseKey(a) == CaseKey(b) <==> a.suite == b.suite && a.id == b.id
  {
    if CaseKey(a) == CaseKey(b) {
      CaseKeyPrefix(a);
      CaseKeyPrefix(b);
      PrefixesDiffer(CaseKey(a), a.suite, b.suite);
      assert CaseKey(a)[|Prefix(a.suite)|..] == a.id && CaseKey(b)[|Prefix(b.suite)|..] == b.id;
    }
  }

  // ---- list entries ----

  // What `.` does not match in a JavaScript regular expression.
  predicate LineTerminator(ch: char) {
    ch == '\n' || ch == '\r' || ch == '\U{2028}' || ch == '\U{2029}'
  }

  // `*` matches any run of characters, everything else is literal.
  predicate GlobMatches(pattern: string, key: string)
    decreases |pattern| + |key|
  {
    if pattern == "" then key == ""
    else if pattern[0] == '*' then
      || GlobMatches(pattern[1..], key)
      || (key != "" && !LineTerminator(key[0]) && GlobMatches(pattern, key[1..]))
    else key != "" && key[0] == pattern[0] && GlobMatches(pattern[1..], key[1..])
  }

  // ---- what a pattern matches ----

  predicate OneLine(s: string) {
    forall i | 0 <= i < |s| :: !LineTerminator(s[i])
  }

  // Without a star a pattern matches itself alone.
  lemma {:induction false} LiteralMatches(pattern: string, key: string)
    requires '*' !in pattern
    ensures GlobMatches(pattern, key) <==> key == pattern
  {
    hide LineTerminator;
    if pattern != "" && key != "" {
      LiteralMatches(pattern[1..], key[1..]);
      assert pattern[0] in pattern;
      assert key == [key[0]] + key[1..] && pattern == [pattern[0]] + pattern[1..];
    }
  }

  // A star takes any characters of one line, and the rest of the pattern
  // matches what is left.
  lemma {:induction false} StarMatches(rest: string, key: string)
    ensures GlobMatches("*" + rest, key)
      <==> exists j :: 0 <= j <= |key| && OneLine(key[..j]) && GlobMatches(rest, key[j..])
  {
    hide LineTerminator;
    var pattern := "*" + rest;
    assert pattern[1..] == rest && key[0..] == key && OneLine(key[..0]);
    if key != "" {
      StarMatches(rest, key[1..]);
      if !LineTerminator(key[0]) && GlobMatches(pattern, key[1..]) {
        var j :| 0 <= j <= |key[1..]| && OneLine(key[1..][..j]) && GlobMatches(rest, key[1..][j..]);
        assert key[..j + 1] == [key[0]] + key[1..][..j] && key[j + 1..] == key[1..][j..];
      }
      if j :| 0 < j <= |key| && OneLine(key[..j]) && GlobMatches(rest, key[j..]) {
        assert key[..j][0] == key[0] && key[..j][1..] == key[1..][..j - 1] && key[j..] == key[1..][j - 1..];
        OneLineTail(key[..j]);
      }
    }
  }

  lemma OneLineTail(s: string)
    requires s != "" && OneLine(s)
    ensures OneLine(s[1..]) && !LineTerminator(s[0])
  {
  }

  ghost predicate MatchesAt(p: string, q: string, key: string, i: nat) {
    i <= |key| && GlobMatches(p, key[..i]) && GlobMatches(q, key[i..])
  }

  // Patterns one behind the other match texts one behind the other.
  lemma {:induction false} ConcatMatches(p: string, q: string, key: string)
    ensures GlobMatches(p + q, key) <==> exists i :: MatchesAt(p, q, key, i)
    decreases |p|
  {
    hide LineTerminator, GlobMatches;
    if GlobMatches(p + q, key) {
      var i := SplitMatch(p, q, key);
    }
    if i :| MatchesAt(p, q, key, i) {
      JoinMatch(p, q, key, i);
    }
  }

  lemma Slices(key: string, j: nat, i: nat)
    requires j + i <= |key|
    ensures key[..j + i][..j] == key[..j] && key[..j + i][j..] == key[j..][..i] && key[j + i..] == key[j..][i..]
  {
  }

  lemma {:induction false} SplitMatch(p: string, q: string, key: string) returns (i: nat)
    requires GlobMatches(p + q, key)
    ensures MatchesAt(p, q, key, i)
    decreases |p|
  {
    hide LineTerminator, GlobMatches;
    if p == "" {
      i := 0;
      NothingMatches(key[..0]);
      assert p + q == q && key[0..] == key;
    } else {
      var rest := p[1..];
      assert p + q == [p[0]] + (rest + q) && p == [p[0]] + rest;
      if p[0] == '*' {
        StarMatches(rest + q, key);
        var j :| 0 <= j <= |key| && OneLine(key[..j]) && GlobMatches(rest + q, key[j..]);
        i := SplitMatch(rest, q, key[j..]);
        Slices(key, j, i);
        StarMatches(rest, key[..j + i]);
        i := j + i;
      } else {
        LiteralFirst(p[0], rest + q, key);
        i := SplitMatch(rest, q, key[1..]);
        Slices(key, 1, i);
        i := i + 1;
        LiteralFirst(p[0], rest, key[..i]);
      }
    }
  }

  lemma {:induction false} JoinMatch(p: string, q: string, key: string, i: nat)
    requires MatchesAt(p, q, key, i)
    ensures GlobMatches(p + q, key)
    decreases |p|
  {
    hide LineTerminator, GlobMatches;
    if p == "" {
      NothingMatches(key[..i]);
      assert p + q == q && key[i..] == key;
    } else {
      var rest := p[1..];
      assert p + q == [p[0]] + (rest + q) && p == [p[0]] + rest;
      if p[0] == '*' {
        StarMatches(rest, key[..i]);
        var j :| 0 <= j <= |key[..i]| && OneLine(key[..i][..j]) && GlobMatches(rest, key[..i][j..]);
        Slices(key, j, i - j);
        JoinMatch(rest, q, key[j..], i - j);
        StarMatches(rest + q, key);
      } else {
        LiteralFirst(p[0], rest, key[..i]);
        Slices(key, 1, i - 1);
        JoinMatch(rest, q, key[1..], i - 1);
        LiteralFirst(p[0], rest + q, key);
      }
    }
  }

  lemma NothingMatches(key: string)
    ensures GlobMatches("", key) <==> key == ""
  {
  }

  lemma LiteralFirst(ch: char, rest: string, key: string)
    requires ch != '*'
    ensures GlobMatches([ch] + rest, key) <==> key != "" && key[0] == ch && GlobMatches(rest, key[1..])
  {
    assert ([ch] + rest)[1..] == rest;
  }

  // A pattern with a star in it, whatever stands around the star.
  lemma GlobStarMatches(p: string, q: string, key: string)
    ensures GlobMatches(p + "*" + q, key)
      <==> exists i, j | 0 <= i <= j <= |key| :: GlobMatches(p, key[..i]) && OneLine(key[i..j]) && GlobMatches(q, key[j..])
  {
    hide LineTerminator, GlobMatches, OneLine;
    assert p + "*" + q == p + ("*" + q);
    ConcatMatches(p, "*" + q, key);
    forall i | 0 <= i <= |key|
      ensures MatchesAt(p, "*" + q, key, i)
        <==> exists j | i <= j <= |key| :: GlobMatches(p, key[..i]) && OneLine(key[i..j]) && GlobMatches(q, key[j..])
    {
      StarMatches(q, key[i..]);
      forall j | i <= j <= |key| ensures key[i..][..j - i] == key[i..j] && key[i..][j - i..] == key[j..] {
      }
      if n :| 0 <= n <= |key[i..]| && OneLine(key[i..][..n]) && GlobMatches(q, key[i..][n..]) {
        assert key[i..][..n] == key[i..i + n] && key[i..][n..] == key[i + n..];
      }
    }
  }

  // The form the lists use: a literal text and a star matches every key of one
  // line that starts with the text.
  lemma PrefixStarMatches(prefix: string, key: string)
    requires '*' !in prefix
    ensures GlobMatches(prefix + "*", key) <==> StartsWith(key, prefix) && OneLine(key[|prefix|..])
  {
    hide LineTerminator, GlobMatches, OneLine;
    assert prefix + "*" + "" == prefix + "*";
    GlobStarMatches(prefix, "", key);
    forall s | GlobMatches("", s) ensures s == "" {
      LiteralMatches("", s);
    }
    LiteralMatches("", "");
    forall i | 0 <= i <= |key| ensures GlobMatches(prefix, key[..i]) <==> key[..i] == prefix {
      LiteralMatches(prefix, key[..i]);
    }
    if StartsWith(key, prefix) && OneLine(key[|prefix|..]) {
      assert key[|prefix|..|key|] == key[|prefix|..] && key[|key|..] == "";
    }
    if GlobMatches(prefix + "*", key) {
      var i, j :| 0 <= i <= j <= |key| && GlobMatches(prefix, key[..i]) && OneLine(key[i..j]) && GlobMatches("", key[j..]);
      assert key[j..] == "" && key[i..j] == key[i..];
    }
  }

  datatype Matcher = Id(id: string) | Pattern(pattern: string) {
    predicate Matches(key: string) {
      match this
      case Id(id) => key == id
      case Pattern(pattern) => GlobMatches(pattern, key)
    }

    function Text(): string {
      match this
      case Id(id) => id
      case Pattern(pattern) => pattern
    }
  }

  datatype Entry = Entry(suite: Suite, reason: string, matcher: Matcher)

  datatype Known = Known(reason: string, tracking: string)

  datatype Expectations = Expectations(
    capabilities: map<Suite, set<string>>,
    unsupported: seq<Entry>,
    knownFailing: map<string, Known>)

  function Claims(exp: Expectations, s: Suite): set<string> {
    if s in exp.capabilities then exp.capabilities[s] else {}
  }

  // The suite whose prefix a key or pattern starts with.
  function SuiteOf(key: string): Result<Suite> {
    if StartsWith(key, Prefix(Vector)) then Ok(Vector)
    else if StartsWith(key, Prefix(Protocol)) then Ok(Protocol)
    else if StartsWith(key, Prefix(Flow)) then Ok(Flow)
    else if StartsWith(key, Prefix(Cross)) then Ok(Cross)
    else if StartsWith(key, Prefix(Interop)) then Ok(Interop)
    else Err("must start with a suite")
  }

  lemma SuiteOfPrefix(key: string, s: Suite)
    ensures SuiteOf(key) == Ok(s) <==> StartsWith(key, Prefix(s))
  {
    if StartsWith(key, Prefix(s)) && SuiteOf(key).Ok? {
      PrefixesDiffer(key, SuiteOf(key).value, s);
    }
  }

  // A pattern with a literal prefix matches only keys with that prefix.
  lemma {:induction false} GlobKeepsPrefix(pattern: string, key: string, prefix: string)
    requires StartsWith(pattern, prefix) && '*' !in prefix && GlobMatches(pattern, key)
    ensures StartsWith(key, prefix)
  {
    if prefix != "" {
      assert pattern[0] == pattern[..|prefix|][0] == prefix[0];
      assert prefix[0] in prefix;
      assert pattern[1..][..|prefix| - 1] == pattern[..|prefix|][1..] == prefix[1..];
      GlobKeepsPrefix(pattern[1..], key[1..], prefix[1..]);
      assert key[..|prefix|] == [key[0]] + key[1..][..|prefix| - 1];
    }
  }

  // What parsing guarantees about the lists: every entry names its suite, and
  // that suite is claimed, so some driver is responsible for it.
  ghost predicate WellFormed(exp: Expectations) {
    && (forall i | 0 <= i < |exp.unsupported| ::
          && SuiteOf(exp.unsupported[i].matcher.Text()) == Ok(exp.unsupported[i].suite)
          && Claims(exp, exp.unsupported[i].suite) != {})
    && (forall id | id in exp.knownFailing :: SuiteOf(id).Ok? && Claims(exp, SuiteOf(id).value) != {})
  }

  // An entry matches only cases of the suite it names, so exactly one suite's
  // driver checks it.
  lemma EntryStaysInSuite(exp: Expectations, i: nat, c: CaseRef)
    requires WellFormed(exp) && i < |exp.unsupported| && exp.unsupported[i].matcher.Matches(CaseKey(c))
    ensures c.suite == exp.unsupported[i].suite
  {
    var u := exp.unsupported[i];
    var text, prefix := u.matcher.Text(), Prefix(u.suite);
    assert SuiteOf(text) == Ok(u.suite);
    SuiteOfPrefix(text, u.suite);
    if u.matcher.Pattern? {
      NoStar(u.suite);
      GlobKeepsPrefix(text, CaseKey(c), prefix);
    }
    CaseKeyPrefix(c);
    PrefixesDiffer(CaseKey(c), u.suite, c.suite);
  }

  lemma NoStar(s: Suite)
    ensures '*' !in Prefix(s)
  {
  }

  // ---- parsing the lists ----

  // One [[unsupported]] or [[known_failing]] table, as TOML gives it.
  datatype RawUnsupported = RawUnsupported(reason: string, pattern: Option<string>, ids: Option<seq<string>>)

  datatype RawKnown = RawKnown(id: Option<string>, ids: Option<seq<string>>, reason: string, tracking: string, trackingValid: bool)

  function Texts(raw: RawUnsupported): seq<string> {
    if raw.ids.Some? then raw.ids.value else []
  }

  // The list entries a table stands for: its pattern, or one entry for each id.
  function EntriesOf(raw: RawUnsupported): (es: seq<Entry>)
    ensures raw.pattern.None? ==> |es| == |Texts(raw)|
  {
    if raw.pattern.Some? then
      [Entry(SuiteOf(raw.pattern.value).GetOr(Vector), raw.reason, Pattern(raw.pattern.value))]
    else
      seq(|Texts(raw)|, i requires 0 <= i < |Texts(raw)| =>
        Entry(SuiteOf(Texts(raw)[i]).GetOr(Vector), raw.reason, Id(Texts(raw)[i])))
  }

  function AllEntries(raw: seq<RawUnsupported>): seq<Entry> {
    if raw == [] then [] else AllEntries(raw[..|raw| - 1]) + EntriesOf(raw[|raw| - 1])
  }

  predicate Distinct(ids: seq<string>) {
    forall i, j | 0 <= i < j < |ids| :: ids[i] != ids[j]
  }

  lemma AppendDistinct(a: seq<string>, b: seq<string>)
    ensures Distinct(a + b) <==> Distinct(a) && Distinct(b) && forall n | 0 <= n < |b| :: b[n] !in a
  {
    var both := a + b;
    if Distinct(both) {
      assert forall i | 0 <= i < |a| :: both[i] == a[i];
      assert forall n | 0 <= n < |b| :: both[|a| + n] == b[n];
    }
  }

  function AllIds(raw: seq<RawUnsupported>): seq<string> {
    if raw == [] then [] else AllIds(raw[..|raw| - 1]) + Texts(raw[|raw| - 1])
  }

  lemma {:induction false} AllIdsPrefix(raw: seq<RawUnsupported>, k: nat)
    requires k <= |raw|
    ensures AllIds(raw[..k]) <= AllIds(raw)
    decreases |raw|
  {
    if k < |raw| {
      var front := raw[..|raw| - 1];
      assert front[..k] == raw[..k];
      AllIdsPrefix(front, k);
    } else {
      assert raw[..k] == raw;
    }
  }

  // One table the parser takes: a reason, exactly one of a pattern and a list
  // of ids, and a known suite in front of each of its texts.
  predicate UnsupportedOk(raw: RawUnsupported) {
    && raw.reason != ""
    && raw.pattern.Some? != raw.ids.Some?
    && (raw.pattern.Some? ==> SuiteOf(raw.pattern.value).Ok?)
    && forall n | 0 <= n < |Texts(raw)| :: SuiteOf(Texts(raw)[n]).Ok?
  }

  // The whole list: tables the parser takes, and no id in two places.
  ghost predicate UnsupportedAccepted(raw: seq<RawUnsupported>) {
    && (forall k | 0 <= k < |raw| :: UnsupportedOk(raw[k]))
    && Distinct(AllIds(raw))
  }

  // Every id may be listed once in the whole file.
  method SeeIds(seen: set<string>, ids: seq<string>) returns (r: Result<set<string>>)
    ensures r.Ok? ==> r.value == seen + set n | 0 <= n < |ids| :: ids[n]
    ensures r.Ok? <==> Distinct(ids) && forall n | 0 <= n < |ids| :: ids[n] !in seen
  {
    var all := seen;
    for m := 0 to |ids|
      invariant all == seen + set n | 0 <= n < m :: ids[n]
      invariant forall n | 0 <= n < m :: ids[n] !in seen
      invariant forall n, p | 0 <= n < p < m :: ids[n] != ids[p]
    {
      if ids[m] in all {
        return Err("duplicate unsupported id");
      }
      all := all + {ids[m]};
    }
    return Ok(all);
  }

  // One entry per id.
  method PushIds(entry: RawUnsupported) returns (r: Result<seq<Entry>>)
    requires entry.pattern.None? && entry.ids.Some?
    ensures r.Ok? ==> r.value == EntriesOf(entry)
    ensures r.Ok? <==> forall n | 0 <= n < |entry.ids.value| :: SuiteOf(entry.ids.value[n]).Ok?
  {
    hide SuiteOf;
    var ids := entry.ids.value;
    var entries: seq<Entry> := [];
    for m := 0 to |ids|
      invariant |entries| == m
      invariant forall n | 0 <= n < m :: SuiteOf(ids[n]).Ok? && entries[n] == EntriesOf(entry)[n]
    {
      var suite := SuiteOf(ids[m]);
      if suite.Err? {
        return Err(suite.error);
      }
      entries := entries + [Entry(suite.value, entry.reason, Id(ids[m]))];
    }
    assert entries == EntriesOf(entry);
    return Ok(entries);
  }

  // What the entries built so far satisfy, with the ids seen on the way: each
  // entry carries its key's suite and no id appears twice.
  ghost predicate Listed(entries: seq<Entry>, seen: set<string>) {
    && (forall i | 0 <= i < |entries| :: SuiteOf(entries[i].matcher.Text()) == Ok(entries[i].suite))
    && (forall i | 0 <= i < |entries| && entries[i].matcher.Id? :: entries[i].matcher.id in seen)
    && (forall i, j | 0 <= i < j < |entries| && entries[i].matcher.Id? :: entries[i].matcher != entries[j].matcher)
  }

  lemma NothingListed(raw: seq<RawUnsupported>)
    ensures AllEntries(raw[..0]) == [] && Listed([], {}) && AllIds(raw[..0]) == [] && Distinct(AllIds(raw[..0]))
  {
  }

  lemma PatternListed(before: seq<Entry>, seen: set<string>, raw: seq<RawUnsupported>, k: nat, suite: Suite)
    requires k < |raw| && raw[k].pattern.Some? && SuiteOf(raw[k].pattern.value) == Ok(suite)
    requires before == AllEntries(raw[..k]) && Listed(before, seen)
    ensures var after := before + [Entry(suite, raw[k].reason, Pattern(raw[k].pattern.value))];
      after == AllEntries(raw[..k + 1]) && Listed(after, seen)
  {
    hide SuiteOf;
    assert raw[..k + 1][..k] == raw[..k];
  }

  lemma IdsListed(before: seq<Entry>, seen: set<string>, raw: seq<RawUnsupported>, k: nat, ids: seq<string>)
    requires k < |raw| && raw[k].pattern.None? && raw[k].ids == Some(ids)
    requires before == AllEntries(raw[..k]) && Listed(before, seen)
    requires forall n | 0 <= n < |ids| :: SuiteOf(ids[n]).Ok? && ids[n] !in seen
    requires Distinct(ids)
    ensures var after := before + EntriesOf(raw[k]);
      after == AllEntries(raw[..k + 1]) && Listed(after, seen + set n | 0 <= n < |ids| :: ids[n])
  {
    hide SuiteOf;
    assert raw[..k + 1][..k] == raw[..k];
    var added := EntriesOf(raw[k]);
    assert forall n | 0 <= n < |ids| :: added[n].matcher == Id(ids[n]) && SuiteOf(ids[n]) == Ok(added[n].suite);
  }

  // Taking the ids of one more table, and what a repeated id means for the file.
  lemma IdsNext(seen: set<string>, raw: seq<RawUnsupported>, k: nat)
    requires k < |raw| && Distinct(AllIds(raw[..k]))
    requires forall id :: id in seen <==> id in AllIds(raw[..k])
    ensures var ids := Texts(raw[k]);
      var unused := Distinct(ids) && forall n | 0 <= n < |ids| :: ids[n] !in seen;
      && (unused ==> Distinct(AllIds(raw[..k + 1])))
      && (!unused ==> !UnsupportedAccepted(raw))
      && (forall id :: id in seen || id in ids <==> id in AllIds(raw[..k + 1]))
  {
    hide SuiteOf;
    assert raw[..k + 1][..k] == raw[..k];
    AppendDistinct(AllIds(raw[..k]), Texts(raw[k]));
    AllIdsPrefix(raw, k + 1);
  }

  method ParseUnsupported(raw: seq<RawUnsupported>) returns (r: Result<seq<Entry>>)
    ensures r.Ok? <==> UnsupportedAccepted(raw)
    ensures r.Ok? ==> r.value == AllEntries(raw) && exists seen :: Listed(r.value, seen)
  {
    hide SuiteOf, AllEntries, EntriesOf, AllIds, Distinct;
    var entries: seq<Entry> := [];
    var seenIds: set<string> := {};
    NothingListed(raw);
    for k := 0 to |raw|
      invariant entries == AllEntries(raw[..k]) && Listed(entries, seenIds)
      invariant forall i | 0 <= i < k :: UnsupportedOk(raw[i])
      invariant Distinct(AllIds(raw[..k])) && forall id :: id in seenIds <==> id in AllIds(raw[..k])
    {
      hide Listed;
      var entry := raw[k];
      if entry.reason == "" {
        return Err("every [[unsupported]] needs a non-empty reason");
      }
      if entry.pattern.Some? == entry.ids.Some? {
        return Err("every [[unsupported]] needs exactly one of `pattern` or `ids`");
      }
      IdsNext(seenIds, raw, k);
      if entry.pattern.Some? {
        var suite :- SuiteOf(entry.pattern.value);
        PatternListed(entries, seenIds, raw, k, suite);
        entries := entries + [Entry(suite, entry.reason, Pattern(entry.pattern.value))];
      } else {
        var seenNow :- SeeIds(seenIds, entry.ids.value);
        var added :- PushIds(entry);
        IdsListed(entries, seenIds, raw, k, entry.ids.value);
        entries := entries + added;
        seenIds := seenNow;
      }
    }
    assert raw[..|raw|] == raw;
    return Ok(entries);
  }

  function KnownIds(raw: RawKnown): seq<string> {
    if raw.id.Some? then [raw.id.value] else if raw.ids.Some? then raw.ids.value else []
  }

  function AllKnownIds(raw: seq<RawKnown>): seq<string> {
    if raw == [] then [] else AllKnownIds(raw[..|raw| - 1]) + KnownIds(raw[|raw| - 1])
  }

  lemma {:induction false} AllKnownIdsPrefix(raw: seq<RawKnown>, k: nat)
    requires k <= |raw|
    ensures AllKnownIds(raw[..k]) <= AllKnownIds(raw)
    decreases |raw|
  {
    if k < |raw| {
      var front := raw[..|raw| - 1];
      assert front[..k] == raw[..k];
      AllKnownIdsPrefix(front, k);
    } else {
      assert raw[..k] == raw;
    }
  }

  predicate KnownOk(raw: RawKnown) {
    && raw.id.Some? != raw.ids.Some?
    && KnownIds(raw) != []
    && raw.reason != ""
    && raw.trackingValid
    && forall n | 0 <= n < |KnownIds(raw)| :: SuiteOf(KnownIds(raw)[n]).Ok?
  }

  ghost predicate KnownAccepted(raw: seq<RawKnown>) {
    && (forall k | 0 <= k < |raw| :: KnownOk(raw[k]))
    && Distinct(AllKnownIds(raw))
  }

  ghost predicate ListedIn(raw: seq<RawKnown>, id: string) {
    exists k :: 0 <= k < |raw| && id in KnownIds(raw[k])
  }

  // The map holds every listed id with its table's reason, and nothing else.
  ghost predicate Transcribes(known: map<string, Known>, raw: seq<RawKnown>) {
    && (forall id | id in known :: ListedIn(raw, id))
    && (forall k | 0 <= k < |raw| ::
          forall id | id in KnownIds(raw[k]) :: id in known && known[id] == Known(raw[k].reason, raw[k].tracking))
  }

  // The inner loop: the ids of one table, each listed once in the file.
  method AddKnown(before: map<string, Known>, ids: seq<string>, entry: Known) returns (r: Result<map<string, Known>>)
    ensures r.Ok? <==> (Distinct(ids) && forall n | 0 <= n < |ids| :: ids[n] !in before && SuiteOf(ids[n]).Ok?)
    ensures r.Ok? ==> forall id :: id in r.value <==> id in before || id in ids
    ensures r.Ok? ==> forall id | id in r.value :: r.value[id] == if id in before then before[id] else entry
  {
    hide SuiteOf;
    var known := before;
    for m := 0 to |ids|
      invariant forall id :: id in known <==> id in before || id in ids[..m]
      invariant forall id | id in known :: known[id] == if id in before then before[id] else entry
      invariant forall n | 0 <= n < m :: ids[n] !in before && SuiteOf(ids[n]).Ok?
      invariant forall i, j | 0 <= i < j < m :: ids[i] != ids[j]
    {
      assert ids[..m + 1] == ids[..m] + [ids[m]];
      if ids[m] in known {
        return Err("duplicate known_failing");
      }
      var _ :- SuiteOf(ids[m]);
      known := known[ids[m] := entry];
    }
    assert ids[..|ids|] == ids;
    return Ok(known);
  }

  // Taking the ids of one more table, and what a repeated id means for the file.
  lemma KnownNext(known: map<string, Known>, raw: seq<RawKnown>, k: nat)
    requires k < |raw| && Distinct(AllKnownIds(raw[..k]))
    requires forall id :: id in known <==> id in AllKnownIds(raw[..k])
    ensures var ids := KnownIds(raw[k]);
      var unused := Distinct(ids) && forall n | 0 <= n < |ids| :: ids[n] !in known;
      && (unused ==> Distinct(AllKnownIds(raw[..k + 1])))
      && (!unused ==> !KnownAccepted(raw))
      && (forall id :: id in known || id in ids <==> id in AllKnownIds(raw[..k + 1]))
  {
    hide SuiteOf;
    assert raw[..k + 1][..k] == raw[..k];
    AppendDistinct(AllKnownIds(raw[..k]), KnownIds(raw[k]));
    AllKnownIdsPrefix(raw, k + 1);
  }

  method ParseKnownFailing(raw: seq<RawKnown>) returns (r: Result<map<string, Known>>)
    ensures r.Ok? <==> KnownAccepted(raw)
    ensures r.Ok? ==> Transcribes(r.value, raw) && forall id | id in r.value :: SuiteOf(id).Ok?
  {
    hide SuiteOf, Distinct, AllKnownIds;
    var known: map<string, Known> := map[];
    NoneKnown(raw);
    for k := 0 to |raw|
      invariant forall i | 0 <= i < k :: KnownOk(raw[i])
      invariant forall id | id in known :: SuiteOf(id).Ok?
      invariant Transcribes(known, raw[..k])
      invariant Distinct(AllKnownIds(raw[..k])) && forall id :: id in known <==> id in AllKnownIds(raw[..k])
    {
      hide Transcribes;
      var entry := raw[k];
      var ids: seq<string>;
      if entry.id.Some? && entry.ids.None? {
        ids := [entry.id.value];
      } else if entry.id.None? && entry.ids.Some? {
        ids := entry.ids.value;
        if |ids| == 0 {
          return Err("every [[known_failing]] needs an id");
        }
      } else {
        return Err("every [[known_failing]] needs exactly one of id or ids");
      }
      if entry.reason == "" {
        return Err("every [[known_failing]] needs a reason");
      }
      if !entry.trackingValid {
        return Err("known_failing needs tracking");
      }
      KnownNext(known, raw, k);
      var after :- AddKnown(known, ids, Known(entry.reason, entry.tracking));
      TranscribesNext(known, after, raw, k);
      known := after;
    }
    assert raw[..|raw|] == raw;
    return Ok(known);
  }

  lemma NoneKnown(raw: seq<RawKnown>)
    ensures AllKnownIds(raw[..0]) == [] && Distinct(AllKnownIds(raw[..0])) && Transcribes(map[], raw[..0])
  {
  }

  lemma TranscribesNext(before: map<string, Known>, known: map<string, Known>, raw: seq<RawKnown>, k: nat)
    requires k < |raw| && Transcribes(before, raw[..k])
    requires forall id :: id in known <==> id in before || id in KnownIds(raw[k])
    requires forall id | id in KnownIds(raw[k]) :: known[id] == Known(raw[k].reason, raw[k].tracking)
    requires forall id | id in before :: known[id] == before[id]
    ensures Transcribes(known, raw[..k + 1])
  {
    var front, next := raw[..k], raw[..k + 1];
    assert forall i | 0 <= i < k :: next[i] == front[i];
    assert next[k] == raw[k];
    forall id | id in known ensures ListedIn(next, id) {
      if id in before {
        var i :| 0 <= i < k && id in KnownIds(front[i]);
        assert id in KnownIds(next[i]);
      }
    }
    forall i | 0 <= i < |next|
      ensures forall id | id in KnownIds(next[i]) :: id in known && known[id] == Known(next[i].reason, next[i].tracking)
    {
      if i < k {
        assert next[i] == front[i];
      }
    }
  }

  // No listed entry belongs to a suite the adapter does not claim.
  ghost predicate SuitesClaimed(exp: Expectations) {
    && (forall i | 0 <= i < |exp.unsupported| :: Claims(exp, exp.unsupported[i].suite) != {})
    && (forall id | id in exp.knownFailing && SuiteOf(id).Ok? :: Claims(exp, SuiteOf(id).value) != {})
  }

  method CheckSuites(exp: Expectations) returns (ok: bool)
    requires forall id | id in exp.knownFailing :: SuiteOf(id).Ok?
    ensures ok <==> SuitesClaimed(exp)
  {
    hide SuiteOf;
    for i := 0 to |exp.unsupported|
      invariant forall j | 0 <= j < i :: Claims(exp, exp.unsupported[j].suite) != {}
    {
      if Claims(exp, exp.unsupported[i].suite) == {} {
        return false;
      }
    }
    var rest := exp.knownFailing.Keys;
    while rest != {}
      invariant rest <= exp.knownFailing.Keys
      invariant forall id | id in exp.knownFailing.Keys - rest :: Claims(exp, SuiteOf(id).value) != {}
      decreases |rest|
    {
      var id :| id in rest;
      if Claims(exp, SuiteOf(id).value) == {} {
        return false;
      }
      rest := rest - {id};
    }
    return true;
  }

  // The list half of parseExpectations; capabilities come from the same file.
  method ParseExpectations(capabilities: map<Suite, set<string>>, rawUnsupported: seq<RawUnsupported>, rawKnown: seq<RawKnown>)
    returns (r: Result<Expectations>)
    ensures r.Ok? ==> WellFormed(r.value) && r.value.capabilities == capabilities
    ensures r.Ok? ==> r.value.unsupported == AllEntries(rawUnsupported) && Transcribes(r.value.knownFailing, rawKnown)
    ensures r.Ok? ==> UnsupportedAccepted(rawUnsupported) && KnownAccepted(rawKnown)
    ensures r.Err? && UnsupportedAccepted(rawUnsupported) && KnownAccepted(rawKnown) ==>
      exists known :: Transcribes(known, rawKnown) && !SuitesClaimed(Expectations(capabilities, AllEntries(rawUnsupported), known))
  {
    hide SuiteOf, AllEntries, Transcribes, UnsupportedAccepted, KnownAccepted;
    var unsupported :- ParseUnsupported(rawUnsupported);
    var known :- ParseKnownFailing(rawKnown);
    var exp := Expectations(capabilities, unsupported, known);
    var ok := CheckSuites(exp);
    if !ok {
      return Err("has entries but does not claim the suite");
    }
    return Ok(exp);
  }

  // ---- deciding and reconciling ----

  datatype Kind = Unclaimed | Unsupported | KnownFailing | Pass

  datatype Observed = Passed | FailedWith(detail: string) | NotSupported(detail: string)

  predicate Claimed(exp: Expectations, c: CaseRef) {
    c.capability in Claims(exp, c.suite)
  }

  predicate SomeMatch(entries: seq<Entry>, key: string) {
    exists i :: 0 <= i < |entries| && entries[i].matcher.Matches(key)
  }

  // decide: Err is the exception for a case in both lists.
  function Decide(exp: Expectations, c: CaseRef): Result<Kind> {
    var key := CaseKey(c);
    if !Claimed(exp, c) then Ok(Unclaimed)
    else if SomeMatch(exp.unsupported, key) && key in exp.knownFailing then Err("both unsupported and known_failing")
    else if SomeMatch(exp.unsupported, key) then Ok(Unsupported)
    else if key in exp.knownFailing then Ok(KnownFailing)
    else Ok(Pass)
  }

  // What an entry `prefix*` decides of a claimed case that is not listed as
  // failing: unsupported if its key starts with the prefix and goes on in one
  // line, and nothing otherwise.
  lemma PrefixDecides(exp: Expectations, i: nat, prefix: string, c: CaseRef)
    requires i < |exp.unsupported| && exp.unsupported[i].matcher == Pattern(prefix + "*") && '*' !in prefix
    requires Claimed(exp, c) && CaseKey(c) !in exp.knownFailing
    ensures var key := CaseKey(c);
      var under := StartsWith(key, prefix) && OneLine(key[|prefix|..]);
      && (under ==> Decide(exp, c) == Ok(Unsupported))
      && (!under && (forall k | 0 <= k < |exp.unsupported| && k != i :: !exp.unsupported[k].matcher.Matches(key)) ==>
            Decide(exp, c) == Ok(Pass))
  {
    hide CaseKey, StartsWith, OneLine, GlobMatches;
    PrefixStarMatches(prefix, CaseKey(c));
  }

  // The kind an observation belongs to.
  function KindOf(o: Observed): Kind {
    match o
    case Passed => Pass
    case FailedWith(_) => KnownFailing
    case NotSupported(_) => Unsupported
  }

  // reconcile, branch by branch; the messages are left out.
  predicate Reconciles(decision: Kind, o: Observed) {
    match decision
    case Unclaimed => false
    case Unsupported => o.NotSupported?
    case KnownFailing => o.FailedWith?
    case Pass => o.Passed?
  }

  lemma ReconcilesMeansEqual(decision: Kind, o: Observed)
    ensures Reconciles(decision, o) <==> decision == KindOf(o)
  {
  }

  // ---- running ----

  datatype Recorded = Recorded(capability: string, decision: Kind, observed: Option<Observed>)

  class CaseRecorder {
    var cases: map<string, Recorded>

    constructor ()
      ensures cases == map[]
    {
      cases := map[];
    }

    method Record(c: CaseRef, decision: Kind, observed: Option<Observed>)
      modifies this
      ensures cases == old(cases)[CaseKey(c) := Recorded(c.capability, decision, observed)]
    {
      cases := cases[CaseKey(c) := Recorded(c.capability, decision, observed)];
    }

    // ok is false when the source throws.
    method Verdict(c: CaseRef, decision: Kind, observed: Observed, discovery: bool) returns (ok: bool)
      modifies this
      ensures cases == old(cases)[CaseKey(c) := Recorded(c.capability, decision, Some(observed))]
      ensures ok <==> discovery || decision == KindOf(observed)
    {
      Record(c, decision, Some(observed));
      if discovery {
        return true;
      }
      ReconcilesMeansEqual(decision, observed);
      return Reconciles(decision, observed);
    }

    method AssertComplete(refs: seq<CaseRef>, exp: Expectations) returns (ok: bool)
      ensures ok <==> Complete(cases, refs, exp)
    {
      hide Decide, CaseKey;
      var missing: seq<string> := [];
      for i := 0 to |refs|
        invariant missing == [] <==> forall j | 0 <= j < i :: Present(cases, refs[j], exp)
        invariant forall j | 0 <= j < i :: Decide(exp, refs[j]).Ok?
      {
        var decision := Decide(exp, refs[i]);
        if decision.Err? {
          return false;
        }
        if decision.value != Unclaimed && !(CaseKey(refs[i]) in cases && cases[CaseKey(refs[i])].observed.Some?) {
          missing := missing + [CaseKey(refs[i])];
        }
      }
      return |missing| == 0;
    }
  }

  ghost predicate Present(cases: map<string, Recorded>, c: CaseRef, exp: Expectations) {
    Decide(exp, c) == Ok(Unclaimed) || HasObservation(cases, CaseKey(c))
  }

  ghost predicate Complete(cases: map<string, Recorded>, refs: seq<CaseRef>, exp: Expectations) {
    forall i | 0 <= i < |refs| :: Decide(exp, refs[i]).Ok? && Present(cases, refs[i], exp)
  }

  // Whether an entry or a listed id matches some claimed case.
  ghost predicate Covered(exp: Expectations, refs: seq<CaseRef>, m: Matcher) {
    exists i :: 0 <= i < |refs| && Claimed(exp, refs[i]) && m.Matches(CaseKey(refs[i]))
  }

  ghost predicate NothingDangles(exp: Expectations, suite: Suite, refs: seq<CaseRef>) {
    && (forall i | 0 <= i < |exp.unsupported| && exp.unsupported[i].suite == suite ::
          Covered(exp, refs, exp.unsupported[i].matcher))
    && (forall id | id in exp.knownFailing && StartsWith(id, Prefix(suite)) :: Covered(exp, refs, Id(id)))
  }

  // The keys of the claimed cases.
  ghost predicate ClaimedKeys(exp: Expectations, refs: seq<CaseRef>, keys: seq<string>) {
    && (forall k | k in keys :: exists j :: 0 <= j < |refs| && Claimed(exp, refs[j]) && CaseKey(refs[j]) == k)
    && (forall j | 0 <= j < |refs| && Claimed(exp, refs[j]) :: CaseKey(refs[j]) in keys)
  }

  method DanglingEntries(exp: Expectations, suite: Suite, refs: seq<CaseRef>) returns (problems: seq<Matcher>)
    ensures problems == [] <==> NothingDangles(exp, suite, refs)
  {
    hide ClaimedKeys, Covered;
    var claimedKeys := CollectClaimed(exp, refs);
    var entries := DanglingUnsupported(exp, suite, refs, claimedKeys);
    var ids := DanglingKnown(exp, suite, refs, claimedKeys);
    problems := entries + ids;
  }

  method CollectClaimed(exp: Expectations, refs: seq<CaseRef>) returns (claimedKeys: seq<string>)
    ensures ClaimedKeys(exp, refs, claimedKeys)
  {
    hide CaseKey, Claimed;
    claimedKeys := [];
    for i := 0 to |refs|
      invariant forall k | k in claimedKeys :: exists j :: 0 <= j < i && Claimed(exp, refs[j]) && CaseKey(refs[j]) == k
      invariant forall j | 0 <= j < i && Claimed(exp, refs[j]) :: CaseKey(refs[j]) in claimedKeys
    {
      if Claimed(exp, refs[i]) {
        claimedKeys := claimedKeys + [CaseKey(refs[i])];
      }
    }
  }

  // The first loop: entries of the suite that match no claimed case.
  method DanglingUnsupported(exp: Expectations, suite: Suite, refs: seq<CaseRef>, claimedKeys: seq<string>)
    returns (problems: seq<Matcher>)
    requires ClaimedKeys(exp, refs, claimedKeys)
    ensures problems == [] <==> forall i | 0 <= i < |exp.unsupported| && exp.unsupported[i].suite == suite ::
      Covered(exp, refs, exp.unsupported[i].matcher)
  {
    hide ClaimedKeys, Covered;
    problems := [];
    for i := 0 to |exp.unsupported|
      invariant problems == [] <==> forall j | 0 <= j < i && exp.unsupported[j].suite == suite ::
        Covered(exp, refs, exp.unsupported[j].matcher)
    {
      var u := exp.unsupported[i];
      if u.suite != suite {
        continue;
      }
      var found := AnyMatches(u.matcher, claimedKeys);
      FoundIsCovered(exp, refs, claimedKeys, u.matcher);
      if !found {
        problems := problems + [u.matcher];
      }
    }
  }

  // The second loop: listed ids of the suite that are no claimed case's key.
  method DanglingKnown(exp: Expectations, suite: Suite, refs: seq<CaseRef>, claimedKeys: seq<string>)
    returns (problems: seq<Matcher>)
    requires ClaimedKeys(exp, refs, claimedKeys)
    ensures problems == [] <==> forall id | id in exp.knownFailing && StartsWith(id, Prefix(suite)) :: Covered(exp, refs, Id(id))
  {
    hide ClaimedKeys, Covered, StartsWith, Prefix;
    problems := [];
    var rest := exp.knownFailing.Keys;
    while rest != {}
      invariant rest <= exp.knownFailing.Keys
      invariant problems == [] <==>
        forall id | id in exp.knownFailing.Keys - rest && StartsWith(id, Prefix(suite)) :: Covered(exp, refs, Id(id))
      decreases |rest|
    {
      var id :| id in rest;
      rest := rest - {id};
      if !StartsWith(id, Prefix(suite)) {
        continue;
      }
      var found := AnyMatches(Id(id), claimedKeys);
      FoundIsCovered(exp, refs, claimedKeys, Id(id));
      if !found {
        problems := problems + [Id(id)];
      }
    }
  }

  method AnyMatches(m: Matcher, keys: seq<string>) returns (found: bool)
    ensures found <==> exists k :: k in keys && m.Matches(k)
  {
    for i := 0 to |keys|
      invariant forall j | 0 <= j < i :: !m.Matches(keys[j])
    {
      if m.Matches(keys[i]) {
        assert keys[i] in keys;
        return true;
      }
    }
    return false;
  }

  lemma FoundIsCovered(exp: Expectations, refs: seq<CaseRef>, keys: seq<string>, m: Matcher)
    requires ClaimedKeys(exp, refs, keys)
    ensures (exists k :: k in keys && m.Matches(k)) <==> Covered(exp, refs, m)
  {
    if k :| k in keys && m.Matches(k) {
      var j :| 0 <= j < |refs| && Claimed(exp, refs[j]) && CaseKey(refs[j]) == k;
    }
  }

  // ---- a whole run ----

  // An execution of the case at a position of the list, and what it showed.
  datatype Execution = Execution(at: nat, observed: Observed)

  ghost predicate OfList(refs: seq<CaseRef>, run: seq<Execution>) {
    forall i | 0 <= i < |run| :: run[i].at < |refs|
  }

  // Registering the cases records the unclaimed ones as not executed.
  ghost function RegisteredCases(exp: Expectations, refs: seq<CaseRef>): map<string, Recorded> {
    if refs == [] then map[]
    else
      var front, last := RegisteredCases(exp, refs[..|refs| - 1]), refs[|refs| - 1];
      if Decide(exp, last) == Ok(Unclaimed) then front[CaseKey(last) := Recorded(last.capability, Unclaimed, None)]
      else front
  }

  // The recorder after the verdicts of a run.
  ghost function RecordedCases(exp: Expectations, refs: seq<CaseRef>, run: seq<Execution>): map<string, Recorded>
    requires OfList(refs, run)
  {
    if run == [] then RegisteredCases(exp, refs)
    else
      var last := run[|run| - 1];
      var c := refs[last.at];
      RecordedCases(exp, refs, run[..|run| - 1])[CaseKey(c) :=
        Recorded(c.capability, Decide(exp, c).GetOr(Unclaimed), Some(last.observed))]
  }

  // No verdict of the run threw.
  ghost predicate Reconciled(exp: Expectations, refs: seq<CaseRef>, run: seq<Execution>)
    requires OfList(refs, run)
  {
    forall i | 0 <= i < |run| :: Decide(exp, refs[run[i].at]) == Ok(KindOf(run[i].observed))
  }

  // No verdict threw, nothing is missing, nothing dangles.
  ghost predicate Green(exp: Expectations, suite: Suite, refs: seq<CaseRef>, run: seq<Execution>)
    requires OfList(refs, run)
  {
    && Reconciled(exp, refs, run)
    && Complete(RecordedCases(exp, refs, run), refs, exp)
    && NothingDangles(exp, suite, refs)
  }

  // The claimed positions of the list have pairwise different keys.
  ghost predicate NoHiding(exp: Expectations, refs: seq<CaseRef>) {
    forall i, j | 0 <= i < j < |refs| && Claimed(exp, refs[i]) && Claimed(exp, refs[j]) ::
      CaseKey(refs[i]) != CaseKey(refs[j])
  }

  ghost predicate Executed(run: seq<Execution>, at: nat) {
    exists i :: 0 <= i < |run| && run[i].at == at
  }

  ghost predicate HasObservation(cases: map<string, Recorded>, key: string) {
    key in cases && cases[key].observed.Some?
  }

  // Whether the run executed a case with this key.
  ghost predicate Saw(refs: seq<CaseRef>, run: seq<Execution>, key: string)
    requires OfList(refs, run)
  {
    exists i :: 0 <= i < |run| && CaseKey(refs[run[i].at]) == key
  }

  lemma {:induction false} RegisteredUnobserved(exp: Expectations, refs: seq<CaseRef>, key: string)
    ensures !HasObservation(RegisteredCases(exp, refs), key)
  {
    hide CaseKey, Decide;
    if refs != [] {
      RegisteredUnobserved(exp, refs[..|refs| - 1], key);
    }
  }

  lemma {:induction false} RecordedMeansExecuted(exp: Expectations, refs: seq<CaseRef>, run: seq<Execution>, key: string)
    requires OfList(refs, run)
    ensures HasObservation(RecordedCases(exp, refs, run), key) <==> Saw(refs, run, key)
  {
    hide CaseKey, Decide;
    if run == [] {
      RegisteredUnobserved(exp, refs, key);
    } else {
      var n := |run| - 1;
      RecordedMeansExecuted(exp, refs, run[..n], key);
      if i :| 0 <= i < |run| && CaseKey(refs[run[i].at]) == key {
        assert i < n ==> run[..n][i] == run[i];
      }
      if i :| 0 <= i < n && CaseKey(refs[run[..n][i].at]) == key {
        assert run[i] == run[..n][i];
      }
    }
  }

  // Whatever the recorder held of a key, its last execution is what it holds then.
  lemma {:induction false} LastExecutionIsRecorded(exp: Expectations, refs: seq<CaseRef>, run: seq<Execution>, i: nat)
    requires OfList(refs, run) && i < |run|
    requires forall j | i < j < |run| :: CaseKey(refs[run[j].at]) != CaseKey(refs[run[i].at])
    ensures var cases, c := RecordedCases(exp, refs, run), refs[run[i].at];
      && CaseKey(c) in cases
      && cases[CaseKey(c)] == Recorded(c.capability, Decide(exp, c).GetOr(Unclaimed), Some(run[i].observed))
  {
    hide CaseKey, Decide;
    var n := |run| - 1;
    if i < n {
      assert forall j | 0 <= j < n :: run[..n][j] == run[j];
      LastExecutionIsRecorded(exp, refs, run[..n], i);
    }
  }

  // A green run's observation under a claimed position's key is its own.
  lemma OwnObservation(exp: Expectations, refs: seq<CaseRef>, run: seq<Execution>, i: nat)
    requires OfList(refs, run) && NoHiding(exp, refs) && Reconciled(exp, refs, run)
    requires i < |refs| && Claimed(exp, refs[i]) && HasObservation(RecordedCases(exp, refs, run), CaseKey(refs[i]))
    ensures Executed(run, i)
  {
    hide CaseKey, RecordedCases, GlobMatches;
    RecordedMeansExecuted(exp, refs, run, CaseKey(refs[i]));
    var k :| 0 <= k < |run| && CaseKey(refs[run[k].at]) == CaseKey(refs[i]);
    assert Decide(exp, refs[run[k].at]) == Ok(KindOf(run[k].observed));
    assert Claimed(exp, refs[run[k].at]);
  }

  // Every claimed position was executed, every execution showed what was
  // declared for it, and every list entry of the suite is borne out by one.
  ghost predicate ObservedAsDeclared(exp: Expectations, suite: Suite, refs: seq<CaseRef>, run: seq<Execution>)
    requires OfList(refs, run)
  {
    && (forall i | 0 <= i < |refs| :: Decide(exp, refs[i]).Ok? && (Claimed(exp, refs[i]) ==> Executed(run, i)))
    && Reconciled(exp, refs, run)
    && (forall u | 0 <= u < |exp.unsupported| && exp.unsupported[u].suite == suite ::
          BorneOut(refs, run, exp.unsupported[u].matcher, Unsupported))
    && (forall id | id in exp.knownFailing && StartsWith(id, Prefix(suite)) :: BorneOut(refs, run, Id(id), KnownFailing))
  }

  // Some execution of a matching case showed this kind.
  ghost predicate BorneOut(refs: seq<CaseRef>, run: seq<Execution>, m: Matcher, kind: Kind)
    requires OfList(refs, run)
  {
    exists i :: 0 <= i < |run| && m.Matches(CaseKey(refs[run[i].at])) && KindOf(run[i].observed) == kind
  }

  // A green run observes exactly what is declared, and a run that observes
  // exactly that is green: any difference fails it.
  lemma GreenMeansObserved(exp: Expectations, suite: Suite, refs: seq<CaseRef>, run: seq<Execution>)
    requires OfList(refs, run) && NoHiding(exp, refs)
    ensures Green(exp, suite, refs, run) <==> ObservedAsDeclared(exp, suite, refs, run)
  {
    hide Green, ObservedAsDeclared, NoHiding, OfList;
    if Green(exp, suite, refs, run) {
      GreenRunIsFaithful(exp, suite, refs, run);
    }
    if ObservedAsDeclared(exp, suite, refs, run) {
      FaithfulRunIsGreen(exp, suite, refs, run);
    }
  }

  lemma GreenRunIsFaithful(exp: Expectations, suite: Suite, refs: seq<CaseRef>, run: seq<Execution>)
    requires OfList(refs, run) && NoHiding(exp, refs) && Green(exp, suite, refs, run)
    ensures ObservedAsDeclared(exp, suite, refs, run)
  {
    hide CaseKey, GlobMatches, RecordedCases, NoHiding;
    forall i | 0 <= i < |refs| && Claimed(exp, refs[i]) ensures Executed(run, i) {
      assert Present(RecordedCases(exp, refs, run), refs[i], exp);
      OwnObservation(exp, refs, run, i);
    }
    forall u | 0 <= u < |exp.unsupported| && exp.unsupported[u].suite == suite
      ensures BorneOut(refs, run, exp.unsupported[u].matcher, Unsupported)
    {
      var m := exp.unsupported[u].matcher;
      assert Covered(exp, refs, m);
      var j :| 0 <= j < |refs| && Claimed(exp, refs[j]) && m.Matches(CaseKey(refs[j]));
      var i :| 0 <= i < |run| && run[i].at == j;
      assert SomeMatch(exp.unsupported, CaseKey(refs[j]));
    }
    forall id | id in exp.knownFailing && StartsWith(id, Prefix(suite)) ensures BorneOut(refs, run, Id(id), KnownFailing) {
      assert Covered(exp, refs, Id(id));
      var j :| 0 <= j < |refs| && Claimed(exp, refs[j]) && Id(id).Matches(CaseKey(refs[j]));
      var i :| 0 <= i < |run| && run[i].at == j;
      assert Decide(exp, refs[j]).Ok?;
    }
  }

  lemma FaithfulRunIsGreen(exp: Expectations, suite: Suite, refs: seq<CaseRef>, run: seq<Execution>)
    requires OfList(refs, run) && ObservedAsDeclared(exp, suite, refs, run)
    ensures Green(exp, suite, refs, run)
  {
    hide CaseKey, GlobMatches, RecordedCases;
    forall i | 0 <= i < |refs| ensures Present(RecordedCases(exp, refs, run), refs[i], exp) {
      RecordedMeansExecuted(exp, refs, run, CaseKey(refs[i]));
    }
    forall u | 0 <= u < |exp.unsupported| && exp.unsupported[u].suite == suite
      ensures Covered(exp, refs, exp.unsupported[u].matcher)
    {
      var m := exp.unsupported[u].matcher;
      assert BorneOut(refs, run, m, Unsupported);
      var i :| 0 <= i < |run| && m.Matches(CaseKey(refs[run[i].at])) && KindOf(run[i].observed) == Unsupported;
      assert Decide(exp, refs[run[i].at]) == Ok(Unsupported);
    }
    forall id | id in exp.knownFailing && StartsWith(id, Prefix(suite)) ensures Covered(exp, refs, Id(id)) {
      assert BorneOut(refs, run, Id(id), KnownFailing);
      var i :| 0 <= i < |run| && Id(id).Matches(CaseKey(refs[run[i].at])) && KindOf(run[i].observed) == KnownFailing;
      assert Decide(exp, refs[run[i].at]) == Ok(KnownFailing);
    }
  }

  ghost predicate IdsUnique(refs: seq<CaseRef>) {
    forall i, j | 0 <= i < j < |refs| :: refs[i].id != refs[j].id
  }

  // The protocol driver's test of its own list.
  method CheckIds(refs: seq<CaseRef>) returns (ok: bool)
    ensures ok <==> IdsUnique(refs)
  {
    var seen: set<string> := {};
    for i := 0 to |refs|
      invariant seen == set k | 0 <= k < i :: refs[k].id
      invariant forall k, l | 0 <= k < l < i :: refs[k].id != refs[l].id
    {
      if refs[i].id in seen {
        return false;
      }
      seen := seen + {refs[i].id};
    }
    return true;
  }

  // A suite's driver: registers the cases, runs some of them, then checks that
  // none is missing and no entry dangles; the protocol driver tests its ids as
  // well. green is false when anything throws.
  method RunSuite(
    recorder: CaseRecorder, exp: Expectations, suite: Suite, refs: seq<CaseRef>, run: seq<Execution>, testsIds: bool)
    returns (green: bool)
    requires recorder.cases == map[] && OfList(refs, run)
    modifies recorder
    ensures green <==> Green(exp, suite, refs, run) && (testsIds ==> IdsUnique(refs))
    ensures (forall i | 0 <= i < |refs| :: Decide(exp, refs[i]).Ok?) ==> recorder.cases == RecordedCases(exp, refs, run)
  {
    hide CaseKey, Decide, Complete, NothingDangles, IdsUnique;
    for i := 0 to |refs|
      invariant recorder.cases == RegisteredCases(exp, refs[..i])
      invariant forall j | 0 <= j < i :: Decide(exp, refs[j]).Ok?
    {
      assert refs[..i + 1][..i] == refs[..i];
      var decision := Decide(exp, refs[i]);
      if decision.Err? {
        NotComplete(exp, refs, RecordedCases(exp, refs, run), i);
        return false;
      }
      if decision.value == Unclaimed {
        recorder.Record(refs[i], Unclaimed, None);
      }
    }
    assert refs[..|refs|] == refs;
    green := true;
    for i := 0 to |run|
      invariant recorder.cases == RecordedCases(exp, refs, run[..i])
      invariant green <==> Reconciled(exp, refs, run[..i])
    {
      assert run[..i + 1][..i] == run[..i];
      var c := refs[run[i].at];
      var decision := Decide(exp, c);
      var ok := recorder.Verdict(c, decision.value, run[i].observed, false);
      ReconciledNext(exp, refs, run, i);
      green := green && ok;
    }
    assert run[..|run|] == run;
    var complete := recorder.AssertComplete(refs, exp);
    var dangling := DanglingEntries(exp, suite, refs);
    var unique := true;
    if testsIds {
      unique := CheckIds(refs);
    }
    green := green && complete && dangling == [] && unique;
  }

  lemma ReconciledNext(exp: Expectations, refs: seq<CaseRef>, run: seq<Execution>, i: nat)
    requires OfList(refs, run) && i < |run|
    ensures Reconciled(exp, refs, run[..i + 1])
      <==> Reconciled(exp, refs, run[..i]) && Decide(exp, refs[run[i].at]) == Ok(KindOf(run[i].observed))
  {
    hide Decide;
    var front, next := run[..i], run[..i + 1];
    assert forall k | 0 <= k < i :: next[k] == front[k] == run[k];
    assert next[i] == run[i];
  }

  lemma NotComplete(exp: Expectations, refs: seq<CaseRef>, cases: map<string, Recorded>, i: nat)
    requires i < |refs| && Decide(exp, refs[i]).Err?
    ensures !Complete(cases, refs, exp)
  {
  }

  // The protocol driver's green run always proves what is declared: its cases
  // are of one suite, and its test of their ids leaves nothing to hide.
  lemma TestedIdsProve(exp: Expectations, suite: Suite, refs: seq<CaseRef>, run: seq<Execution>)
    requires OfList(refs, run) && IdsUnique(refs) && forall i | 0 <= i < |refs| :: refs[i].suite == suite
    ensures Green(exp, suite, refs, run) <==> ObservedAsDeclared(exp, suite, refs, run)
  {
    hide CaseKey, Green, ObservedAsDeclared, Claimed;
    forall i, j | 0 <= i < j < |refs| ensures CaseKey(refs[i]) != CaseKey(refs[j]) {
      if CaseKey(refs[i]) == CaseKey(refs[j]) {
        CaseKeyInjective(refs[i], refs[j]);
      }
    }
    GreenMeansObserved(exp, suite, refs, run);
  }

  // ---- cases that hide each other ----

  ghost function Without(run: seq<Execution>, at: nat): (r: seq<Execution>)
    ensures forall i | 0 <= i < |r| :: r[i] in run && r[i].at != at
    ensures forall i | 0 <= i < |run| && run[i].at != at :: run[i] in r
  {
    if run == [] then []
    else Without(run[..|run| - 1], at) + if run[|run| - 1].at == at then [] else [run[|run| - 1]]
  }

  // The run without the executions at j, and with one at i instead.
  ghost function Hiding(run: seq<Execution>, i: nat, j: nat, observed: Observed): seq<Execution> {
    Without(run, j) + [Execution(i, observed)]
  }

  lemma HidingKeepsKeys(refs: seq<CaseRef>, run: seq<Execution>, i: nat, j: nat, observed: Observed, key: string)
    requires OfList(refs, run) && i < |refs| && j < |refs| && CaseKey(refs[i]) == CaseKey(refs[j]) && Saw(refs, run, key)
    ensures OfList(refs, Hiding(run, i, j, observed)) && Saw(refs, Hiding(run, i, j, observed), key)
  {
    hide CaseKey;
    HidingOfList(refs, run, i, j, observed);
    var other := Hiding(run, i, j, observed);
    var n :| 0 <= n < |run| && CaseKey(refs[run[n].at]) == key;
    if run[n].at == j {
      assert CaseKey(refs[other[|other| - 1].at]) == key;
    } else {
      var front := Without(run, j);
      var k :| 0 <= k < |front| && front[k] == run[n];
      assert other[k] == run[n];
    }
  }

  lemma HidingOfList(refs: seq<CaseRef>, run: seq<Execution>, i: nat, j: nat, observed: Observed)
    requires OfList(refs, run) && i < |refs|
    ensures OfList(refs, Hiding(run, i, j, observed))
  {
    var other := Hiding(run, i, j, observed);
    forall n | 0 <= n < |other| ensures other[n].at < |refs| {
      if n < |other| - 1 {
        assert other[n] == Without(run, j)[n] && other[n] in run;
      }
    }
  }

  // Two claimed positions under one key: what a green run saw of the key can be
  // seen at one of them alone.
  lemma HiddenRunIsGreen(exp: Expectations, suite: Suite, refs: seq<CaseRef>, run: seq<Execution>, i: nat, j: nat)
    returns (other: seq<Execution>)
    requires i < |refs| && j < |refs| && i != j && Claimed(exp, refs[i]) && Claimed(exp, refs[j])
    requires CaseKey(refs[i]) == CaseKey(refs[j]) && OfList(refs, run) && Green(exp, suite, refs, run)
    ensures OfList(refs, other) && Green(exp, suite, refs, other) && !Executed(other, j)
  {
    hide CaseKey, GlobMatches, RecordedCases, NothingDangles;
    RecordedMeansExecuted(exp, refs, run, CaseKey(refs[j]));
    assert Present(RecordedCases(exp, refs, run), refs[j], exp);
    var k :| 0 <= k < |run| && CaseKey(refs[run[k].at]) == CaseKey(refs[j]);
    assert Decide(exp, refs[run[k].at]) == Ok(KindOf(run[k].observed));
    assert Decide(exp, refs[i]) == Decide(exp, refs[run[k].at]);
    other := Hiding(run, i, j, run[k].observed);
    HidingOfList(refs, run, i, j, run[k].observed);
    forall n | 0 <= n < |other|
      ensures Decide(exp, refs[other[n].at]) == Ok(KindOf(other[n].observed)) && other[n].at != j
    {
      if n < |other| - 1 {
        assert other[n] == Without(run, j)[n] && other[n] in run;
      }
    }
    forall n | 0 <= n < |refs| ensures Present(RecordedCases(exp, refs, other), refs[n], exp) {
      assert Present(RecordedCases(exp, refs, run), refs[n], exp);
      RecordedMeansExecuted(exp, refs, run, CaseKey(refs[n]));
      RecordedMeansExecuted(exp, refs, other, CaseKey(refs[n]));
      if Decide(exp, refs[n]) != Ok(Unclaimed) {
        HidingKeepsKeys(refs, run, i, j, run[k].observed, CaseKey(refs[n]));
      }
    }
  }

  // A green run proves what is declared exactly for lists whose claimed
  // positions have different keys: where a run can be green at all, every green
  // run of the list executes every claimed position, and so observes what is
  // declared, if and only if that holds.
  lemma GreenProvesExactly(exp: Expectations, suite: Suite, refs: seq<CaseRef>, green: seq<Execution>)
    requires OfList(refs, green) && Green(exp, suite, refs, green)
    ensures NoHiding(exp, refs) <==>
      forall run | OfList(refs, run) && Green(exp, suite, refs, run) :: ObservedAsDeclared(exp, suite, refs, run)
    ensures NoHiding(exp, refs) <==>
      forall run, i | OfList(refs, run) && Green(exp, suite, refs, run) && 0 <= i < |refs| && Claimed(exp, refs[i]) ::
        Executed(run, i)
  {
    hide Green, OfList, CaseKey, Claimed, Reconciled, BorneOut, Decide, Executed;
    if NoHiding(exp, refs) {
      forall run | OfList(refs, run) && Green(exp, suite, refs, run) ensures ObservedAsDeclared(exp, suite, refs, run) {
        GreenMeansObserved(exp, suite, refs, run);
      }
    } else {
      var i, j :| 0 <= i < j < |refs| && Claimed(exp, refs[i]) && Claimed(exp, refs[j]) && CaseKey(refs[i]) == CaseKey(refs[j]);
      var other := HiddenRunIsGreen(exp, suite, refs, green, i, j);
      assert !ObservedAsDeclared(exp, suite, refs, other);
    }
  }

  // Two flow cases of one name: a run of the first is green without the second.
  lemma FlowNamesHide(name: string)
    ensures var c := CaseRef(Flow, name, "flow");
      var exp, refs, run := Expectations(map[Flow := {"flow"}], [], map[]), [c, c], [Execution(0, Passed)];
      OfList(refs, run) && Green(exp, Flow, refs, run) && Claimed(exp, refs[1]) && !Executed(run, 1)
  {
    var c := CaseRef(Flow, name, "flow");
    var exp, refs, run := Expectations(map[Flow := {"flow"}], [], map[]), [c, c], [Execution(0, Passed)];
    RecordedMeansExecuted(exp, refs, run, CaseKey(c));
    assert CaseKey(refs[run[0].at]) == CaseKey(c);
    assert Decide(exp, c) == Ok(Pass);
  }

  // ---- the coverage table ----

  ghost function CountDecided(exp: Expectations, refs: seq<CaseRef>, kind: Kind): nat {
    if refs == [] then 0
    else
      var one := if Decide(exp, refs[|refs| - 1]) == Ok(kind) then 1 else 0;
      CountDecided(exp, refs[..|refs| - 1], kind) + one
  }

  // Positions whose execution showed this kind.
  ghost function CountObserved(run: seq<Execution>, row: seq<nat>, kind: Kind): nat {
    if row == [] then 0
    else
      var one := if Showed(run, row[|row| - 1], kind) then 1 else 0;
      CountObserved(run, row[..|row| - 1], kind) + one
  }

  ghost predicate Showed(run: seq<Execution>, at: nat, kind: Kind) {
    exists i :: 0 <= i < |run| && run[i].at == at && KindOf(run[i].observed) == kind
  }

  datatype Counts = Counts(pass: nat, unsupported: nat, knownFailing: nat, unclaimed: nat)

  // The counting loop of one table cell; None when decide throws.
  method CountCell(exp: Expectations, inRow: seq<CaseRef>) returns (r: Option<Counts>)
    ensures r.Some? <==> forall i | 0 <= i < |inRow| :: Decide(exp, inRow[i]).Ok?
    ensures r.Some? ==> r.value == Counts(
      CountDecided(exp, inRow, Pass), CountDecided(exp, inRow, Unsupported),
      CountDecided(exp, inRow, KnownFailing), CountDecided(exp, inRow, Unclaimed))
    ensures r.Some? ==> r.value.pass + r.value.unsupported + r.value.knownFailing + r.value.unclaimed == |inRow|
  {
    hide Decide;
    var counts := Counts(0, 0, 0, 0);
    for i := 0 to |inRow|
      invariant forall j | 0 <= j < i :: Decide(exp, inRow[j]).Ok?
      invariant counts == Counts(
        CountDecided(exp, inRow[..i], Pass), CountDecided(exp, inRow[..i], Unsupported),
        CountDecided(exp, inRow[..i], KnownFailing), CountDecided(exp, inRow[..i], Unclaimed))
      invariant counts.pass + counts.unsupported + counts.knownFailing + counts.unclaimed == i
    {
      assert inRow[..i + 1][..i] == inRow[..i];
      var decision := Decide(exp, inRow[i]);
      if decision.Err? {
        return None;
      }
      match decision.value {
        case Pass => counts := counts.(pass := counts.pass + 1);
        case Unsupported => counts := counts.(unsupported := counts.unsupported + 1);
        case KnownFailing => counts := counts.(knownFailing := counts.knownFailing + 1);
        case Unclaimed => counts := counts.(unclaimed := counts.unclaimed + 1);
      }
    }
    assert inRow[..|inRow|] == inRow;
    return Some(counts);
  }

  // After a green run the declared counts of every table cell are the observed
  // ones: the cell's cases may be any selection of the list's positions.
  lemma {:induction false} CoverageIsObserved(
    exp: Expectations, suite: Suite, refs: seq<CaseRef>, run: seq<Execution>, row: seq<nat>, inRow: seq<CaseRef>, kind: Kind)
    requires OfList(refs, run) && NoHiding(exp, refs) && Green(exp, suite, refs, run) && kind != Unclaimed
    requires |inRow| == |row| && forall i | 0 <= i < |row| :: row[i] < |refs| && inRow[i] == refs[row[i]]
    ensures CountDecided(exp, inRow, kind) == CountObserved(run, row, kind)
    decreases |row|
  {
    hide CaseKey, RecordedCases, Decide, NoHiding;
    if row != [] {
      var n := |row| - 1;
      CoverageIsObserved(exp, suite, refs, run, row[..n], inRow[..n], kind);
      DecidedIsShown(exp, suite, refs, run, row[n], kind);
    }
  }

  lemma DecidedIsShown(exp: Expectations, suite: Suite, refs: seq<CaseRef>, run: seq<Execution>, at: nat, kind: Kind)
    requires OfList(refs, run) && NoHiding(exp, refs) && Green(exp, suite, refs, run)
    requires at < |refs| && kind != Unclaimed
    ensures Decide(exp, refs[at]) == Ok(kind) <==> Showed(run, at, kind)
  {
    hide CaseKey, RecordedCases, Green, GlobMatches, NoHiding;
    GreenMeansObserved(exp, suite, refs, run);
    if Decide(exp, refs[at]) == Ok(kind) {
      assert Executed(run, at);
      var k :| 0 <= k < |run| && run[k].at == at;
      assert Decide(exp, refs[run[k].at]) == Ok(KindOf(run[k].observed));
    }
  }
}
