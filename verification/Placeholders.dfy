/**
 Text for the compositor: the single pass of `re.sub` over `\{event\.([A-Za-z0-9_]+)\}` in config/event.py,
 and the XML escape that follows it in pipeline/compositor.py.
 */
module Placeholders {
  import opened Results

  const OPENING := "{event."

  predicate IsWord(c: char) {
    'a' <= c <= 'z' || 'A' <= c <= 'Z' || '0' <= c <= '9' || c == '_'
  }

  /** The characters of a key by their code points: ASCII digits, capital and small letters, and the underscore. */
  lemma WordCharacters(c: char)
    ensures IsWord(c) <==>
              48 <= c as int <= 57 || 65 <= c as int <= 90 || 97 <= c as int <= 122 || c as int == 95
  {
  }

  // ---------------------------------------------------------------- scanning

  datatype Token = Literal(c: char) | Placeholder(key: string)

  /** The longest prefix of word characters. */
  function WordPrefix(text: string): (n: nat)
    ensures n <= |text|
    ensures forall i | 0 <= i < n :: IsWord(text[i])
    ensures n < |text| ==> !IsWord(text[n])
  {
    if |text| == 0 || !IsWord(text[0]) then 0 else 1 + WordPrefix(text[1..])
  }

  /** The key if the pattern matches at the start of the text. */
  function MatchAt(text: string): (key: Option<string>)
    ensures key.Some? ==>
      |key.value| > 0 && OPENING + key.value + "}" <= text && (forall c | c in key.value :: IsWord(c))
  {
    if OPENING <= text then
      var rest := text[|OPENING|..];
      var n := WordPrefix(rest);
      if 0 < n < |rest| && rest[n] == '}' then
        assert text == OPENING + rest[..n] + "}" + rest[n + 1..];
        Some(rest[..n])
      else None
    else None
  }

  /** The declarative reading of the pattern: the text starts with `{event.`, word characters, `}`. */
  ghost predicate StartsWithPlaceholder(text: string, key: string) {
    |key| > 0 && (forall i | 0 <= i < |key| :: IsWord(key[i])) && "{event." + key + "}" <= text
  }

  lemma MatchIsPattern(text: string, key: string)
    ensures MatchAt(text) == Some(key) <==> StartsWithPlaceholder(text, key)
  {
    if StartsWithPlaceholder(text, key) {
      var rest := text[|OPENING|..];
      var n := WordPrefix(rest);
      assert (OPENING + key + "}")[|OPENING|..] == key + "}";
      assert key + "}" <= rest;
      assert rest[|key|] == '}' && !IsWord('}');
      assert forall i | 0 <= i < |key| :: rest[i] == key[i];
      assert n == |key| && rest[..n] == key;
    }
  }

  function Text(token: Token): string {
    match token
    case Literal(c) => [c]
    case Placeholder(key) => OPENING + key + "}"
  }

  function Scan(text: string): seq<Token>
    decreases |text|
  {
    if |text| == 0 then []
    else
      var key := MatchAt(text);
      if key.Some? then [Placeholder(key.value)] + Scan(text[|OPENING| + |key.value| + 1..])
      else [Literal(text[0])] + Scan(text[1..])
  }

  function Print(tokens: seq<Token>): string {
    if |tokens| == 0 then [] else Text(tokens[0]) + Print(tokens[1..])
  }

  /** Scanning loses nothing. */
  lemma {:induction false} ScanPrintsBack(text: string)
    ensures Print(Scan(text)) == text
    decreases |text|
  {
    if |text| > 0 {
      var n := Advance(text);
      ScanPrintsBack(text[n..]);
      PrintFirst(text);
      assert text == text[..n] + text[n..];
    }
  }

  lemma PrintFirst(text: string)
    requires |text| > 0
    ensures Print(Scan(text)) == text[..Advance(text)] + Print(Scan(text[Advance(text)..]))
  {
    ScanStep(text);
    FirstTokenText(text);
  }

  lemma FirstTokenText(text: string)
    requires |text| > 0
    ensures |Scan(text)| > 0 && Text(Scan(text)[0]) == text[..Advance(text)]
  {
    var key := MatchAt(text);
    if key.Some? {
      assert Scan(text)[0] == Placeholder(key.value);
      assert text[..|OPENING + key.value + "}"|] == OPENING + key.value + "}";
    } else {
      assert Scan(text)[0] == Literal(text[0]);
    }
  }

  /** Where each token starts in the text. */
  function StartOf(tokens: seq<Token>, k: nat): nat
    requires k <= |tokens|
  {
    if k == 0 then 0 else |Text(tokens[0])| + StartOf(tokens[1..], k - 1)
  }

  /** How far the first token reaches. */
  function Advance(text: string): (n: nat)
    requires |text| > 0
    ensures 0 < n <= |text|
  {
    var key := MatchAt(text);
    if key.Some? then |OPENING| + |key.value| + 1 else 1
  }

  lemma ScanStep(text: string)
    requires |text| > 0
    ensures |Scan(text)| > 0 && |Text(Scan(text)[0])| == Advance(text)
    ensures Scan(text)[1..] == Scan(text[Advance(text)..])
    ensures forall key :: Scan(text)[0] == Placeholder(key) <==> MatchAt(text) == Some(key)
  {
  }

  /** The scan of the text has the placeholder `key`, and it starts at position `i`. */
  ghost predicate FoundAt(text: string, i: nat, key: string) {
    exists k | 0 <= k < |Scan(text)| :: Scan(text)[k] == Placeholder(key) && StartOf(Scan(text), k) == i
  }

  lemma FoundAfterFirst(text: string, i: nat, key: string)
    requires |text| > 0 && FoundAt(text[Advance(text)..], i, key)
    ensures FoundAt(text, Advance(text) + i, key)
  {
    ScanStep(text);
    var tokens, rest := Scan(text), Scan(text[Advance(text)..]);
    var k :| 0 <= k < |rest| && rest[k] == Placeholder(key) && StartOf(rest, k) == i;
    assert tokens[k + 1] == tokens[1..][k];
    assert StartOf(tokens, k + 1) == |Text(tokens[0])| + StartOf(tokens[1..], k);
  }

  /** The pattern matches at position `i` of the text. */
  ghost predicate Occurs(text: string, i: nat, key: string) {
    i <= |text| && StartsWithPlaceholder(text[i..], key)
  }

  lemma OccurrenceAtStart(text: string, key: string)
    requires Occurs(text, 0, key)
    ensures FoundAt(text, 0, key)
  {
    assert text[0..] == text;
    MatchIsPattern(text, key);
    ScanStep(text);
  }

  lemma OccurrenceLaterOn(text: string, i: nat, key: string)
    requires i > 0 && Occurs(text, i, key)
    ensures |text| > 0 && Advance(text) <= i && Occurs(text[Advance(text)..], i - Advance(text), key)
  {
    assert text[i] == text[i..][0] == '{';
    if MatchAt(text).Some? {
      NoBraceInside(text, MatchAt(text).value, i);
    }
    assert text[Advance(text)..][i - Advance(text)..] == text[i..];
  }

  /** No occurrence of the pattern is missed: wherever it matches in the text, the scan has a placeholder
      that starts there.  (Two occurrences cannot overlap: inside one there is no second brace.) */
  lemma {:induction false} ScanFindsAll(text: string, i: nat, key: string)
    requires Occurs(text, i, key)
    ensures FoundAt(text, i, key)
    decreases |text|
  {
    if i == 0 {
      OccurrenceAtStart(text, key);
    } else {
      OccurrenceLaterOn(text, i, key);
      var n := Advance(text);
      ScanFindsAll(text[n..], i - n, key);
      FoundAfterFirst(text, i - n, key);
    }
  }

  lemma FirstOrLater(text: string, i: nat, key: string)
    requires FoundAt(text, i, key)
    ensures |text| > 0
    ensures (i == 0 && StartsWithPlaceholder(text, key))
         || (Advance(text) <= i && FoundAt(text[Advance(text)..], i - Advance(text), key))
  {
    var tokens := Scan(text);
    var k :| 0 <= k < |tokens| && tokens[k] == Placeholder(key) && StartOf(tokens, k) == i;
    ScanStep(text);
    if k == 0 {
      MatchIsPattern(text, key);
    } else {
      var rest := Scan(text[Advance(text)..]);
      assert rest[k - 1] == Placeholder(key) && StartOf(rest, k - 1) == i - Advance(text);
    }
  }

  /** And nothing else is taken for a placeholder. */
  lemma {:induction false} FoundIsOccurrence(text: string, i: nat, key: string)
    requires FoundAt(text, i, key)
    ensures Occurs(text, i, key)
    decreases |text|
  {
    FirstOrLater(text, i, key);
    if i == 0 {
      assert text[0..] == text;
    } else {
      var n := Advance(text);
      FoundIsOccurrence(text[n..], i - n, key);
      assert text[n..][i - n..] == text[i..];
    }
  }

  lemma NoBraceInside(text: string, key: string, i: nat)
    requires MatchAt(text) == Some(key) && 0 < i < |text| && text[i] == '{'
    ensures i >= |OPENING| + |key| + 1
  {
    var occurrence := OPENING + key + "}";
    assert forall j | 0 <= j < |occurrence| :: text[j] == occurrence[j];
    assert forall j | 0 <= j < |key| :: occurrence[|OPENING| + j] == key[j] && IsWord(key[j]);
  }

  // ---------------------------------------------------------------- resolution

  datatype EventConfig = EventConfig(title: string, date: string, vars: map<string, string>)

  datatype ResolutionError = NoMatch(key: string)

  function Lookup(event: EventConfig, key: string): Option<string> {
    if key == "title" then Some(event.title)
    else if key == "date" then Some(event.date)
    else if key in event.vars then Some(event.vars[key])
    else None
  }

  /** `resolve_placeholders`: one pass, replacing as it goes; the first key without a value raises. */
  function Resolve(text: string, event: EventConfig): Result<string, ResolutionError>
    decreases |text|
  {
    if |text| == 0 then Ok("")
    else
      var key := MatchAt(text);
      if key.Some? then
        var value := Lookup(event, key.value);
        if value.None? then Err(NoMatch(key.value))
        else
          var rest := Resolve(text[|OPENING| + |key.value| + 1..], event);
          if rest.Err? then rest else Ok(value.value + rest.value)
      else
        var rest := Resolve(text[1..], event);
        if rest.Err? then rest else Ok([text[0]] + rest.value)
  }

  predicate Resolvable(event: EventConfig, token: Token) {
    token.Placeholder? ==> token.key in {"title", "date"} || token.key in event.vars
  }

  /** What a token becomes: a literal itself, a placeholder its value, the well-known fields first. */
  function Value(event: EventConfig, token: Token): string
    requires Resolvable(event, token)
  {
    match token
    case Literal(c) => [c]
    case Placeholder(key) =>
      if key == "title" then event.title else if key == "date" then event.date else event.vars[key]
  }

  function Values(event: EventConfig, tokens: seq<Token>): string
    requires forall k | 0 <= k < |tokens| :: Resolvable(event, tokens[k])
  {
    if |tokens| == 0 then "" else Value(event, tokens[0]) + Values(event, tokens[1..])
  }

  predicate AllResolvable(event: EventConfig, tokens: seq<Token>) {
    forall k | 0 <= k < |tokens| :: Resolvable(event, tokens[k])
  }

  /** Token `k` is the first one without a value. */
  predicate FirstFailure(event: EventConfig, tokens: seq<Token>, k: nat, key: string) {
    k < |tokens| && tokens[k] == Placeholder(key) && !Resolvable(event, tokens[k]) && AllResolvable(event, tokens[..k])
  }

  /** Resolution succeeds exactly when every placeholder of the original text has a value; it then replaces
      each placeholder of the original text, once, and never looks into what it inserted.  Otherwise it
      names the first placeholder without a value. */
  lemma {:induction false} ResolveIsOnePass(text: string, event: EventConfig)
    ensures Resolve(text, event).Ok? <==> AllResolvable(event, Scan(text))
    ensures Resolve(text, event).Ok? ==> Resolve(text, event).value == Values(event, Scan(text))
    decreases |text|
  {
    if |text| > 0 {
      ScanStep(text);
      var rest, tokens := text[Advance(text)..], Scan(text);
      ResolveIsOnePass(rest, event);
      assert forall k | 0 < k < |tokens| :: tokens[k] == tokens[1..][k - 1];
    }
  }

  lemma {:induction false} ResolveNamesFirstFailure(text: string, event: EventConfig) returns (k: nat)
    requires Resolve(text, event).Err?
    ensures FirstFailure(event, Scan(text), k, Resolve(text, event).error.key)
    decreases |text|
  {
    ScanStep(text);
    var rest, tokens := text[Advance(text)..], Scan(text);
    if Resolvable(event, tokens[0]) {
      var l := ResolveNamesFirstFailure(rest, event);
      k := l + 1;
      assert tokens[k] == tokens[1..][l];
      assert tokens[..k] == [tokens[0]] + tokens[1..][..l];
    } else {
      k := 0;
    }
  }

  // ---------------------------------------------------------------- the XML escape

  /** `str.replace` of a character. */
  function Replace(s: string, c: char, entity: string): string {
    if |s| == 0 then "" else (if s[0] == c then entity else [s[0]]) + Replace(s[1..], c, entity)
  }

  /** `xml.sax.saxutils.escape`: three replacements in a row, the ampersand first. */
  function Escape(s: string): string {
    Replace(Replace(Replace(s, '&', "&amp;"), '>', "&gt;"), '<', "&lt;")
  }

  function Entity(c: char): string {
    if c == '&' then "&amp;" else if c == '>' then "&gt;" else if c == '<' then "&lt;" else [c]
  }

  function EscapeEach(s: string): string {
    if |s| == 0 then "" else Entity(s[0]) + EscapeEach(s[1..])
  }

  lemma {:induction false} ReplaceConcat(s: string, t: string, c: char, entity: string)
    ensures Replace(s + t, c, entity) == Replace(s, c, entity) + Replace(t, c, entity)
  {
    if |s| == 0 {
      assert s + t == t;
    } else {
      assert (s + t)[1..] == s[1..] + t;
      ReplaceConcat(s[1..], t, c, entity);
    }
  }

  lemma {:induction false} ReplaceAbsent(s: string, c: char, entity: string)
    requires c !in s
    ensures Replace(s, c, entity) == s
  {
    if |s| > 0 {
      ReplaceAbsent(s[1..], c, entity);
    }
  }

  lemma ReplaceOne(c: char, d: char, entity: string)
    ensures Replace([d], c, entity) == if d == c then entity else [d]
  {
    assert [d][1..] == "";
    assert Replace("", c, entity) == "";
  }

  lemma EscapeConcat(s: string, t: string)
    ensures Escape(s + t) == Escape(s) + Escape(t)
  {
    ReplaceConcat(s, t, '&', "&amp;");
    var s1, t1 := Replace(s, '&', "&amp;"), Replace(t, '&', "&amp;");
    ReplaceConcat(s1, t1, '>', "&gt;");
    ReplaceConcat(Replace(s1, '>', "&gt;"), Replace(t1, '>', "&gt;"), '<', "&lt;");
  }

  lemma EscapeOne(c: char)
    ensures Escape([c]) == Entity(c)
  {
    ReplaceOne('&', c, "&amp;");
    if c == '&' {
      ReplaceAbsent("&amp;", '>', "&gt;");
      ReplaceAbsent("&amp;", '<', "&lt;");
    } else {
      EscapeBracket(c);
    }
  }

  lemma EscapeBracket(c: char)
    requires c != '&'
    ensures Replace(Replace([c], '>', "&gt;"), '<', "&lt;") == Entity(c)
  {
    ReplaceOne('>', c, "&gt;");
    ReplaceOne('<', c, "&lt;");
    ReplaceAbsent("&gt;", '<', "&lt;");
  }

  /** The three passes are one: no pass touches what an earlier one inserted. */
  lemma {:induction false} EscapeIsPerCharacter(s: string)
    ensures Escape(s) == EscapeEach(s)
  {
    if |s| > 0 {
      EscapeIsPerCharacter(s[1..]);
      assert s == [s[0]] + s[1..];
      EscapeConcat([s[0]], s[1..]);
      EscapeOne(s[0]);
    }
  }

  /** A reader of XML text: entities stand for their character, everything else for itself. */
  function Unescape(s: string): string
    decreases |s|
  {
    if |s| == 0 then ""
    else if "&amp;" <= s then "&" + Unescape(s[5..])
    else if "&gt;" <= s then ">" + Unescape(s[4..])
    else if "&lt;" <= s then "<" + Unescape(s[4..])
    else [s[0]] + Unescape(s[1..])
  }

  /** No character that markup would give a meaning to is left bare: no angle bracket at all, and every
      ampersand starts one of the three entities. */
  ghost predicate NoBareMarkup(s: string) {
    forall i | 0 <= i < |s| :: NotBareAt(s, i)
  }

  lemma EntityRead(c: char, rest: string)
    ensures Unescape(Entity(c) + rest) == [c] + Unescape(rest)
  {
    var s := Entity(c) + rest;
    if c == '&' {
      assert s[5..] == rest;
    } else if c == '>' {
      assert "&gt;" <= s && s[1] == 'g';
      assert s[4..] == rest;
    } else if c == '<' {
      assert "&lt;" <= s && s[1] == 'l';
      assert s[4..] == rest;
    } else {
      assert s[0] == c && s[1..] == rest;
    }
  }

  ghost predicate NotBareAt(s: string, i: nat)
    requires i < |s|
  {
    && s[i] != '<' && s[i] != '>'
    && (s[i] == '&' ==> "&amp;" <= s[i..] || "&gt;" <= s[i..] || "&lt;" <= s[i..])
  }

  lemma EntityStart(c: char, rest: string)
    ensures NotBareAt(Entity(c) + rest, 0)
  {
    var s := Entity(c) + rest;
    assert s[0..] == s;
  }

  lemma EntityNotBare(c: char, rest: string)
    requires NoBareMarkup(rest)
    ensures NoBareMarkup(Entity(c) + rest)
  {
    var s, n := Entity(c) + rest, |Entity(c)|;
    EntityStart(c, rest);
    forall i | 0 <= i < |s|
      ensures NotBareAt(s, i)
    {
      if i >= n {
        assert s[i] == rest[i - n] && s[i..] == rest[i - n..];
        assert NotBareAt(rest, i - n);
      } else if i > 0 {
        assert s[i] == Entity(c)[i];
      }
    }
  }

  /** Escaping is undone by reading, and leaves no bare markup. */
  lemma {:induction false} EscapeRoundTrip(s: string)
    ensures Unescape(Escape(s)) == s
    ensures NoBareMarkup(Escape(s))
  {
    EscapeIsPerCharacter(s);
    EscapeEachRoundTrip(s);
  }

  lemma {:induction false} EscapeEachRoundTrip(s: string)
    ensures Unescape(EscapeEach(s)) == s
    ensures NoBareMarkup(EscapeEach(s))
  {
    if |s| > 0 {
      EscapeEachRoundTrip(s[1..]);
      EntityRead(s[0], EscapeEach(s[1..]));
      EntityNotBare(s[0], EscapeEach(s[1..]));
    }
  }

  /** The three entities by name; any other character stands for itself. */
  lemma EscapedMarkup(c: char)
    ensures Escape([c]) == if c == '&' then "&amp;" else if c == '<' then "&lt;" else if c == '>' then "&gt;" else [c]
  {
    EscapeOne(c);
  }
}
