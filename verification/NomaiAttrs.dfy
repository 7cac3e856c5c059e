/** Block attributes: a list of entries, written as tokens, comes back exactly when each token scans and reads by itself. */
module NomaiAttrs {
  import opened Prelude
  import opened NomaiText
  import opened NomaiFields
  import opened NomaiFormat

  // ---- Attribute maps are maps ----

  lemma {:induction false} LessIrreflexive(a: string)
    ensures !Less(a, a)
  {
    if a != "" {
      LessIrreflexive(a[1..]);
    }
  }

  lemma {:induction false} LessTransitive(a: string, b: string, c: string)
    requires Less(a, b) && Less(b, c)
    ensures Less(a, c)
  {
    if a != "" && a[0] == b[0] == c[0] {
      LessTransitive(a[1..], b[1..], c[1..]);
    }
  }

  lemma {:induction false} LessTotal(a: string, b: string)
    ensures a == b || Less(a, b) || Less(b, a)
  {
    if a != "" && b != "" && a[0] == b[0] {
      LessTotal(a[1..], b[1..]);
      assert a == [a[0]] + a[1..] && b == [b[0]] + b[1..];
    }
  }

  ghost predicate AllLess(m: seq<Entry>, key: string) {
    forall i :: 0 <= i < |m| ==> Less(m[i].key, key)
  }

  lemma {:induction false} AllLessByLast(m: seq<Entry>, key: string)
    requires SortedKeys(m) && (m == [] || Less(m[|m| - 1].key, key) || m[|m| - 1].key == key)
    ensures m != [] ==> AllLess(m[..|m| - 1], key)
    ensures m == [] || Less(m[|m| - 1].key, key) ==> AllLess(m, key)
  {
    forall i | 0 <= i < |m| - 1
      ensures Less(m[i].key, key)
    {
      if m[|m| - 1].key != key {
        LessTransitive(m[i].key, m[|m| - 1].key, key);
      }
    }
  }

  /** Inserting updates the map the entries stand for, and keeps them in key order. */
  lemma {:induction false} InsertIsMapUpdate(m: seq<Entry>, key: string, value: Json)
    requires SortedKeys(m)
    ensures SortedKeys(Insert(m, key, value))
    ensures forall e :: e in Insert(m, key, value) <==> e == Entry(key, value) || (e.key != key && e in m)
  {
    if m == [] || Less(m[|m| - 1].key, key) {
      AllLessByLast(m, key);
      AppendSorted(m, Entry(key, value));
      NotAmong(m, key);
    } else {
      var init, last := m[..|m| - 1], m[|m| - 1];
      assert m == init + [last];
      if last.key == key {
        AllLessByLast(m, key);
        AppendSorted(init, Entry(key, value));
        NotAmong(init, key);
      } else {
        LessTotal(last.key, key);
        InsertIsMapUpdate(init, key, value);
        forall i | 0 <= i < |Insert(init, key, value)|
          ensures Less(Insert(init, key, value)[i].key, last.key)
        {
          assert Insert(init, key, value)[i] in Insert(init, key, value);
        }
        AppendSorted(Insert(init, key, value), last);
      }
    }
  }

  lemma {:induction false} AppendSorted(m: seq<Entry>, e: Entry)
    requires SortedKeys(m) && AllLess(m, e.key)
    ensures SortedKeys(m + [e])
  {
  }

  lemma {:induction false} NotAmong(m: seq<Entry>, key: string)
    requires AllLess(m, key)
    ensures forall e :: e in m ==> e.key != key
  {
    LessIrreflexive(key);
  }

  lemma {:induction false} InsertLast(m: seq<Entry>, e: Entry)
    requires SortedKeys(m + [e])
    ensures Insert(m, e.key, e.value) == m + [e]
  {
    if m != [] {
      assert (m + [e])[|m| - 1] == m[|m| - 1] && (m + [e])[|m|] == e;
    }
  }

  ghost predicate DistinctKeys(m: seq<Entry>) {
    forall x, y :: x in m && y in m && x.key == y.key ==> x == y
  }

  lemma {:induction false} SortedDistinct(m: seq<Entry>)
    requires SortedKeys(m)
    ensures DistinctKeys(m)
  {
    forall x, y | x in m && y in m && x.key == y.key
      ensures x == y
    {
      LessIrreflexive(x.key);
    }
  }

  // ---- Reading back ----

  lemma {:induction false} TokenParts(a: Attr)
    requires !Has(a.key, '=')
    ensures FirstAt(Token(a), '=') == |a.key| < |Token(a)|
    ensures Token(a)[..|a.key|] == a.key && Token(a)[|a.key| + 1..] == Escape(a.value)
  {
    FirstAtIs(a.key, '=', Escape(a.value));
  }

  lemma {:induction false} AttrsFromPush(tokens: seq<string>, m: seq<Entry>, e: Entry, line: nat)
    requires AttrsFrom(tokens, line) == Ok(m) && SortedKeys(m + [e]) && e.value.Str? && !Has(e.key, '=') && ValueSurvives(e.value.text)
    ensures AttrsFrom(tokens + [Token(Attr(e.key, e.value.text))], line) == Ok(m + [e])
  {
    var all := tokens + [Token(Attr(e.key, e.value.text))];
    assert all[..|all| - 1] == tokens;
    TokenParts(Attr(e.key, e.value.text));
    EscapingIsExact(e.value.text);
    InsertLast(m, e);
  }

  lemma {:induction false} AttrsOfPush(init: seq<Entry>, last: Entry)
    ensures AttrsOf(init + [last]) == AttrsOf(init) + [Attr(last.key, last.value.text)]
  {
  }

  /** The tokens of a sorted list parse back to it. */
  lemma {:induction false} AttrsReadBack(m: seq<Entry>, line: nat)
    requires SortedKeys(m)
    requires forall i :: 0 <= i < |m| ==> m[i].value.Str? && !Has(m[i].key, '=') && ValueSurvives(m[i].value.text)
    ensures AttrsFrom(TokensOf(AttrsOf(m)), line) == Ok(m)
    decreases |m|
  {
    if m != [] {
      var init, last := m[..|m| - 1], m[|m| - 1];
      assert m == init + [last];
      AttrsReadBack(init, line);
      AttrsOfPush(init, last);
      TokensOfPush(AttrsOf(init), Attr(last.key, last.value.text));
      AttrsFromPush(TokensOf(AttrsOf(init)), init, last, line);
    }
  }

  lemma {:induction false} LeadingBlank(s: string)
    requires s != "" && s[0] == ' '
    ensures Trim(s) == Trim(s[1..]) && Tokens(s) == Tokens(s[1..])
  {
    SplitAppend(Outside([], ""), " ", s[1..]);
    SplitOne(Outside([], ""), ' ');
    assert s == " " + s[1..];
  }

  lemma {:induction false} SpacedStarts(attrs: seq<Attr>)
    requires attrs != []
    ensures |Spaced(attrs)| > 1 && Spaced(attrs)[0] == ' ' && Spaced(attrs)[1] == Token(attrs[0])[0]
  {
    if |attrs| > 1 {
      SpacedStarts(attrs[..|attrs| - 1]);
    }
  }

  /** A token that scans whole does not begin with whitespace. */
  lemma {:induction false} WholeStarts(token: string)
    requires Whole(token) && token != ""
    ensures !IsSpace(token[0])
  {
    TokensSolid(token);
  }

  lemma {:induction false} SurvivingEnd(v: string)
    requires ValueSurvives(v)
    ensures Escape(v) != "" && !IsSpace(Escape(v)[|Escape(v)| - 1])
  {
    if NeedsQuote(v) {
      QuoteTrimmed(v);
    }
  }

  /** Behind its first blank the text of surviving attributes has no whitespace at either end. */
  lemma {:induction false} SpacedTrimmed(m: seq<Entry>)
    requires AttrsSurvive(m) && m != []
    ensures Trimmed(Spaced(AttrsOf(m))[1..]) && Spaced(AttrsOf(m))[1..] != ""
  {
    var attrs := AttrsOf(m);
    var last, s := attrs[|attrs| - 1], Spaced(attrs);
    SpacedStarts(attrs);
    WholeStarts(Token(attrs[0]));
    SurvivingEnd(last.value);
    assert s[|s| - 1] == Token(last)[|Token(last)| - 1] == Escape(last.value)[|Escape(last.value)| - 1];
  }

  lemma {:induction false} ParseAttrsReadsBack(m: seq<Entry>, line: nat)
    requires AttrsSurvive(m)
    ensures ParseAttrs(Spaced(AttrsOf(m)), line) == Ok(m)
  {
    if m == [] {
      TrimKeeps("");
    } else {
      var s := Spaced(AttrsOf(m));
      SpacedStarts(AttrsOf(m));
      SpacedTrimmed(m);
      LeadingBlank(s);
      TrimKeeps(s[1..]);
      TokensReadBack(AttrsOf(m));
      AttrsReadBack(m, line);
    }
  }

  // ---- Counting letters ----

  function Letter(c: char): nat {
    if c == '"' || c == '\\' then 0 else 1
  }

  /** Characters that quoting neither adds nor takes. */
  function Letters(s: string): nat {
    if s == "" then 0 else Letters(s[..|s| - 1]) + Letter(s[|s| - 1])
  }

  lemma {:induction false} LettersPush(s: string, c: char)
    ensures Letters(s + [c]) == Letters(s) + Letter(c) && Letters([c]) == Letter(c)
  {
    assert (s + [c])[..|s|] == s && [c][..0] == "";
  }

  lemma {:induction false} LettersAppend(a: string, b: string)
    ensures Letters(a + b) == Letters(a) + Letters(b)
  {
    if b == "" {
      assert a + b == a;
    } else {
      assert (a + b)[..|a + b| - 1] == a + b[..|b| - 1];
      LettersAppend(a, b[..|b| - 1]);
    }
  }

  lemma {:induction false} LettersEscapeChar(c: char)
    ensures Letters(EscapeChar(c)) == Letter(c)
  {
    LettersPush("", c);
    LettersPush("", '\\');
    LettersPush("\\", '"');
    assert "" + "\\" == "\\" && "\\" + ['"'] == "\\\"";
  }

  lemma {:induction false} LettersEscaped(s: string)
    ensures Letters(EscapeQuotes(s)) == Letters(s)
  {
    if s != "" {
      LettersEscaped(s[..|s| - 1]);
      LettersEscapeChar(s[|s| - 1]);
      LettersAppend(EscapeQuotes(s[..|s| - 1]), EscapeChar(s[|s| - 1]));
    }
  }

  lemma {:induction false} LettersQuoted(s: string)
    ensures Letters(['"'] + s + ['"']) == Letters(s)
  {
    LettersPush(['"'] + s, '"');
    LettersAppend(['"'], s);
    LettersPush("", '"');
  }

  lemma {:induction false} LettersWritten(v: string)
    ensures Letters(Escape(v)) == Letters(v)
  {
    if NeedsQuote(v) {
      QuoteParts(v);
      LettersEscaped(v);
      LettersQuoted(EscapeQuotes(v));
    }
  }

  lemma {:induction false} LettersTrimStart(s: string)
    ensures Letters(TrimStart(s)) + |s| == Letters(s) + |TrimStart(s)|
  {
    if s != "" && IsSpace(s[0]) {
      LettersTrimStart(s[1..]);
      assert s == [s[0]] + s[1..];
      LettersAppend([s[0]], s[1..]);
      LettersPush("", s[0]);
    }
  }

  lemma {:induction false} LettersTrimEnd(s: string)
    ensures Letters(TrimEnd(s)) + |s| == Letters(s) + |TrimEnd(s)|
  {
    if s != "" && IsSpace(s[|s| - 1]) {
      LettersTrimEnd(s[..|s| - 1]);
    }
  }

  lemma {:induction false} LettersTrim(s: string)
    ensures Letters(Trim(s)) <= Letters(s)
    ensures !Trimmed(s) ==> Letters(Trim(s)) < Letters(s)
  {
    LettersTrimStart(s);
    LettersTrimEnd(TrimStart(s));
    TrimStartSize(s);
    TrimEndSize(TrimStart(s));
    if |TrimStart(s)| == |s| {
      TrimStartWhole(s);
    }
  }

  lemma {:induction false} LettersRead(r: Reader, c: char)
    ensures Letters(Read(r, c).out) <= Letters(r.out) + Letter(c)
  {
    LettersPush(r.out, c);
    LettersPush(r.out, '"');
    LettersPush(r.out, '\\');
    LettersPush(r.out + ['\\'], c);
    assert r.out + ['\\', c] == r.out + ['\\'] + [c];
    assert r.out + "\"" == r.out + ['"'];
  }

  lemma {:induction false} LettersReadAll(r: Reader, s: string)
    ensures Letters(ReadAll(r, s).out) <= Letters(r.out) + Letters(s)
  {
    if s != "" {
      LettersReadAll(r, s[..|s| - 1]);
      LettersRead(ReadAll(r, s[..|s| - 1]), s[|s| - 1]);
    }
  }

  lemma {:induction false} LettersFinish(r: Reader)
    ensures Letters(Finish(r)) == Letters(r.out)
  {
    LettersPush(r.out, '\\');
    assert r.out + "\\" == r.out + ['\\'];
  }

  /** Reading a value never adds a letter. */
  lemma {:induction false} LettersUnescape(value: string)
    ensures Unescape(value).Some? ==> Letters(Unescape(value).value) <= Letters(value)
  {
    var s := Trim(value);
    LettersTrim(value);
    if s != "" && s[0] == '"' && |s| >= 2 && s[|s| - 1] == '"' {
      var inner := s[1..|s| - 1];
      assert s == ['"'] + inner + ['"'];
      LettersQuoted(inner);
      LettersReadAll(Reader("", false), inner);
      LettersFinish(ReadAll(Reader("", false), inner));
    }
  }

  function LettersAll(tokens: seq<string>): nat {
    if tokens == [] then 0 else LettersAll(tokens[..|tokens| - 1]) + Letters(tokens[|tokens| - 1]) + 1
  }

  lemma {:induction false} LettersAllPush(tokens: seq<string>, token: string)
    ensures LettersAll(tokens + [token]) == LettersAll(tokens) + Letters(token) + 1
  {
    assert (tokens + [token])[..|tokens|] == tokens;
  }

  /** Letters the scanner holds, and one whitespace for every finished token. */
  function Load(t: Splitter): nat {
    LettersAll(t.tokens) + Letters(t.current)
  }

  lemma {:induction false} LoadStep(t: Splitter, c: char)
    ensures Load(Split(t, c)) <= Load(t) + Letter(c)
  {
    if !t.inQuote && c != '"' && IsSpace(c) {
      BlankLoad(t, c);
    } else {
      CharLoad(t, c);
    }
  }

  lemma {:induction false} BlankLoad(t: Splitter, c: char)
    requires !t.inQuote && c != '"' && IsSpace(c)
    ensures Load(Split(t, c)) <= Load(t) + Letter(c)
  {
    LettersAllPush(t.tokens, t.current);
    assert Letters("") == 0;
  }

  lemma {:induction false} CharLoad(t: Splitter, c: char)
    requires t.inQuote || c == '"' || !IsSpace(c)
    ensures Load(Split(t, c)) <= Load(t) + Letter(c)
  {
    assert Split(t, c).tokens == t.tokens && Split(t, c).current == t.current + [c];
    LettersPush(t.current, c);
  }

  lemma {:induction false} LoadAll(t: Splitter, s: string)
    ensures Load(SplitAll(t, s)) <= Load(t) + Letters(s)
  {
    if s != "" {
      LoadAll(t, s[..|s| - 1]);
      LoadStep(SplitAll(t, s[..|s| - 1]), s[|s| - 1]);
    }
  }

  /** Tokens hold no more letters than the text, the whitespace between them counted. */
  lemma {:induction false} TokensLoad(s: string)
    ensures LettersAll(Tokens(s)) <= Letters(s) + 1
  {
    LoadAll(Outside([], ""), s);
    var t := SplitAll(Outside([], ""), s);
    LettersAllPush(t.tokens, t.current);
  }

  function EntrySize(e: Entry): nat {
    Letters(e.key) + Letters(e.value.text) + 2
  }

  function Sizes(m: seq<Entry>): nat {
    if m == [] then 0 else Sizes(m[..|m| - 1]) + EntrySize(m[|m| - 1])
  }

  lemma {:induction false} SizesPush(m: seq<Entry>, e: Entry)
    ensures Sizes(m + [e]) == Sizes(m) + EntrySize(e)
  {
    assert (m + [e])[..|m|] == m;
  }

  lemma {:induction false} LettersKeyed(key: string, raw: string)
    ensures Letters(key + "=" + raw) == Letters(key) + 1 + Letters(raw)
  {
    LettersAppend(key + "=", raw);
    LettersPush(key, '=');
    assert key + "=" == key + ['='];
  }

  lemma {:induction false} LettersToken(a: Attr)
    ensures Letters(Token(a)) == Letters(a.key) + 1 + Letters(a.value)
  {
    LettersKeyed(a.key, Escape(a.value));
    LettersWritten(a.value);
  }

  lemma {:induction false} SpacedLetters(m: seq<Entry>)
    ensures Letters(Spaced(AttrsOf(m))) == Sizes(m)
    decreases |m|
  {
    if m != [] {
      var init, last := m[..|m| - 1], m[|m| - 1];
      assert m == init + [last];
      SpacedLetters(init);
      AttrsOfPush(init, last);
      SpacedPush(AttrsOf(init), Attr(last.key, last.value.text));
      LettersAppend(Spaced(AttrsOf(init)) + " ", Token(Attr(last.key, last.value.text)));
      LettersPush(Spaced(AttrsOf(init)), ' ');
      assert Spaced(AttrsOf(init)) + " " == Spaced(AttrsOf(init)) + [' '];
      LettersToken(Attr(last.key, last.value.text));
    }
  }

  // ---- What parsing can make of tokens ----

  /** Inserting adds at most the entry's size, and exactly that only when nothing is replaced. */
  lemma {:induction false} InsertSizes(m: seq<Entry>, key: string, value: Json)
    ensures Sizes(Insert(m, key, value)) <= Sizes(m) + EntrySize(Entry(key, value))
    ensures Sizes(Insert(m, key, value)) == Sizes(m) + EntrySize(Entry(key, value)) ==> forall e :: e in m ==> e in Insert(m, key, value)
    ensures Entry(key, value) in Insert(m, key, value)
  {
    if m == [] || Less(m[|m| - 1].key, key) {
      SizesPush(m, Entry(key, value));
    } else {
      var init, last := m[..|m| - 1], m[|m| - 1];
      assert m == init + [last];
      SizesPush(init, Entry(key, value));
      if last.key != key {
        InsertSizes(init, key, value);
        SizesPush(Insert(init, key, value), last);
      }
    }
  }

  /** A token stands in the map with its key and its value, and no letter was lost. */
  ghost predicate Given(m: seq<Entry>, token: string) {
    var eq := FirstAt(token, '=');
    && eq < |token|
    && Unescape(token[eq + 1..]).Some?
    && Entry(token[..eq], Str(Unescape(token[eq + 1..]).value)) in m
    && Letters(token) + 1 == EntrySize(Entry(token[..eq], Str(Unescape(token[eq + 1..]).value)))
  }

  lemma {:induction false} AddTokenSizes(m: seq<Entry>, token: string, line: nat)
    requires AddToken(m, token, line).Ok?
    ensures var m' := AddToken(m, token, line).value;
      && Sizes(m') <= Sizes(m) + Letters(token) + 1
      && (Sizes(m') == Sizes(m) + Letters(token) + 1 ==> Given(m', token) && forall e :: e in m ==> e in m')
  {
    var eq := FirstAt(token, '=');
    var key, raw := token[..eq], token[eq + 1..];
    assert token == key + "=" + raw;
    LettersKeyed(key, raw);
    LettersUnescape(raw);
    InsertSizes(m, key, Str(Unescape(raw).value));
  }

  /** What parsing tokens gives: sorted strings under keys without an equals sign that do not begin with whitespace. */
  ghost predicate Parsed(m: seq<Entry>) {
    && SortedKeys(m)
    && forall e :: e in m ==> e.value.Str? && !Has(e.key, '=') && (e.key == "" || !IsSpace(e.key[0]))
  }

  lemma {:induction false} AddTokenParsed(m: seq<Entry>, token: string, line: nat)
    requires Parsed(m) && AddToken(m, token, line).Ok? && token != "" && !IsSpace(token[0])
    ensures Parsed(AddToken(m, token, line).value)
  {
    var eq := FirstAt(token, '=');
    InsertIsMapUpdate(m, token[..eq], Str(Unescape(token[eq + 1..]).value));
  }

  lemma {:induction false} FromParsed(tokens: seq<string>, line: nat)
    requires AttrsFrom(tokens, line).Ok? && Solid(tokens)
    ensures Parsed(AttrsFrom(tokens, line).value)
  {
    if tokens != [] {
      var init, last := tokens[..|tokens| - 1], tokens[|tokens| - 1];
      assert forall i :: 0 <= i < |init| ==> init[i] == tokens[i];
      FromParsed(init, line);
      AddTokenParsed(AttrsFrom(init, line).value, last, line);
    }
  }

  lemma {:induction false} FromSizes(tokens: seq<string>, line: nat)
    requires AttrsFrom(tokens, line).Ok?
    ensures Sizes(AttrsFrom(tokens, line).value) <= LettersAll(tokens)
  {
    if tokens != [] {
      var init, last := tokens[..|tokens| - 1], tokens[|tokens| - 1];
      FromSizes(init, line);
      AddTokenSizes(AttrsFrom(init, line).value, last, line);
    }
  }

  lemma {:induction false} GivenStays(m: seq<Entry>, m': seq<Entry>, token: string)
    requires Given(m, token) && forall e :: e in m ==> e in m'
    ensures Given(m', token)
  {
  }

  lemma {:induction false} TightStep(tokens: seq<string>, line: nat)
    requires tokens != [] && AttrsFrom(tokens, line).Ok? && Sizes(AttrsFrom(tokens, line).value) == LettersAll(tokens)
    ensures var init := tokens[..|tokens| - 1];
      && AttrsFrom(init, line).Ok? && Sizes(AttrsFrom(init, line).value) == LettersAll(init)
      && Given(AttrsFrom(tokens, line).value, tokens[|tokens| - 1])
      && forall e :: e in AttrsFrom(init, line).value ==> e in AttrsFrom(tokens, line).value
  {
    var init, last := tokens[..|tokens| - 1], tokens[|tokens| - 1];
    FromSizes(init, line);
    AddTokenSizes(AttrsFrom(init, line).value, last, line);
  }

  /** When no letter is lost in all, every token stands in the map: none was overwritten. */
  lemma {:induction false} FromTight(tokens: seq<string>, line: nat, i: nat, m: seq<Entry>)
    requires AttrsFrom(tokens, line) == Ok(m) && Sizes(m) == LettersAll(tokens) && i < |tokens|
    ensures Given(m, tokens[i])
  {
    TightStep(tokens, line);
    if i < |tokens| - 1 {
      var init := tokens[..|tokens| - 1];
      var m' := AttrsFrom(init, line).value;
      FromTight(init, line, i, m');
      GivenStays(m', m, init[i]);
    }
  }

  // ---- Exactly which attributes come back ----

  lemma {:induction false} FirstEquals(key: string, text: string)
    requires |key| < |text| && text[..|key|] == key && text[|key|] == '=' && !Has(key, '=')
    ensures FirstAt(text, '=') == |key|
  {
    forall j | 0 <= j < |key|
      ensures text[j] != '='
    {
      assert text[j] == key[j];
    }
  }

  /** A part or an extension of a token has too few or too many letters to give its entry. */
  lemma {:induction false} OnlyItself(m: seq<Entry>, e: Entry, out: string)
    requires DistinctKeys(m) && e in m && e.value.Str? && !Has(e.key, '=') && Given(m, out)
    requires |e.key| < |out| && out[..|e.key|] == e.key && out[|e.key|] == '='
    ensures Letters(out) == Letters(Token(Attr(e.key, e.value.text)))
    ensures Unescape(out[|e.key| + 1..]) == Some(e.value.text)
  {
    FirstEquals(e.key, out);
    LettersToken(Attr(e.key, e.value.text));
  }

  lemma {:induction false} CutLosesLetters(out: string, token: string)
    requires CutOff(out, token)
    ensures Letters(out) < Letters(token)
  {
    var p := |out|;
    assert token == out + ([token[p]] + token[p + 1..]);
    LettersAppend(out, [token[p]] + token[p + 1..]);
    LettersAppend([token[p]], token[p + 1..]);
    LettersPush("", token[p]);
  }

  lemma {:induction false} MoreHasLetters(token: string, out: string)
    requires token + " " <= out
    ensures Letters(token) < Letters(out)
  {
    var rest := out[|token| + 1..];
    assert out == token + " " + rest;
    LettersAppend(token + " ", rest);
    LettersPush(token, ' ');
    assert token + " " == token + [' '];
  }

  lemma {:induction false} TokenAt(m: seq<Entry>, i: nat)
    requires i < |m|
    ensures AttrsOf(m)[i] == Attr(m[i].key, m[i].value.text)
    ensures var token := Token(AttrsOf(m)[i]); |m[i].key| < |token| && token[..|m[i].key|] == m[i].key && token[|m[i].key|] == '='
  {
  }

  /** A token cut before its equals sign gives no entry. */
  lemma {:induction false} CutBehindKey(m: seq<Entry>, out: string, token: string, key: string)
    requires CutOff(out, token) && Given(m, out) && !Has(key, '=')
    requires |key| < |token| && token[..|key|] == key && token[|key|] == '='
    ensures |key| < |out| && out[..|key|] == key && out[|key|] == '='
  {
    forall j | 0 <= j < |key|
      ensures token[j] != '='
    {
      assert token[j] == key[j];
    }
    assert out[FirstAt(out, '=')] == token[FirstAt(out, '=')];
  }

  ghost predicate CameBack(m: seq<Entry>, i: nat)
    requires i < |m|
  {
    && (if i < |m| - 1 then Closes(Token(AttrsOf(m)[i])) else Whole(Token(AttrsOf(m)[i])))
    && ValueSurvives(m[i].value.text)
  }

  /** The next token came through the scanner as it was written, and so did its value. */
  lemma {:induction false} NextComesBack(m: seq<Entry>, i: nat, out: string)
    requires i < |m| && Parsed(m) && Becomes(AttrsOf(m), i, out) && Given(m, out)
    ensures CameBack(m, i)
  {
    var token := Token(AttrsOf(m)[i]);
    SortedDistinct(m);
    TokenAt(m, i);
    assert m[i] in m;
    if CutOff(out, token) {
      CutBehindKey(m, out, token, m[i].key);
      OnlyItself(m, m[i], out);
      CutLosesLetters(out, token);
    } else if token + " " <= out {
      assert out[..|m[i].key|] == token[..|m[i].key|];
      OnlyItself(m, m[i], out);
      MoreHasLetters(token, out);
    } else {
      OnlyItself(m, m[i], token);
      TokenParts(AttrsOf(m)[i]);
      EscapingIsExact(m[i].value.text);
    }
  }

  ghost predicate AllGiven(m: seq<Entry>, tokens: seq<string>) {
    forall i :: 0 <= i < |tokens| ==> Given(m, tokens[i])
  }

  lemma {:induction false} OneComesBack(m: seq<Entry>, i: nat, tokens: seq<string>)
    requires i < |m| && Parsed(m) && tokens == Tokens(Spaced(AttrsOf(m))) && AllGiven(m, tokens)
    requires forall j :: 0 <= j < i ==> Closes(Token(AttrsOf(m)[j]))
    ensures CameBack(m, i)
  {
    TokenAt(m, i);
    assert m[i] in m;
    TokenBecomes(AttrsOf(m), i);
    NextComesBack(m, i, tokens[i]);
  }

  lemma {:induction false} UpToComesBack(m: seq<Entry>, n: nat, tokens: seq<string>)
    requires n <= |m| && Parsed(m) && tokens == Tokens(Spaced(AttrsOf(m))) && AllGiven(m, tokens)
    ensures forall i :: 0 <= i < n ==> CameBack(m, i)
  {
    if n > 0 {
      UpToComesBack(m, n - 1, tokens);
      forall j | 0 <= j < n - 1
        ensures Closes(Token(AttrsOf(m)[j]))
      {
        assert CameBack(m, j);
      }
      OneComesBack(m, n - 1, tokens);
    }
  }

  lemma {:induction false} BlankCounts(s: string)
    requires s != "" && s[0] == ' '
    ensures Letters(s) == 1 + Letters(s[1..])
  {
    assert s == [' '] + s[1..];
    LettersAppend([' '], s[1..]);
    LettersPush("", ' ');
  }

  lemma {:induction false} ScannedText(m: seq<Entry>, line: nat)
    requires m != [] && ParseAttrs(Spaced(AttrsOf(m)), line) == Ok(m)
    ensures AttrsFrom(Tokens(Spaced(AttrsOf(m))), line) == Ok(m) && Sizes(m) == LettersAll(Tokens(Spaced(AttrsOf(m))))
  {
    var s := Spaced(AttrsOf(m));
    SpacedStarts(AttrsOf(m));
    LeadingBlank(s);
    SpacedLetters(m);
    LettersTrim(s[1..]);
    BlankCounts(s);
    FromSizes(Tokens(Trim(s)), line);
    TokensLoad(Trim(s));
    TrimKeeps(s[1..]);
  }

  lemma {:induction false} ParsedEntries(m: seq<Entry>)
    requires Parsed(m)
    ensures forall i :: 0 <= i < |m| ==> m[i].value.Str? && !Has(m[i].key, '=')
  {
    assert forall i :: 0 <= i < |m| ==> m[i] in m;
  }

  lemma {:induction false} AllCameBack(m: seq<Entry>)
    requires Parsed(m) && forall i :: 0 <= i < |m| ==> CameBack(m, i)
    ensures AttrsSurvive(m)
  {
    ParsedEntries(m);
    forall i | 0 <= i < |m|
      ensures ValueSurvives(m[i].value.text)
    {
      assert CameBack(m, i);
    }
    forall i | 0 <= i < |m| - 1
      ensures Closes(Token(AttrsOf(m)[i]))
    {
      assert CameBack(m, i);
    }
    if m != [] {
      assert CameBack(m, |m| - 1);
    }
  }

  lemma {:induction false} ComesBackSurvives(m: seq<Entry>, line: nat)
    requires m != [] && ParseAttrs(Spaced(AttrsOf(m)), line) == Ok(m)
    ensures AttrsSurvive(m)
  {
    var tokens := Tokens(Spaced(AttrsOf(m)));
    ScannedText(m, line);
    TokensSolid(Spaced(AttrsOf(m)));
    FromParsed(tokens, line);
    forall i | 0 <= i < |tokens|
      ensures Given(m, tokens[i])
    {
      FromTight(tokens, line, i, m);
    }
    UpToComesBack(m, |m|, tokens);
    AllCameBack(m);
  }

  /** Main result: exactly which attribute lists come back from a block line. */
  lemma {:induction false} AttrsAreExact(m: seq<Entry>, line: nat)
    ensures ParseAttrs(Spaced(AttrsOf(m)), line) == Ok(m) <==> AttrsSurvive(m)
  {
    if AttrsSurvive(m) {
      ParseAttrsReadsBack(m, line);
    } else if m != [] && ParseAttrs(Spaced(AttrsOf(m)), line) == Ok(m) {
      ComesBackSurvives(m, line);
    }
  }
}
