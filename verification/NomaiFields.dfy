/** Block-attribute tokens: scanning what rendering writes. */
module NomaiFields {
  import opened Prelude
  import opened NomaiText

  // ---- Attribute tokens ----

  /** `held`: inside quotes, a backslash was read and the next character belongs to it. */
  datatype Splitter = Splitter(tokens: seq<string>, current: string, inQuote: bool, held: bool)

  function Split(t: Splitter, c: char): Splitter {
    if t.inQuote then
      t.(current := t.current + [c], held := !t.held && c == '\\', inQuote := t.held || c != '"')
    else if c == '"' then t.(current := t.current + [c], inQuote := true)
    else if IsSpace(c) then (if t.current == "" then t else t.(tokens := t.tokens + [t.current], current := ""))
    else t.(current := t.current + [c])
  }

  function SplitAll(t: Splitter, s: string): Splitter {
    if s == "" then t else Split(SplitAll(t, s[..|s| - 1]), s[|s| - 1])
  }

  function Outside(tokens: seq<string>, current: string): Splitter {
    Splitter(tokens, current, false, false)
  }

  /** The token still open when the text ends counts too. */
  function Closed(t: Splitter): seq<string> {
    if t.current == "" then t.tokens else t.tokens + [t.current]
  }

  function Tokens(s: string): seq<string> {
    Closed(SplitAll(Outside([], ""), s))
  }

  datatype Attr = Attr(key: string, value: string)

  predicate KeyOk(key: string) {
    NoSpace(key) && !Has(key, '"') && !Has(key, '=')
  }

  function Token(a: Attr): string {
    a.key + "=" + Escape(a.value)
  }

  /** ` key=value` for each attribute. */
  function Spaced(attrs: seq<Attr>): string {
    if attrs == [] then "" else Spaced(attrs[..|attrs| - 1]) + " " + Token(attrs[|attrs| - 1])
  }

  lemma {:induction false} SplitAppend(t: Splitter, a: string, b: string)
    ensures SplitAll(t, a + b) == SplitAll(SplitAll(t, a), b)
  {
    if b == "" {
      assert a + b == a;
    } else {
      assert (a + b)[..|a + b| - 1] == a + b[..|b| - 1];
      SplitAppend(t, a, b[..|b| - 1]);
    }
  }

  lemma {:induction false} SplitOne(t: Splitter, c: char)
    ensures SplitAll(t, [c]) == Split(t, c)
  {
    assert [c][..0] == "";
  }

  /** Outside quotes plain characters join the open token. */
  lemma {:induction false} SplitPlain(tokens: seq<string>, current: string, s: string)
    requires NoSpace(s) && !Has(s, '"')
    ensures SplitAll(Outside(tokens, current), s) == Outside(tokens, current + s)
  {
    if s == "" {
      assert current + s == current;
    } else {
      var init, c := s[..|s| - 1], s[|s| - 1];
      assert forall d :: Has(init, d) ==> Has(s, d);
      SplitPlain(tokens, current, init);
      assert current + init + [c] == current + s;
    }
  }

  function Inside(tokens: seq<string>, current: string, held: bool): Splitter {
    Splitter(tokens, current, true, held)
  }

  lemma {:induction false} SplitTwo(t: Splitter, a: char, b: char)
    ensures SplitAll(t, [a, b]) == Split(Split(t, a), b)
  {
    assert [a, b][..1] == [a];
    SplitOne(t, a);
  }

  /** Inside quotes one escaped character joins the open token and does not close it. */
  lemma {:induction false} SplitEscaped(tokens: seq<string>, current: string, held: bool, c: char)
    requires c == '"' ==> !held
    ensures SplitAll(Inside(tokens, current, held), EscapeChar(c)) == Inside(tokens, current + EscapeChar(c), !held && c == '\\')
  {
    var t := Inside(tokens, current, held);
    if c == '"' {
      SplitTwo(t, '\\', '"');
      assert current + ['\\'] + ['"'] == current + EscapeChar(c);
    } else {
      SplitOne(t, c);
    }
  }

  lemma {:induction false} SplitQuotedNext(tokens: seq<string>, current: string, escaped: string, c: char, held: bool)
    requires SplitAll(Inside(tokens, current, false), escaped) == Inside(tokens, current + escaped, held)
    requires c == '"' ==> !held
    ensures SplitAll(Inside(tokens, current, false), escaped + EscapeChar(c)) ==
            Inside(tokens, current + (escaped + EscapeChar(c)), !held && c == '\\')
  {
    SplitAppend(Inside(tokens, current, false), escaped, EscapeChar(c));
    PlusAssociates(current, escaped, EscapeChar(c));
    SplitEscaped(tokens, current + escaped, held, c);
  }

  /** Inside quotes escaped text joins the open token and does not close it. */
  lemma {:induction false} SplitQuoted(tokens: seq<string>, current: string, v: string)
    requires EvenRuns(v)
    ensures SplitAll(Inside(tokens, current, false), EscapeQuotes(v)) == Inside(tokens, current + EscapeQuotes(v), OddTail(v))
  {
    if v == "" {
      assert current + "" == current;
    } else {
      var init, c := v[..|v| - 1], v[|v| - 1];
      assert v == init + [c];
      TailPush(init, c);
      SplitQuoted(tokens, current, init);
      SplitQuotedNext(tokens, current, EscapeQuotes(init), c, OddTail(init));
    }
  }

  /** A quoted value closes its quotes exactly when it does not end in an odd backslash run. */
  lemma {:induction false} SplitQuote(tokens: seq<string>, current: string, v: string)
    requires EvenRuns(v)
    ensures SplitAll(Outside(tokens, current), Quote(v)) == Splitter(tokens, current + Quote(v), OddTail(v), false)
  {
    var t, e := Outside(tokens, current), EscapeQuotes(v);
    QuoteParts(v);
    SplitOne(t, '"');
    SplitQuoted(tokens, current + ['"'], v);
    SplitAppend(t, ['"'], e);
    SplitAppend(t, ['"'] + e, ['"']);
    SplitOne(Inside(tokens, current + ['"'] + e, OddTail(v)), '"');
    PlusAssociates(current, ['"'], e);
    PlusAssociates(current, ['"'] + e, ['"']);
  }

  lemma {:induction false} SplitToken(a: Attr)
    requires KeyOk(a.key) && ValueSurvives(a.value) && (!NeedsQuote(a.value) ==> NoSpace(a.value))
    ensures SplitAll(Outside([], ""), Token(a)) == Splitter([], Token(a), NeedsQuote(a.value) && OddTail(a.value), false)
  {
    var head := a.key + "=";
    SplitAppend(Outside([], ""), head, Escape(a.value));
    SplitPlain([], "", head);
    assert "" + head == head;
    if NeedsQuote(a.value) {
      SplitQuote([], head, a.value);
    } else {
      SplitPlain([], head, a.value);
    }
  }

  function TokensOf(attrs: seq<Attr>): seq<string> {
    seq(|attrs|, i requires 0 <= i < |attrs| => Token(attrs[i]))
  }

  /** Scanned by itself the token stays one token and leaves no quote open. */
  predicate Closes(token: string) {
    SplitAll(Outside([], ""), token) == Outside([], token)
  }

  /** Scanned by itself the token stays one token. */
  predicate Whole(token: string) {
    var t := SplitAll(Outside([], ""), token);
    t.tokens == [] && t.current == token
  }

  /** Only behind the last token may a quote stay open. */
  predicate Scans(attrs: seq<Attr>) {
    && (forall i :: 0 <= i < |attrs| - 1 ==> Closes(Token(attrs[i])))
    && (attrs != [] ==> Whole(Token(attrs[|attrs| - 1])))
  }

  /** For values that survive by themselves: bare ones without whitespace, quoted ones without an odd backslash run at the end. */
  lemma {:induction false} CleanTokens(a: Attr)
    requires KeyOk(a.key) && ValueSurvives(a.value) && (!NeedsQuote(a.value) ==> NoSpace(a.value))
    ensures Whole(Token(a)) && (Closes(Token(a)) <==> !(NeedsQuote(a.value) && OddTail(a.value)))
  {
    SplitToken(a);
  }

  /** Earlier tokens are only carried along. */
  lemma {:induction false} SplitShift(pre: seq<string>, t: Splitter, s: string)
    ensures SplitAll(t.(tokens := pre + t.tokens), s) == SplitAll(t, s).(tokens := pre + SplitAll(t, s).tokens)
  {
    if s != "" {
      SplitShift(pre, t, s[..|s| - 1]);
      var r := SplitAll(t, s[..|s| - 1]);
      assert pre + (r.tokens + [r.current]) == pre + r.tokens + [r.current];
    }
  }

  lemma {:induction false} SplitFresh(pre: seq<string>, s: string)
    ensures SplitAll(Outside(pre, ""), s) == SplitAll(Outside([], ""), s).(tokens := pre + SplitAll(Outside([], ""), s).tokens)
  {
    SplitShift(pre, Outside([], ""), s);
    assert pre + [] == pre;
  }

  /** The splitter after the attributes so far: all but the last token are finished. */
  function OpenAfter(attrs: seq<Attr>): Splitter {
    if attrs == [] then Outside([], "") else Outside(TokensOf(attrs[..|attrs| - 1]), Token(attrs[|attrs| - 1]))
  }

  lemma {:induction false} OpenCloses(attrs: seq<Attr>)
    ensures Closed(OpenAfter(attrs)) == TokensOf(attrs)
    ensures Split(OpenAfter(attrs), ' ') == Outside(TokensOf(attrs), "")
  {
    if attrs != [] {
      assert TokensOf(attrs) == TokensOf(attrs[..|attrs| - 1]) + [Token(attrs[|attrs| - 1])];
    }
  }

  lemma {:induction false} SpacedPush(init: seq<Attr>, last: Attr)
    ensures Spaced(init + [last]) == Spaced(init) + " " + Token(last)
  {
    assert (init + [last])[..|init|] == init;
  }

  lemma {:induction false} SpacedAppend(a: seq<Attr>, b: seq<Attr>)
    ensures Spaced(a + b) == Spaced(a) + Spaced(b)
    ensures b != [] ==> Spaced(b) != "" && Spaced(b)[0] == ' '
  {
    if b == [] {
      assert a + b == a;
    } else {
      var init, last := b[..|b| - 1], b[|b| - 1];
      SpacedAppend(a, init);
      assert a + b == (a + init) + [last];
      SpacedPush(a + init, last);
      PlusAssociates(Spaced(a), Spaced(init), " ");
      PlusAssociates(Spaced(a), Spaced(init) + " ", Token(last));
    }
  }

  /** Up to and with the blank behind closed tokens. */
  lemma {:induction false} BlankAfter(attrs: seq<Attr>)
    requires SplitAll(Outside([], ""), Spaced(attrs)) == OpenAfter(attrs)
    ensures SplitAll(Outside([], ""), Spaced(attrs) + " ") == Outside(TokensOf(attrs), "")
  {
    SplitAppend(Outside([], ""), Spaced(attrs), " ");
    SplitOne(OpenAfter(attrs), ' ');
    OpenCloses(attrs);
  }

  lemma {:induction false} SpacedOpens(attrs: seq<Attr>)
    requires forall i :: 0 <= i < |attrs| ==> Closes(Token(attrs[i]))
    ensures SplitAll(Outside([], ""), Spaced(attrs)) == OpenAfter(attrs)
  {
    if attrs != [] {
      var init, last := attrs[..|attrs| - 1], attrs[|attrs| - 1];
      SpacedOpens(init);
      BlankAfter(init);
      SplitAppend(Outside([], ""), Spaced(init) + " ", Token(last));
      assert Closes(Token(last));
      SplitFresh(TokensOf(init), Token(last));
      assert TokensOf(init) + [] == TokensOf(init);
    }
  }

  /** The scanner behind the last token, which may leave a quote open. */
  lemma {:induction false} LastScanned(init: seq<Attr>, last: Attr)
    requires forall i :: 0 <= i < |init| ==> Closes(Token(init[i]))
    ensures SplitAll(Outside([], ""), Spaced(init + [last])) ==
            SplitAll(Outside([], ""), Token(last)).(tokens := TokensOf(init) + SplitAll(Outside([], ""), Token(last)).tokens)
  {
    SpacedOpens(init);
    BlankAfter(init);
    SpacedPush(init, last);
    SplitAppend(Outside([], ""), Spaced(init) + " ", Token(last));
    SplitFresh(TokensOf(init), Token(last));
  }

  lemma {:induction false} TokensOfPush(init: seq<Attr>, last: Attr)
    ensures TokensOf(init + [last]) == TokensOf(init) + [Token(last)]
  {
  }

  lemma {:induction false} LastTokenReads(init: seq<Attr>, last: Attr)
    requires Whole(Token(last)) && forall i :: 0 <= i < |init| ==> Closes(Token(init[i]))
    ensures Tokens(Spaced(init + [last])) == TokensOf(init) + [Token(last)]
  {
    LastScanned(init, last);
    assert TokensOf(init) + [] == TokensOf(init);
  }

  /** Main result: whatever the attributes, when each scans by itself scanning gives back exactly the tokens written. */
  lemma {:induction false} TokensReadBack(attrs: seq<Attr>)
    requires Scans(attrs)
    ensures Tokens(Spaced(attrs)) == TokensOf(attrs)
  {
    if attrs != [] {
      var init, last := attrs[..|attrs| - 1], attrs[|attrs| - 1];
      assert attrs == init + [last];
      forall i | 0 <= i < |init|
        ensures Closes(Token(init[i]))
      {
        assert init[i] == attrs[i];
      }
      LastTokenReads(init, last);
      TokensOfPush(init, last);
    }
  }

  // ---- What a token can become ----

  lemma {:induction false} QuoteState(t: Splitter, s: string)
    requires t.held ==> t.inQuote
    ensures SplitAll(t, s).held ==> SplitAll(t, s).inQuote
  {
    if s != "" {
      QuoteState(t, s[..|s| - 1]);
    }
  }

  ghost predicate Solid(tokens: seq<string>) {
    forall i :: 0 <= i < |tokens| ==> tokens[i] != "" && !IsSpace(tokens[i][0])
  }

  /** No token is empty or begins with whitespace. */
  lemma {:induction false} TokensSolid(s: string)
    ensures var t := SplitAll(Outside([], ""), s);
      Solid(t.tokens) && (t.current != "" ==> !IsSpace(t.current[0])) && (t.inQuote ==> t.current != "")
    ensures Solid(Tokens(s))
  {
    if s != "" {
      TokensSolid(s[..|s| - 1]);
      assert !IsSpace('"');
    }
  }

  /** The piece of `s` cut off at whitespace. */
  ghost predicate CutOff(piece: string, s: string) {
    |piece| < |s| && piece == s[..|piece|] && IsSpace(s[|piece|])
  }

  ghost predicate FirstIs(t: Splitter, s: string) {
    if t.tokens == [] then t.current == s else CutOff(t.tokens[0], s)
  }

  lemma {:induction false} CutOffStays(piece: string, s: string, c: char)
    ensures CutOff(piece, s) ==> CutOff(piece, s + [c])
    ensures piece == s && IsSpace(c) ==> CutOff(piece, s + [c])
  {
    if CutOff(piece, s) {
      assert (s + [c])[..|piece|] == s[..|piece|];
    } else {
      assert (s + [c])[..|s|] == s;
    }
  }

  lemma {:induction false} FirstNext(t: Splitter, s: string, c: char)
    requires s != "" && FirstIs(t, s)
    ensures FirstIs(Split(t, c), s + [c])
  {
    if t.tokens == [] {
      CutOffStays(s, s, c);
    } else {
      CutOffStays(t.tokens[0], s, c);
    }
  }

  lemma {:induction false} FirstChar(c: char)
    requires !IsSpace(c)
    ensures FirstIs(Split(Outside([], ""), c), [c])
  {
    assert "" + [c] == [c];
  }

  lemma {:induction false} SplitPush(t: Splitter, s: string, c: char)
    ensures SplitAll(t, s + [c]) == Split(SplitAll(t, s), c)
  {
    assert (s + [c])[..|s|] == s;
  }

  /** Scanned from its start, text either stays one token or is cut at whitespace. */
  lemma {:induction false} FirstPiece(s: string)
    requires s != "" && !IsSpace(s[0])
    ensures FirstIs(SplitAll(Outside([], ""), s), s)
  {
    var init, c := s[..|s| - 1], s[|s| - 1];
    SplitPush(Outside([], ""), init, c);
    if init == "" {
      FirstChar(c);
      assert init + [c] == [c] == s;
    } else {
      FirstPiece(init);
      FirstNext(SplitAll(Outside([], ""), init), init, c);
      assert init + [c] == s;
    }
  }

  /** Whatever follows, the open token goes on from where it is. */
  lemma {:induction false} TokenGoesOn(t: Splitter, s: string)
    requires t.current != ""
    ensures var r := SplitAll(t, s); t.tokens <= r.tokens
    ensures var r := SplitAll(t, s);
      if |r.tokens| == |t.tokens| then t.current <= r.current else t.current <= r.tokens[|t.tokens|]
  {
    if s != "" {
      TokenGoesOn(t, s[..|s| - 1]);
    }
  }

  lemma {:induction false} FinishedStay(t: Splitter, s: string)
    ensures t.tokens <= SplitAll(t, s).tokens
  {
    if s != "" {
      FinishedStay(t, s[..|s| - 1]);
    }
  }

  lemma {:induction false} ClosedKeeps(t: Splitter, s: string, i: nat)
    requires i < |t.tokens|
    ensures i < |Closed(SplitAll(t, s))| && Closed(SplitAll(t, s))[i] == t.tokens[i]
  {
    FinishedStay(t, s);
  }

  lemma {:induction false} ClosedGoesOn(t: Splitter, s: string)
    requires t.current != ""
    ensures |t.tokens| < |Closed(SplitAll(t, s))| && t.current <= Closed(SplitAll(t, s))[|t.tokens|]
  {
    TokenGoesOn(t, s);
  }

  /** What scanning makes of a token that follows `i` closed ones: itself, a part cut at whitespace, or more than itself. */
  ghost predicate Becomes(attrs: seq<Attr>, i: nat, out: string)
    requires i < |attrs|
  {
    var token := Token(attrs[i]);
    || (out == token && (if i < |attrs| - 1 then Closes(token) else Whole(token)))
    || CutOff(out, token)
    || token + " " <= out
  }

  lemma {:induction false} Cut(t: Splitter, rest: string, pre: seq<string>, token: string)
    requires token != "" && !IsSpace(token[0]) && SplitAll(Outside([], ""), token).tokens != []
    requires t == SplitAll(Outside([], ""), token).(tokens := pre + SplitAll(Outside([], ""), token).tokens)
    ensures |pre| < |Closed(SplitAll(t, rest))| && CutOff(Closed(SplitAll(t, rest))[|pre|], token)
  {
    FirstPiece(token);
    ClosedKeeps(t, rest, |pre|);
  }

  lemma {:induction false} RunsOn(t: Splitter, rest: string, token: string)
    requires t.current == token && t.inQuote && rest != "" && rest[0] == ' '
    ensures |t.tokens| < |Closed(SplitAll(t, rest))| && token + " " <= Closed(SplitAll(t, rest))[|t.tokens|]
  {
    assert rest == [' '] + rest[1..];
    SplitAppend(t, [' '], rest[1..]);
    SplitOne(t, ' ');
    ClosedGoesOn(Split(t, ' '), rest[1..]);
  }

  lemma {:induction false} EndsHere(t: Splitter, rest: string)
    requires !t.inQuote && t.current != "" && (rest == "" || rest[0] == ' ')
    ensures |t.tokens| < |Closed(SplitAll(t, rest))| && Closed(SplitAll(t, rest))[|t.tokens|] == t.current
  {
    if rest != "" {
      assert rest == [' '] + rest[1..];
      SplitAppend(t, [' '], rest[1..]);
      SplitOne(t, ' ');
      ClosedKeeps(Split(t, ' '), rest[1..], |t.tokens|);
    }
  }

  lemma {:induction false} SplitAround(attrs: seq<Attr>, i: nat) returns (rest: string)
    requires i < |attrs|
    ensures Spaced(attrs) == Spaced(attrs[..i] + [attrs[i]]) + rest
    ensures if i == |attrs| - 1 then rest == "" else rest != "" && rest[0] == ' '
  {
    rest := Spaced(attrs[i + 1..]);
    assert attrs == attrs[..i + 1] + attrs[i + 1..] && attrs[..i + 1] == attrs[..i] + [attrs[i]];
    SpacedAppend(attrs[..i + 1], attrs[i + 1..]);
  }

  lemma {:induction false} TokenScanned(own: Splitter, pre: seq<string>, token: string, rest: string)
    requires own == SplitAll(Outside([], ""), token) && token != "" && !IsSpace(token[0])
    requires rest == "" || rest[0] == ' '
    ensures var all := Closed(SplitAll(own.(tokens := pre + own.tokens), rest));
      && |pre| < |all|
      && ((all[|pre|] == token && (if rest != "" then Closes(token) else Whole(token))) || CutOff(all[|pre|], token) || token + " " <= all[|pre|])
  {
    var t := own.(tokens := pre + own.tokens);
    FirstPiece(token);
    QuoteState(Outside([], ""), token);
    if own.tokens != [] {
      Cut(t, rest, pre, token);
    } else {
      assert pre + [] == pre;
      if !own.inQuote {
        EndsHere(t, rest);
      } else if rest != "" {
        RunsOn(t, rest, token);
      }
    }
  }

  /** The three things scanning can make of the first token that need not close. */
  lemma {:induction false} TokenBecomes(attrs: seq<Attr>, i: nat)
    requires i < |attrs| && !IsSpace(Token(attrs[i])[0]) && forall j :: 0 <= j < i ==> Closes(Token(attrs[j]))
    ensures i < |Tokens(Spaced(attrs))| && Becomes(attrs, i, Tokens(Spaced(attrs))[i])
  {
    var init, token := attrs[..i], Token(attrs[i]);
    var rest := SplitAround(attrs, i);
    SplitAppend(Outside([], ""), Spaced(init + [attrs[i]]), rest);
    LastScanned(init, attrs[i]);
    TokenScanned(SplitAll(Outside([], ""), token), TokensOf(init), token, rest);
  }

  predicate ScansAt(attrs: seq<Attr>, i: nat)
    requires i < |attrs|
  {
    if i < |attrs| - 1 then Closes(Token(attrs[i])) else Whole(Token(attrs[i]))
  }

  lemma {:induction false} ScansUpTo(attrs: seq<Attr>, n: nat)
    requires n <= |attrs| && Tokens(Spaced(attrs)) == TokensOf(attrs)
    ensures forall i :: 0 <= i < n ==> ScansAt(attrs, i)
  {
    if n > 0 {
      ScansUpTo(attrs, n - 1);
      NextScans(attrs, n - 1);
    }
  }

  lemma {:induction false} NextScans(attrs: seq<Attr>, i: nat)
    requires i < |attrs| && Tokens(Spaced(attrs)) == TokensOf(attrs) && forall j :: 0 <= j < i ==> ScansAt(attrs, j)
    ensures ScansAt(attrs, i)
  {
    forall j | 0 <= j < i
      ensures Closes(Token(attrs[j]))
    {
      assert ScansAt(attrs, j);
    }
    TokensSolid(Spaced(attrs));
    assert TokensOf(attrs)[i] == Token(attrs[i]);
    TokenBecomes(attrs, i);
    NotItself(Token(attrs[i]));
  }

  /** A part of a token, or more than it, is not the token. */
  lemma {:induction false} NotItself(token: string)
    ensures !CutOff(token, token) && !(token + " " <= token)
  {
  }

  /** Exactly when scanning gives back the tokens written. */
  lemma {:induction false} ScanningIsExact(attrs: seq<Attr>)
    ensures Tokens(Spaced(attrs)) == TokensOf(attrs) <==> Scans(attrs)
  {
    if Scans(attrs) {
      TokensReadBack(attrs);
    }
    if Tokens(Spaced(attrs)) == TokensOf(attrs) {
      ScansUpTo(attrs, |attrs|);
      AllScan(attrs);
    }
  }

  lemma {:induction false} AllScan(attrs: seq<Attr>)
    requires forall i :: 0 <= i < |attrs| ==> ScansAt(attrs, i)
    ensures Scans(attrs)
  {
    forall i | 0 <= i < |attrs|
      ensures if i < |attrs| - 1 then Closes(Token(attrs[i])) else Whole(Token(attrs[i]))
    {
      assert ScansAt(attrs, i);
    }
  }

  // ---- Tokens by their characters ----

  /** A plain character, or a quoted string by what stands between its quotes. */
  datatype Stretch = Single(c: char) | Enclosed(body: string)

  /** Every quote in the text stands behind an odd backslash run. */
  predicate QuotesEscaped(body: string) {
    forall k :: 0 <= k < |body| && body[k] == '"' ==> OddTail(body[..k])
  }

  predicate StretchOk(p: Stretch) {
    match p
    case Single(c) => !IsSpace(c) && c != '"'
    case Enclosed(body) => QuotesEscaped(body) && !OddTail(body)
  }

  predicate AllStretchesOk(ps: seq<Stretch>) {
    forall i :: 0 <= i < |ps| ==> StretchOk(ps[i])
  }

  function SpellOne(p: Stretch): string {
    match p
    case Single(c) => [c]
    case Enclosed(body) => ['"'] + body + ['"']
  }

  function Spell(ps: seq<Stretch>): string {
    if ps == [] then "" else Spell(ps[..|ps| - 1]) + SpellOne(ps[|ps| - 1])
  }

  /** The token is made of plain characters and quoted strings, whitespace only inside the quotes. */
  ghost predicate QuotesBalance(token: string) {
    exists ps :: AllStretchesOk(ps) && Spell(ps) == token
  }

  ghost predicate OpensLate(token: string, ps: seq<Stretch>, body: string) {
    AllStretchesOk(ps) && QuotesEscaped(body) && token == Spell(ps) + (['"'] + body)
  }

  /** The same, and then a quote that is never closed. */
  ghost predicate QuoteStaysOpen(token: string) {
    exists ps, body :: OpensLate(token, ps, body)
  }

  lemma {:induction false} SpellPush(ps: seq<Stretch>, p: Stretch)
    ensures Spell(ps + [p]) == Spell(ps) + SpellOne(p)
  {
    assert (ps + [p])[..|ps|] == ps;
  }

  lemma {:induction false} EscapedPush(body: string, c: char)
    ensures QuotesEscaped(body + [c]) <==> QuotesEscaped(body) && (c == '"' ==> OddTail(body))
  {
    var all := body + [c];
    forall k | 0 <= k <= |body|
      ensures all[..k] == body[..k]
    {
    }
    assert all[..|body|] == body;
    assert forall k :: 0 <= k < |body| ==> all[k] == body[k];
  }

  lemma {:induction false} SplitOpenNext(current: string, body: string, c: char)
    requires SplitAll(Inside([], current, false), body) == Inside([], current + body, OddTail(body))
    requires c == '"' ==> OddTail(body)
    ensures SplitAll(Inside([], current, false), body + [c]) == Inside([], current + (body + [c]), OddTail(body + [c]))
  {
    SplitAppend(Inside([], current, false), body, [c]);
    SplitOne(Inside([], current + body, OddTail(body)), c);
    PlusAssociates(current, body, [c]);
    TailPush(body, c);
  }

  /** Such text keeps the quote open. */
  lemma {:induction false} SplitOpen(current: string, body: string)
    requires QuotesEscaped(body)
    ensures SplitAll(Inside([], current, false), body) == Inside([], current + body, OddTail(body))
  {
    if body == "" {
      assert current + "" == current;
    } else {
      var init, c := body[..|body| - 1], body[|body| - 1];
      assert body == init + [c];
      EscapedPush(init, c);
      SplitOpen(current, init);
      SplitOpenNext(current, init, c);
    }
  }

  lemma {:induction false} SplitFromQuote(current: string, body: string)
    requires QuotesEscaped(body)
    ensures SplitAll(Outside([], current), ['"'] + body) == Inside([], current + (['"'] + body), OddTail(body))
  {
    SplitAppend(Outside([], current), ['"'], body);
    SplitOne(Outside([], current), '"');
    SplitOpen(current + ['"'], body);
    PlusAssociates(current, ['"'], body);
  }

  lemma {:induction false} SplitStretch(current: string, p: Stretch)
    requires StretchOk(p)
    ensures SplitAll(Outside([], current), SpellOne(p)) == Outside([], current + SpellOne(p))
  {
    match p
    case Single(c) => SplitOne(Outside([], current), c);
    case Enclosed(body) =>
      SplitFromQuote(current, body);
      SplitAppend(Outside([], current), ['"'] + body, ['"']);
      SplitOne(Inside([], current + (['"'] + body), false), '"');
      PlusAssociates(current, ['"'] + body, ['"']);
  }

  lemma {:induction false} SplitStretches(ps: seq<Stretch>)
    requires AllStretchesOk(ps)
    ensures SplitAll(Outside([], ""), Spell(ps)) == Outside([], Spell(ps))
  {
    if ps != [] {
      var init, last := ps[..|ps| - 1], ps[|ps| - 1];
      SplitStretches(init);
      SplitAppend(Outside([], ""), Spell(init), SpellOne(last));
      SplitStretch(Spell(init), last);
    }
  }

  /** What a scanner that has read `s` as one open token has seen. */
  ghost predicate SeenAs(t: Splitter, s: string, ps: seq<Stretch>, body: string) {
    if t.inQuote then OpensLate(s, ps, body) && t.held == OddTail(body)
    else AllStretchesOk(ps) && Spell(ps) == s && !t.held
  }

  lemma {:induction false} QuoteOpens(s: string, ps: seq<Stretch>)
    requires AllStretchesOk(ps) && Spell(ps) == s
    ensures OpensLate(s + ['"'], ps, "") && !OddTail("")
  {
    assert ['"'] + "" == ['"'];
  }

  lemma {:induction false} SeenOutside(t: Splitter, s: string, ps: seq<Stretch>, c: char) returns (ps': seq<Stretch>, body': string)
    requires SeenAs(t, s, ps, "") && !t.inQuote && !IsSpace(c)
    ensures SeenAs(Split(t, c), s + [c], ps', body')
  {
    body' := "";
    if c == '"' {
      ps' := ps;
      QuoteOpens(s, ps);
    } else {
      ps' := ps + [Single(c)];
      SpellPush(ps, Single(c));
    }
  }

  lemma {:induction false} SeenInside(t: Splitter, s: string, ps: seq<Stretch>, body: string, c: char)
      returns (ps': seq<Stretch>, body': string)
    requires SeenAs(t, s, ps, body) && t.inQuote
    ensures SeenAs(Split(t, c), s + [c], ps', body')
  {
    PlusAssociates(Spell(ps), ['"'] + body, [c]);
    if c == '"' && !t.held {
      ps', body' := ps + [Enclosed(body)], "";
      SpellPush(ps, Enclosed(body));
    } else {
      ps', body' := ps, body + [c];
      PlusAssociates(['"'], body, [c]);
      EscapedPush(body, c);
      TailPush(body, c);
    }
  }

  /** A text read as one token was one token before its last character, and that is no blank outside quotes. */
  lemma {:induction false} WholeBefore(t: Splitter, s: string, c: char)
    requires Split(t, c).tokens == [] && Split(t, c).current == s + [c] && t.tokens == []
    ensures t.current == s && (!t.inQuote ==> !IsSpace(c) || c == '"')
  {
    if t.current + [c] == s + [c] {
      assert (t.current + [c])[..|t.current|] == t.current && (s + [c])[..|s|] == s;
    }
  }

  lemma {:induction false} TokensOnlyGrow(t: Splitter, c: char)
    ensures Split(t, c).tokens == [] ==> t.tokens == []
  {
  }

  /** A whole token taken apart. */
  lemma {:induction false} TakenApart(s: string) returns (ps: seq<Stretch>, body: string)
    requires Whole(s)
    ensures SeenAs(SplitAll(Outside([], ""), s), s, ps, body)
  {
    if s == "" {
      ps, body := [], "";
    } else {
      var init, c := s[..|s| - 1], s[|s| - 1];
      var t := SplitAll(Outside([], ""), init);
      assert s == init + [c];
      TokensOnlyGrow(t, c);
      WholeBefore(t, init, c);
      ps, body := TakenApart(init);
      if t.inQuote {
        ps, body := SeenInside(t, init, ps, body, c);
      } else {
        ps, body := SeenOutside(t, init, ps, c);
      }
    }
  }

  /** Character by character: exactly which tokens close, and which stay whole, whatever their key. */
  lemma {:induction false} TokensByCharacters(token: string)
    ensures Closes(token) <==> QuotesBalance(token)
    ensures Whole(token) <==> QuotesBalance(token) || QuoteStaysOpen(token)
  {
    if QuotesBalance(token) {
      var ps :| AllStretchesOk(ps) && Spell(ps) == token;
      SplitStretches(ps);
    }
    if QuoteStaysOpen(token) {
      var ps, body :| OpensLate(token, ps, body);
      SplitStretches(ps);
      SplitAppend(Outside([], ""), Spell(ps), ['"'] + body);
      SplitFromQuote(Spell(ps), body);
    }
    if Whole(token) {
      var ps, body := TakenApart(token);
      assert SplitAll(Outside([], ""), token).inQuote ==> OpensLate(token, ps, body);
    }
  }

  /**
   * Main result: scanning gives back the tokens written exactly when, in every token but the last, whitespace stands
   * only between quotes that close, and in the last one only behind quotes.
   */
  lemma {:induction false} ScanningByCharacters(attrs: seq<Attr>)
    ensures Tokens(Spaced(attrs)) == TokensOf(attrs) <==>
      && (forall i :: 0 <= i < |attrs| - 1 ==> QuotesBalance(Token(attrs[i])))
      && (attrs != [] ==> QuotesBalance(Token(attrs[|attrs| - 1])) || QuoteStaysOpen(Token(attrs[|attrs| - 1])))
  {
    ScanningIsExact(attrs);
    forall i | 0 <= i < |attrs|
      ensures Closes(Token(attrs[i])) <==> QuotesBalance(Token(attrs[i]))
      ensures Whole(Token(attrs[i])) <==> QuotesBalance(Token(attrs[i])) || QuoteStaysOpen(Token(attrs[i]))
    {
      TokensByCharacters(Token(attrs[i]));
    }
  }
}
