/** Tag lists: reading what rendering writes, and exactly when that gives the list back. */
module NomaiTags {
  import opened Prelude
  import opened NomaiText

  // ---- Tags ----

  datatype TagReader = TagReader(tags: seq<string>, current: string, inQuote: bool, held: bool)

  /** Inside quotes a backslash stands for the character after it. */
  function ReadTag(t: TagReader, c: char): TagReader {
    if t.inQuote then
      if t.held then t.(current := t.current + [c], held := false)
      else if c == '"' then t.(inQuote := false)
      else if c == '\\' then t.(held := true)
      else t.(current := t.current + [c])
    else if c == '"' then t.(current := if Trim(t.current) == "" then "" else t.current, inQuote := true)
    else if c == ',' then t.(tags := t.tags + [t.current], current := "")
    else t.(current := t.current + [c])
  }

  function ReadTags(t: TagReader, s: string): TagReader {
    if s == "" then t else ReadTag(ReadTags(t, s[..|s| - 1]), s[|s| - 1])
  }

  function Between(tags: seq<string>, current: string): TagReader {
    TagReader(tags, current, false, false)
  }

  function ParseTags(value: string): Option<seq<string>> {
    var s := Trim(value);
    if s == "" then Some([])
    else
      var t := ReadTags(Between([], ""), s);
      if t.inQuote then None else Some(t.tags + [t.current])
  }

  predicate TagNeedsQuote(tag: string) {
    Has(tag, ',') || Has(tag, '"')
  }

  function RenderTag(tag: string): string {
    if TagNeedsQuote(tag) then Quote(tag) else tag
  }

  function RenderTags(tags: seq<string>): string {
    if tags == [] then ""
    else if |tags| == 1 then RenderTag(tags[0])
    else RenderTags(tags[..|tags| - 1]) + "," + RenderTag(tags[|tags| - 1])
  }

  predicate TagOk(tag: string) {
    TagNeedsQuote(tag) ==> !Has(tag, '\\')
  }

  /** Quoted tags without backslashes; the list is not one empty tag; no whitespace at either end of the list. */
  predicate TagsOk(tags: seq<string>) {
    && (forall i :: 0 <= i < |tags| ==> TagOk(tags[i]))
    && tags != [""]
    && (tags != [] && !TagNeedsQuote(tags[0]) && tags[0] != "" ==> !IsSpace(tags[0][0]))
    && (tags != [] && !TagNeedsQuote(tags[|tags| - 1]) && tags[|tags| - 1] != "" ==> !IsSpace(tags[|tags| - 1][|tags[|tags| - 1]| - 1]))
  }

  lemma {:induction false} ReadTagsAppend(t: TagReader, a: string, b: string)
    ensures ReadTags(t, a + b) == ReadTags(ReadTags(t, a), b)
  {
    if b == "" {
      assert a + b == a;
    } else {
      assert (a + b)[..|a + b| - 1] == a + b[..|b| - 1];
      ReadTagsAppend(t, a, b[..|b| - 1]);
    }
  }

  lemma {:induction false} ReadTagOne(t: TagReader, c: char)
    ensures ReadTags(t, [c]) == ReadTag(t, c)
  {
    assert [c][..0] == "";
  }

  lemma {:induction false} ReadPlainTag(tags: seq<string>, s: string)
    requires !Has(s, ',') && !Has(s, '"')
    ensures ReadTags(Between(tags, ""), s) == Between(tags, s)
  {
    if s != "" {
      var init, c := s[..|s| - 1], s[|s| - 1];
      assert forall d :: Has(init, d) ==> Has(s, d);
      ReadPlainTag(tags, init);
      assert init + [c] == s;
    }
  }

  lemma {:induction false} ReadTagTwo(t: TagReader, a: char, b: char)
    ensures ReadTags(t, [a, b]) == ReadTag(ReadTag(t, a), b)
  {
    assert [a, b][..1] == [a];
    ReadTagOne(t, a);
  }

  /** Inside quotes an escaped character reads as itself, a backslash aside. */
  lemma {:induction false} ReadEscapedTag(tags: seq<string>, current: string, c: char)
    requires c != '\\'
    ensures ReadTags(TagReader(tags, current, true, false), EscapeChar(c)) == TagReader(tags, current + [c], true, false)
  {
    if c == '"' {
      ReadTagTwo(TagReader(tags, current, true, false), '\\', '"');
    } else {
      ReadTagOne(TagReader(tags, current, true, false), c);
    }
  }

  lemma {:induction false} ReadQuotedTag(tags: seq<string>, s: string)
    requires !Has(s, '\\')
    ensures ReadTags(TagReader(tags, "", true, false), EscapeQuotes(s)) == TagReader(tags, s, true, false)
  {
    if s != "" {
      var init, c := s[..|s| - 1], s[|s| - 1];
      assert s == init + [c];
      assert forall d :: Has(init, d) ==> Has(s, d);
      ReadQuotedTag(tags, init);
      ReadTagsAppend(TagReader(tags, "", true, false), EscapeQuotes(init), EscapeChar(c));
      ReadEscapedTag(tags, init, c);
    }
  }

  lemma {:induction false} ReadAround(t: TagReader, a: char, s: string, b: char)
    ensures ReadTags(t, [a] + s + [b]) == ReadTag(ReadTags(ReadTag(t, a), s), b)
  {
    ReadTagsAppend(t, [a] + s, [b]);
    ReadTagsAppend(t, [a], s);
    ReadTagOne(t, a);
    ReadTagOne(ReadTags(ReadTag(t, a), s), b);
  }

  lemma {:induction false} ReadRenderedTag(tags: seq<string>, tag: string)
    requires TagOk(tag)
    ensures ReadTags(Between(tags, ""), RenderTag(tag)) == Between(tags, tag)
  {
    if TagNeedsQuote(tag) {
      QuoteParts(tag);
      ReadAround(Between(tags, ""), '"', EscapeQuotes(tag), '"');
      ReadQuotedTag(tags, tag);
    } else {
      ReadPlainTag(tags, tag);
    }
  }

  lemma {:induction false} RenderPush(init: seq<string>, last: string)
    ensures RenderTags(init + [last]) == if init == [] then RenderTag(last) else RenderTags(init) + ([','] + RenderTag(last))
  {
    assert (init + [last])[..|init|] == init;
    if init != [] {
      PlusAssociates(RenderTags(init), [','], RenderTag(last));
    }
  }

  /** The reader behind rendered tags, the last of them still open. */
  function OpenTags(tags: seq<string>): TagReader {
    if tags == [] then Between([], "") else Between(tags[..|tags| - 1], tags[|tags| - 1])
  }

  lemma {:induction false} CommaAfter(tags: seq<string>)
    requires tags != []
    ensures ReadTag(OpenTags(tags), ',') == Between(tags, "")
  {
    assert tags == tags[..|tags| - 1] + [tags[|tags| - 1]];
  }

  lemma {:induction false} NextTag(t: TagReader, text: string, tag: string)
    ensures ReadTags(t, text + ([','] + tag)) == ReadTags(ReadTag(ReadTags(t, text), ','), tag)
  {
    ReadTagsAppend(t, text, [','] + tag);
    ReadTagsAppend(ReadTags(t, text), [','], tag);
    ReadTagOne(ReadTags(t, text), ',');
  }

  lemma {:induction false} TagsReadOpen(tags: seq<string>)
    requires forall i :: 0 <= i < |tags| ==> TagOk(tags[i])
    ensures ReadTags(Between([], ""), RenderTags(tags)) == OpenTags(tags)
  {
    if tags != [] {
      var init, last := tags[..|tags| - 1], tags[|tags| - 1];
      assert tags == init + [last];
      RenderPush(init, last);
      TagsReadOpen(init);
      ReadRenderedTag(init, last);
      if init != [] {
        NextTag(Between([], ""), RenderTags(init), RenderTag(last));
        CommaAfter(init);
      }
    }
  }

  lemma {:induction false} RenderTagsStart(tags: seq<string>)
    requires tags != []
    ensures |tags| > 1 && tags[0] == "" ==> RenderTags(tags) != "" && RenderTags(tags)[0] == ','
    ensures tags[0] != "" ==> RenderTags(tags) != "" && RenderTags(tags)[0] == (if TagNeedsQuote(tags[0]) then '"' else tags[0][0])
  {
    if |tags| > 1 {
      RenderTagsStart(tags[..|tags| - 1]);
    }
  }

  lemma {:induction false} RenderTagsEnd(tags: seq<string>)
    requires tags != []
    ensures |tags| > 1 && tags[|tags| - 1] == "" ==> RenderTags(tags) != "" && RenderTags(tags)[|RenderTags(tags)| - 1] == ','
    ensures tags[|tags| - 1] != "" ==> RenderTags(tags) != ""
    ensures tags[|tags| - 1] != "" ==>
      RenderTags(tags)[|RenderTags(tags)| - 1] == (if TagNeedsQuote(tags[|tags| - 1]) then '"' else tags[|tags| - 1][|tags[|tags| - 1]| - 1])
  {
  }

  lemma {:induction false} ListOpen(tags: seq<string>)
    requires tags != []
    ensures OpenTags(tags).tags + [OpenTags(tags).current] == tags && !OpenTags(tags).inQuote
  {
  }

  // ---- Tag lists that do not come back ----

  function Weights(tags: seq<string>): nat {
    if tags == [] then 0 else Weights(tags[..|tags| - 1]) + |tags[|tags| - 1]| + 1
  }

  /** How much text a reader holds; a waiting backslash counts for the character it will yield. */
  function Weight(t: TagReader): nat {
    Weights(t.tags) + |t.current| + if t.held then 1 else 0
  }

  function NonQuotes(s: string): nat {
    if s == "" then 0 else NonQuotes(s[..|s| - 1]) + if s[|s| - 1] == '"' then 0 else 1
  }

  lemma {:induction false} NonQuotesAppend(a: string, b: string)
    ensures NonQuotes(a + b) == NonQuotes(a) + NonQuotes(b)
  {
    if b == "" {
      assert a + b == a;
    } else {
      assert (a + b)[..|a + b| - 1] == a + b[..|b| - 1];
      NonQuotesAppend(a, b[..|b| - 1]);
    }
  }

  lemma {:induction false} WeightsPush(tags: seq<string>, tag: string)
    ensures Weights(tags + [tag]) == Weights(tags) + |tag| + 1
  {
    assert (tags + [tag])[..|tags|] == tags;
  }

  lemma {:induction false} CharWeighs(t: TagReader, c: char)
    ensures Weight(ReadTag(t, c)) <= Weight(t) + if c == '"' || (t.inQuote && t.held) then 0 else 1
  {
    WeightsPush(t.tags, t.current);
  }

  /** Reading never yields more than one character for each that is not a quote. */
  lemma {:induction false} TextWeighs(t: TagReader, s: string)
    ensures Weight(ReadTags(t, s)) <= Weight(t) + NonQuotes(s)
  {
    if s != "" {
      TextWeighs(t, s[..|s| - 1]);
      CharWeighs(ReadTags(t, s[..|s| - 1]), s[|s| - 1]);
    }
  }

  /** A character behind a waiting backslash is no gain. */
  lemma {:induction false} HeldLoses(t: TagReader, s: string)
    requires t.inQuote && t.held && s != "" && s[0] != '"'
    ensures Weight(ReadTags(t, s)) < Weight(t) + NonQuotes(s)
  {
    assert s == [s[0]] + s[1..];
    ReadTagsAppend(t, [s[0]], s[1..]);
    ReadTagOne(t, s[0]);
    CharWeighs(t, s[0]);
    TextWeighs(ReadTag(t, s[0]), s[1..]);
    NonQuotesAppend([s[0]], s[1..]);
    NonQuotesPush("", s[0]);
  }

  lemma {:induction false} NonQuotesPush(s: string, c: char)
    ensures NonQuotes(s + [c]) == NonQuotes(s) + if c == '"' then 0 else 1
    ensures NonQuotes([c]) == if c == '"' then 0 else 1
  {
    assert (s + [c])[..|s|] == s && [c][..0] == "";
  }

  lemma {:induction false} EscapeCharWeighs(c: char)
    ensures NonQuotes(EscapeChar(c)) == 1 && EscapeChar(c) != "" && EscapeChar(c)[0] != '"'
  {
    NonQuotesPush("", c);
    NonQuotesPush("", '\\');
    NonQuotesPush("\\", '"');
    assert "" + "\\" == "\\" && "\\" + ['"'] == "\\\"";
  }

  lemma {:induction false} EscapedWeighs(s: string)
    ensures NonQuotes(EscapeQuotes(s)) == |s|
    ensures s != "" ==> EscapeQuotes(s) != "" && EscapeQuotes(s)[0] != '"'
  {
    if s != "" {
      EscapedWeighs(s[..|s| - 1]);
      EscapeCharWeighs(s[|s| - 1]);
      NonQuotesAppend(EscapeQuotes(s[..|s| - 1]), EscapeChar(s[|s| - 1]));
    }
  }

  lemma {:induction false} QuoteWeighs(s: string)
    ensures NonQuotes(Quote(s)) == |s|
  {
    QuoteParts(s);
    EscapedWeighs(s);
    NonQuotesAppend(['"'], EscapeQuotes(s));
    NonQuotesPush("", '"');
    NonQuotesPush(['"'] + EscapeQuotes(s), '"');
  }

  lemma {:induction false} PlainWeighs(s: string)
    requires !Has(s, '"')
    ensures NonQuotes(s) == |s|
  {
    if s != "" {
      assert forall d :: Has(s[..|s| - 1], d) ==> Has(s, d);
      PlainWeighs(s[..|s| - 1]);
    }
  }

  lemma {:induction false} TagWeighs(tag: string)
    ensures NonQuotes(RenderTag(tag)) == |tag|
  {
    if TagNeedsQuote(tag) {
      QuoteWeighs(tag);
    } else {
      PlainWeighs(tag);
    }
  }

  lemma {:induction false} CommaWeighs(text: string, tag: string)
    ensures NonQuotes(text + ([','] + tag)) == NonQuotes(text) + 1 + NonQuotes(tag)
  {
    NonQuotesAppend(text, [','] + tag);
    NonQuotesAppend([','], tag);
    NonQuotesPush("", ',');
  }

  lemma {:induction false} TagsWeigh(tags: seq<string>)
    requires tags != []
    ensures NonQuotes(RenderTags(tags)) + 1 == Weights(tags)
  {
    var init, last := tags[..|tags| - 1], tags[|tags| - 1];
    assert tags == init + [last];
    TagWeighs(last);
    RenderPush(init, last);
    if init != [] {
      TagsWeigh(init);
      CommaWeighs(RenderTags(init), RenderTag(last));
    }
  }

  lemma {:induction false} SolidNotBlank(s: string, i: nat)
    requires i < |s| && !IsSpace(s[i])
    ensures Trim(s) != ""
  {
    SolidStart(s, i);
    var t := TrimStart(s);
    TrimEndSize(t);
    if |t| > 0 {
      SolidEnd(t, 0);
    }
  }

  lemma {:induction false} SolidStart(s: string, i: nat)
    requires i < |s| && !IsSpace(s[i])
    ensures TrimStart(s) != "" && !IsSpace(TrimStart(s)[0])
  {
    if IsSpace(s[0]) {
      SolidStart(s[1..], i - 1);
    }
  }

  lemma {:induction false} SolidEnd(s: string, i: nat)
    requires i < |s| && !IsSpace(s[i])
    ensures TrimEnd(s) != ""
  {
    if IsSpace(s[|s| - 1]) {
      SolidEnd(s[..|s| - 1], i);
    }
  }

  /** The tag at `k` begins with `x`, finished or not, and `x` is not blank. */
  ghost predicate Begun(t: TagReader, k: nat, x: string) {
    && (exists i :: 0 <= i < |x| && !IsSpace(x[i]))
    && (if k < |t.tags| then x <= t.tags[k] else k == |t.tags| && x <= t.current)
  }

  lemma {:induction false} BegunStays(t: TagReader, k: nat, x: string, c: char)
    requires Begun(t, k, x)
    ensures Begun(ReadTag(t, c), k, x)
  {
    if k == |t.tags| {
      var i :| 0 <= i < |x| && !IsSpace(x[i]);
      SolidNotBlank(t.current, i);
    }
  }

  lemma {:induction false} BegunForever(t: TagReader, k: nat, x: string, s: string)
    requires Begun(t, k, x)
    ensures Begun(ReadTags(t, s), k, x)
  {
    if s != "" {
      BegunForever(t, k, x, s[..|s| - 1]);
      BegunStays(ReadTags(t, s[..|s| - 1]), k, x, s[|s| - 1]);
    }
  }

  ghost predicate Spoiled(t: TagReader, tags: seq<string>, k: nat, x: string) {
    k < |tags| && Begun(t, k, x) && !(x <= tags[k])
  }

  /** The reader cannot end in these tags any more: it holds too little, or one tag has gone wrong. */
  ghost predicate Doomed(t: TagReader, tags: seq<string>) {
    Weight(t) + 1 < Weights(tags) || exists k, x :: Spoiled(t, tags, k, x)
  }

  lemma {:induction false} SpoiledStays(t: TagReader, tags: seq<string>, tag: string, k: nat, x: string, s: string)
    requires Spoiled(t, tags, k, x)
    ensures Doomed(ReadTags(t, s), tags + [tag])
  {
    BegunForever(t, k, x, s);
    assert Spoiled(ReadTags(t, s), tags + [tag], k, x);
  }

  lemma {:induction false} DoomedStays(t: TagReader, tags: seq<string>, tag: string)
    requires Doomed(t, tags)
    ensures Doomed(ReadTags(t, [','] + RenderTag(tag)), tags + [tag])
  {
    var s := [','] + RenderTag(tag);
    if Weight(t) + 1 < Weights(tags) {
      TextWeighs(t, s);
      NonQuotesAppend([','], RenderTag(tag));
      NonQuotesPush("", ',');
      TagWeighs(tag);
      WeightsPush(tags, tag);
    } else {
      var k: nat, x: string :| Spoiled(t, tags, k, x);
      SpoiledStays(t, tags, tag, k, x, s);
    }
  }

  lemma {:induction false} EscapeAppend(a: string, b: string)
    ensures EscapeQuotes(a + b) == EscapeQuotes(a) + EscapeQuotes(b)
  {
    if b == "" {
      assert a + b == a;
    } else {
      var init, c := b[..|b| - 1], b[|b| - 1];
      EscapeAppend(a, init);
      assert a + b == (a + init) + [c];
      EscapePush(a + init, c);
      PlusAssociates(EscapeQuotes(a), EscapeQuotes(init), EscapeChar(c));
    }
  }

  /** The rendered tag up to and with its first backslash, and the rest. */
  function UpTo(a: string): string {
    ['"'] + EscapeQuotes(a) + ['\\']
  }

  lemma {:induction false} FourParts(a: string, b: string, c: string, d: string, e: string)
    ensures a + (b + c + d) + e == a + b + c + (d + e)
  {
  }

  lemma {:induction false} QuoteAround(a: string, b: string)
    ensures Quote(a + ['\\'] + b) == UpTo(a) + (EscapeQuotes(b) + ['"'])
  {
    QuoteParts(a + ['\\'] + b);
    EscapeAppend(a + ['\\'], b);
    EscapePush(a, '\\');
    FourParts(['"'], EscapeQuotes(a), ['\\'], EscapeQuotes(b), ['"']);
  }

  /** Up to its first backslash a quoted tag reads well; then the backslash waits. */
  lemma {:induction false} ReadToBackslash(tags: seq<string>, a: string)
    requires !Has(a, '\\')
    ensures ReadTags(Between(tags, ""), UpTo(a)) == TagReader(tags, a, true, true)
  {
    ReadAround(Between(tags, ""), '"', EscapeQuotes(a), '\\');
    ReadQuotedTag(tags, a);
  }

  /** Behind a waiting backslash the closing quote becomes part of the tag. */
  lemma {:induction false} QuoteEaten(tags: seq<string>, a: string)
    ensures Doomed(ReadTags(TagReader(tags, a, true, true), ['"']), tags + [a + ['\\']])
  {
    var t, x := TagReader(tags, a, true, true), a + ['"'];
    ReadTagOne(t, '"');
    assert x[|a|] == '"' && !IsSpace('"');
    assert (tags + [a + ['\\']])[|tags|][|a|] == '\\';
    assert Spoiled(ReadTag(t, '"'), tags + [a + ['\\']], |tags|, x);
  }

  /** Behind a waiting backslash the next character is no gain. */
  lemma {:induction false} TextLost(tags: seq<string>, a: string, b: string)
    requires b != ""
    ensures Doomed(ReadTags(TagReader(tags, a, true, true), EscapeQuotes(b) + ['"']), tags + [a + ['\\'] + b])
  {
    EscapedWeighs(b);
    HeldLoses(TagReader(tags, a, true, true), EscapeQuotes(b) + ['"']);
    NonQuotesPush(EscapeQuotes(b), '"');
    WeightsPush(tags, a + ['\\'] + b);
  }

  /** A quoted tag with a backslash in it is lost. */
  lemma {:induction false} BackslashSpoils(tags: seq<string>, bad: string)
    requires !TagOk(bad)
    ensures Doomed(ReadTags(Between(tags, ""), RenderTag(bad)), tags + [bad])
  {
    var p := FirstAt(bad, '\\');
    var a, b := bad[..p], bad[p + 1..];
    assert bad == a + ['\\'] + b;
    QuoteAround(a, b);
    ReadToBackslash(tags, a);
    ReadTagsAppend(Between(tags, ""), UpTo(a), EscapeQuotes(b) + ['"']);
    if b == "" {
      assert a + ['\\'] + b == a + ['\\'] && EscapeQuotes(b) + ['"'] == ['"'];
      QuoteEaten(tags, a);
    } else {
      TextLost(tags, a, b);
    }
  }

  ghost predicate AllTagsOk(tags: seq<string>) {
    forall i :: 0 <= i < |tags| ==> TagOk(tags[i])
  }

  lemma {:induction false} LastTagDooms(init: seq<string>, last: string)
    requires AllTagsOk(init) && !TagOk(last)
    ensures Doomed(ReadTags(Between([], ""), RenderTags(init + [last])), init + [last])
  {
    RenderPush(init, last);
    BackslashSpoils(init, last);
    if init != [] {
      TagsReadOpen(init);
      NextTag(Between([], ""), RenderTags(init), RenderTag(last));
      CommaAfter(init);
    }
  }

  lemma {:induction false} BadTagDooms(tags: seq<string>)
    requires !AllTagsOk(tags)
    ensures Doomed(ReadTags(Between([], ""), RenderTags(tags)), tags)
  {
    var init, last := tags[..|tags| - 1], tags[|tags| - 1];
    assert tags == init + [last];
    if AllTagsOk(init) {
      LastTagDooms(init, last);
    } else {
      BadTagDooms(init);
      DoomedStays(ReadTags(Between([], ""), RenderTags(init)), init, last);
      RenderPush(init, last);
      ReadTagsAppend(Between([], ""), RenderTags(init), [','] + RenderTag(last));
    }
  }

  /** A waiting backslash is inside quotes. */
  lemma {:induction false} HeldInside(t: TagReader, s: string)
    requires t.held ==> t.inQuote
    ensures ReadTags(t, s).held ==> ReadTags(t, s).inQuote
  {
    if s != "" {
      HeldInside(t, s[..|s| - 1]);
    }
  }

  lemma {:induction false} DoomedDiffers(t: TagReader, tags: seq<string>)
    requires Doomed(t, tags) && !t.held
    ensures t.tags + [t.current] != tags
  {
    WeightsPush(t.tags, t.current);
    if !(Weight(t) + 1 < Weights(tags)) {
      var k: nat, x: string :| Spoiled(t, tags, k, x);
      assert x <= (t.tags + [t.current])[k];
    }
  }

  lemma {:induction false} TrimStartLightens(s: string)
    ensures NonQuotes(TrimStart(s)) + |s| == NonQuotes(s) + |TrimStart(s)|
  {
    if s != "" && IsSpace(s[0]) {
      TrimStartLightens(s[1..]);
      assert s == [s[0]] + s[1..];
      NonQuotesAppend([s[0]], s[1..]);
      NonQuotesPush("", s[0]);
    }
  }

  lemma {:induction false} TrimEndLightens(s: string)
    ensures NonQuotes(TrimEnd(s)) + |s| == NonQuotes(s) + |TrimEnd(s)|
  {
    if s != "" && IsSpace(s[|s| - 1]) {
      TrimEndLightens(s[..|s| - 1]);
    }
  }

  lemma {:induction false} TrimLightens(s: string)
    requires !Trimmed(s)
    ensures NonQuotes(Trim(s)) < NonQuotes(s)
  {
    TrimStartLightens(s);
    TrimEndLightens(TrimStart(s));
    TrimStartSize(s);
    TrimEndSize(TrimStart(s));
    if |TrimStart(s)| == |s| {
      TrimStartWhole(s);
    }
  }

  lemma {:induction false} UntrimmedTagsLose(tags: seq<string>)
    requires tags != [] && !Trimmed(RenderTags(tags))
    ensures ParseTags(RenderTags(tags)) != Some(tags)
  {
    var s := Trim(RenderTags(tags));
    if s != "" {
      var t := ReadTags(Between([], ""), s);
      TagsWeigh(tags);
      TrimLightens(RenderTags(tags));
      TextWeighs(Between([], ""), s);
      HeldInside(Between([], ""), s);
      if !t.inQuote {
        DoomedDiffers(t, tags);
      }
    }
  }

  lemma {:induction false} TrimmedTags(tags: seq<string>)
    requires tags != []
    ensures TagsOk(tags) <==> RenderTags(tags) != "" && Trimmed(RenderTags(tags)) && AllTagsOk(tags)
  {
    RenderTagsStart(tags);
    RenderTagsEnd(tags);
    assert !IsSpace('"') && !IsSpace(',');
    assert |tags| == 1 ==> tags == [tags[0]];
  }

  lemma {:induction false} TrimmedTagsParse(tags: seq<string>)
    requires tags != [] && RenderTags(tags) != "" && Trimmed(RenderTags(tags))
    ensures ParseTags(RenderTags(tags)) == Some(tags) <==> AllTagsOk(tags)
  {
    TrimKeeps(RenderTags(tags));
    var t := ReadTags(Between([], ""), RenderTags(tags));
    if AllTagsOk(tags) {
      TagsReadOpen(tags);
      ListOpen(tags);
    } else {
      BadTagDooms(tags);
      HeldInside(Between([], ""), RenderTags(tags));
      if !t.inQuote {
        DoomedDiffers(t, tags);
      }
    }
  }

  /** Main result: exactly which tag lists come back from their rendering. */
  lemma {:induction false} TagsAreExact(tags: seq<string>)
    ensures ParseTags(RenderTags(tags)) == Some(tags) <==> TagsOk(tags)
  {
    if tags == [] {
      TrimKeeps("");
    } else {
      TrimmedTags(tags);
      if !Trimmed(RenderTags(tags)) {
        UntrimmedTagsLose(tags);
      } else if RenderTags(tags) != "" {
        TrimmedTagsParse(tags);
      } else {
        TrimKeeps("");
      }
    }
  }

  // ---- What any text reads as ----

  /** One character between quotes: itself, or behind a backslash. */
  datatype Sign = Raw(c: char) | Slashed(c: char)

  /** A part of a written tag: text outside quotes, or a quoted string. */
  datatype TagPart = Loose(text: string) | InQuotes(signs: seq<Sign>)

  predicate SignOk(x: Sign) {
    x.Raw? ==> x.c != '"' && x.c != '\\'
  }

  predicate SignsOk(xs: seq<Sign>) {
    forall i :: 0 <= i < |xs| ==> SignOk(xs[i])
  }

  predicate PartOk(p: TagPart) {
    match p
    case Loose(text) => !Has(text, '"') && !Has(text, ',')
    case InQuotes(signs) => SignsOk(signs)
  }

  predicate SegmentOk(parts: seq<TagPart>) {
    forall i :: 0 <= i < |parts| ==> PartOk(parts[i])
  }

  predicate SegmentsOk(segs: seq<seq<TagPart>>) {
    segs != [] && forall i :: 0 <= i < |segs| ==> SegmentOk(segs[i])
  }

  function SpellSign(x: Sign): string {
    if x.Raw? then [x.c] else ['\\', x.c]
  }

  function SpellSigns(xs: seq<Sign>): string {
    if xs == [] then "" else SpellSigns(xs[..|xs| - 1]) + SpellSign(xs[|xs| - 1])
  }

  function SpellPart(p: TagPart): string {
    match p
    case Loose(text) => text
    case InQuotes(signs) => ['"'] + SpellSigns(signs) + ['"']
  }

  function SpellSegment(parts: seq<TagPart>): string {
    if parts == [] then "" else SpellSegment(parts[..|parts| - 1]) + SpellPart(parts[|parts| - 1])
  }

  /** The segments, commas between them. */
  function SpellList(segs: seq<seq<TagPart>>): string {
    if segs == [] then ""
    else if |segs| == 1 then SpellSegment(segs[0])
    else SpellList(segs[..|segs| - 1]) + ([','] + SpellSegment(segs[|segs| - 1]))
  }

  /** What quoted characters stand for: each for itself, the backslashes gone. */
  function Meant(xs: seq<Sign>): string {
    if xs == [] then "" else Meant(xs[..|xs| - 1]) + [xs[|xs| - 1].c]
  }

  predicate AllSpace(s: string) {
    forall i :: 0 <= i < |s| ==> IsSpace(s[i])
  }

  /** The text of the parts in order, what was read before a quote dropped when it is all whitespace. */
  function TagOf(parts: seq<TagPart>): string {
    if parts == [] then ""
    else
      var before, last := TagOf(parts[..|parts| - 1]), parts[|parts| - 1];
      match last
      case Loose(text) => before + text
      case InQuotes(signs) => (if AllSpace(before) then "" else before) + Meant(signs)
  }

  function TagsIn(segs: seq<seq<TagPart>>): seq<string> {
    if segs == [] then [] else TagsIn(segs[..|segs| - 1]) + [TagOf(segs[|segs| - 1])]
  }

  lemma {:induction false} BlankIsAllSpace(s: string)
    ensures Trim(s) == "" <==> AllSpace(s)
  {
    if AllSpace(s) {
      BlankTrims(s);
    } else {
      var i :| 0 <= i < |s| && !IsSpace(s[i]);
      SolidNotBlank(s, i);
    }
  }

  lemma {:induction false} BlankTrims(s: string)
    requires AllSpace(s)
    ensures TrimStart(s) == ""
  {
    if s != "" {
      BlankTrims(s[1..]);
    }
  }

  lemma {:induction false} ReadLoose(tags: seq<string>, current: string, text: string)
    requires !Has(text, '"') && !Has(text, ',')
    ensures ReadTags(Between(tags, current), text) == Between(tags, current + text)
  {
    if text == "" {
      assert current + text == current;
    } else {
      var init, c := text[..|text| - 1], text[|text| - 1];
      assert forall d :: Has(init, d) ==> Has(text, d);
      ReadLoose(tags, current, init);
      assert Has(text, c);
      assert current + init + [c] == current + text;
    }
  }

  lemma {:induction false} SignsPush(xs: seq<Sign>, x: Sign)
    ensures SpellSigns(xs + [x]) == SpellSigns(xs) + SpellSign(x) && Meant(xs + [x]) == Meant(xs) + [x.c]
  {
    assert (xs + [x])[..|xs|] == xs;
  }

  lemma {:induction false} ReadSign(tags: seq<string>, current: string, x: Sign)
    requires SignOk(x)
    ensures ReadTags(TagReader(tags, current, true, false), SpellSign(x)) == TagReader(tags, current + [x.c], true, false)
  {
    if x.Raw? {
      ReadTagOne(TagReader(tags, current, true, false), x.c);
    } else {
      ReadTagTwo(TagReader(tags, current, true, false), '\\', x.c);
    }
  }

  lemma {:induction false} ReadSigns(tags: seq<string>, current: string, xs: seq<Sign>)
    requires SignsOk(xs)
    ensures ReadTags(TagReader(tags, current, true, false), SpellSigns(xs)) == TagReader(tags, current + Meant(xs), true, false)
  {
    if xs == [] {
      assert current + "" == current;
    } else {
      var init, last := xs[..|xs| - 1], xs[|xs| - 1];
      ReadSigns(tags, current, init);
      ReadTagsAppend(TagReader(tags, current, true, false), SpellSigns(init), SpellSign(last));
      ReadSign(tags, current + Meant(init), last);
      PlusAssociates(current, Meant(init), [last.c]);
    }
  }

  function Extended(before: string, p: TagPart): string {
    match p
    case Loose(text) => before + text
    case InQuotes(signs) => (if AllSpace(before) then "" else before) + Meant(signs)
  }

  lemma {:induction false} ReadPart(tags: seq<string>, current: string, p: TagPart)
    requires PartOk(p)
    ensures ReadTags(Between(tags, current), SpellPart(p)) == Between(tags, Extended(current, p))
  {
    match p
    case Loose(text) => ReadLoose(tags, current, text);
    case InQuotes(signs) =>
      BlankIsAllSpace(current);
      ReadAround(Between(tags, current), '"', SpellSigns(signs), '"');
      ReadSigns(tags, if AllSpace(current) then "" else current, signs);
  }

  lemma {:induction false} ReadSegment(tags: seq<string>, parts: seq<TagPart>)
    requires SegmentOk(parts)
    ensures ReadTags(Between(tags, ""), SpellSegment(parts)) == Between(tags, TagOf(parts))
  {
    if parts != [] {
      var init, last := parts[..|parts| - 1], parts[|parts| - 1];
      ReadSegment(tags, init);
      ReadTagsAppend(Between(tags, ""), SpellSegment(init), SpellPart(last));
      ReadPart(tags, TagOf(init), last);
    }
  }

  /** The reader behind written segments: the last tag is still open. */
  lemma {:induction false} ReadList(segs: seq<seq<TagPart>>)
    requires SegmentsOk(segs)
    ensures ReadTags(Between([], ""), SpellList(segs)) == OpenTags(TagsIn(segs)) && TagsIn(segs) != []
  {
    var init, last := segs[..|segs| - 1], segs[|segs| - 1];
    if init == [] {
      ReadSegment([], last);
      assert TagsIn(init) == [];
    } else {
      ReadList(init);
      NextTag(Between([], ""), SpellList(init), SpellSegment(last));
      CommaAfter(TagsIn(init));
      ReadSegment(TagsIn(init), last);
    }
    assert TagsIn(segs)[..|TagsIn(segs)| - 1] == TagsIn(init);
  }

  // ---- Every text is written in this way, or ends inside quotes ----

  /** What a reader that has gone through `s` has seen. */
  ghost predicate SeenAs(t: TagReader, s: string, segs: seq<seq<TagPart>>, open: seq<Sign>) {
    && SegmentsOk(segs)
    && if t.inQuote then SignsOk(open) && s == SpellList(segs) + (['"'] + SpellSigns(open)) + (if t.held then ['\\'] else "")
       else s == SpellList(segs) && !t.held
  }

  function AddPart(segs: seq<seq<TagPart>>, p: TagPart): seq<seq<TagPart>>
    requires segs != []
  {
    segs[..|segs| - 1] + [segs[|segs| - 1] + [p]]
  }

  lemma {:induction false} ListPush(init: seq<seq<TagPart>>, last: seq<TagPart>)
    ensures SpellList(init + [last]) == if init == [] then SpellSegment(last) else SpellList(init) + ([','] + SpellSegment(last))
  {
    assert (init + [last])[..|init|] == init;
  }

  lemma {:induction false} SegmentPush(parts: seq<TagPart>, p: TagPart)
    ensures SpellSegment(parts + [p]) == SpellSegment(parts) + SpellPart(p)
  {
    assert (parts + [p])[..|parts|] == parts;
  }

  lemma {:induction false} AddPartOk(segs: seq<seq<TagPart>>, p: TagPart)
    requires SegmentsOk(segs) && PartOk(p)
    ensures SegmentsOk(AddPart(segs, p))
  {
  }

  lemma {:induction false} LastGrows(init: string, last: string, part: string)
    ensures init + ([','] + (last + part)) == init + ([','] + last) + part
  {
  }

  lemma {:induction false} AddPartSpells(segs: seq<seq<TagPart>>, p: TagPart)
    requires segs != []
    ensures SpellList(AddPart(segs, p)) == SpellList(segs) + SpellPart(p)
  {
    var init, last := segs[..|segs| - 1], segs[|segs| - 1];
    assert segs == init + [last];
    ListPush(init, last);
    ListPush(init, last + [p]);
    SegmentPush(last, p);
    LastGrows(SpellList(init), SpellSegment(last), SpellPart(p));
  }

  lemma {:induction false} NewSegmentSpells(segs: seq<seq<TagPart>>)
    requires SegmentsOk(segs)
    ensures SpellList(segs + [[]]) == SpellList(segs) + [','] && SegmentsOk(segs + [[]])
  {
    ListPush(segs, []);
    assert [','] + "" == [','];
  }

  lemma {:induction false} SeenOutside(t: TagReader, s: string, segs: seq<seq<TagPart>>, c: char)
      returns (segs': seq<seq<TagPart>>, open': seq<Sign>)
    requires SeenAs(t, s, segs, []) && !t.inQuote
    ensures SeenAs(ReadTag(t, c), s + [c], segs', open')
  {
    open' := [];
    if c == ',' {
      segs' := segs + [[]];
      NewSegmentSpells(segs);
    } else if c == '"' {
      segs' := segs;
      assert SpellList(segs) + (['"'] + SpellSigns([])) + "" == SpellList(segs) + ['"'];
    } else {
      segs' := AddPart(segs, Loose([c]));
      AddPartSpells(segs, Loose([c]));
      AddPartOk(segs, Loose([c]));
    }
  }

  lemma {:induction false} SeenQuoteCloses(s: string, segs: seq<seq<TagPart>>, open: seq<Sign>)
    requires SegmentsOk(segs) && SignsOk(open)
    ensures SpellList(AddPart(segs, InQuotes(open))) == SpellList(segs) + (['"'] + SpellSigns(open)) + "" + ['"']
    ensures SegmentsOk(AddPart(segs, InQuotes(open)))
  {
    AddPartSpells(segs, InQuotes(open));
    AddPartOk(segs, InQuotes(open));
    PlusAssociates(SpellList(segs), ['"'] + SpellSigns(open), ['"']);
    assert SpellList(segs) + (['"'] + SpellSigns(open)) + "" == SpellList(segs) + (['"'] + SpellSigns(open));
  }

  /** One more quoted character. */
  lemma {:induction false} SeenSign(list: string, open: seq<Sign>, x: Sign)
    ensures list + (['"'] + SpellSigns(open + [x])) + "" == list + (['"'] + SpellSigns(open)) + SpellSign(x)
  {
    SignsPush(open, x);
    PlusAssociates(['"'], SpellSigns(open), SpellSign(x));
    PlusAssociates(list, ['"'] + SpellSigns(open), SpellSign(x));
    assert list + (['"'] + SpellSigns(open + [x])) + "" == list + (['"'] + SpellSigns(open + [x]));
  }

  lemma {:induction false} SlashSpells(start: string, c: char)
    ensures start + ['\\'] + [c] == start + SpellSign(Slashed(c)) && start + "" + [c] == start + [c]
  {
    assert ['\\'] + [c] == ['\\', c];
    PlusAssociates(start, ['\\'], [c]);
    assert start + "" == start;
  }

  lemma {:induction false} SeenInside(t: TagReader, s: string, segs: seq<seq<TagPart>>, open: seq<Sign>, c: char)
      returns (segs': seq<seq<TagPart>>, open': seq<Sign>)
    requires SeenAs(t, s, segs, open) && t.inQuote
    ensures SeenAs(ReadTag(t, c), s + [c], segs', open')
  {
    segs', open' := segs, open;
    SlashSpells(SpellList(segs) + (['"'] + SpellSigns(open)), c);
    if t.held {
      open' := open + [Slashed(c)];
      SeenSign(SpellList(segs), open, Slashed(c));
    } else if c == '"' {
      segs', open' := AddPart(segs, InQuotes(open)), [];
      SeenQuoteCloses(s, segs, open);
    } else if c != '\\' {
      open' := open + [Raw(c)];
      SeenSign(SpellList(segs), open, Raw(c));
    }
  }

  /** Any text taken apart. */
  lemma {:induction false} TextTakenApart(s: string) returns (segs: seq<seq<TagPart>>, open: seq<Sign>)
    ensures SeenAs(ReadTags(Between([], ""), s), s, segs, open)
  {
    if s == "" {
      segs, open := [[]], [];
      assert SpellList([[]]) == "";
    } else {
      var init, c := s[..|s| - 1], s[|s| - 1];
      var t := ReadTags(Between([], ""), init);
      segs, open := TextTakenApart(init);
      assert init + [c] == s;
      if t.inQuote {
        segs, open := SeenInside(t, init, segs, open, c);
      } else {
        segs, open := SeenOutside(t, init, segs, c);
      }
    }
  }

  ghost predicate WrittenAs(s: string, segs: seq<seq<TagPart>>) {
    SegmentsOk(segs) && s == SpellList(segs)
  }

  /** Main result: any written list, trimmed, reads as the tags of its segments. */
  lemma {:induction false} WrittenTagsRead(value: string, segs: seq<seq<TagPart>>)
    requires Trim(value) != "" && WrittenAs(Trim(value), segs)
    ensures ParseTags(value) == Some(TagsIn(segs))
  {
    ReadList(segs);
    ListOpen(TagsIn(segs));
  }

  /** Main result: exactly the texts written in segments are read, the others end inside quotes. */
  lemma {:induction false} TagLanguage(value: string)
    ensures ParseTags(value).Some? <==> exists segs :: WrittenAs(Trim(value), segs)
    ensures AllSpace(value) ==> ParseTags(value) == Some([])
  {
    BlankIsAllSpace(value);
    var s := Trim(value);
    var segs, open := TextTakenApart(s);
    if !ReadTags(Between([], ""), s).inQuote {
      assert WrittenAs(s, segs);
    }
    if exists other :: WrittenAs(s, other) {
      var other :| WrittenAs(s, other);
      ReadList(other);
      ListOpen(TagsIn(other));
    }
    if s == "" {
      assert ReadTags(Between([], ""), s) == Between([], "");
    }
  }

  function RawSigns(text: string): seq<Sign> {
    seq(|text|, i requires 0 <= i < |text| => Raw(text[i]))
  }

  lemma {:induction false} RawMeans(text: string)
    ensures Meant(RawSigns(text)) == text && SpellSigns(RawSigns(text)) == text
  {
    if text != "" {
      var init, c := text[..|text| - 1], text[|text| - 1];
      RawMeans(init);
      assert RawSigns(text) == RawSigns(init) + [Raw(c)];
      SignsPush(RawSigns(init), Raw(c));
      assert init + [c] == text;
    }
  }

  /** A plain segment's tag is its text, blanks and all; a quoted one's is its content, whatever whitespace stands before the quote. */
  lemma {:induction false} SegmentTags(text: string, blanks: string, content: string)
    requires AllSpace(blanks)
    ensures SpellSegment([Loose(text)]) == text && TagOf([Loose(text)]) == text
    ensures var parts := [Loose(blanks), InQuotes(RawSigns(content))];
      SpellSegment(parts) == blanks + (['"'] + content + ['"']) && TagOf(parts) == content
  {
    RawMeans(content);
    assert [Loose(text)][..0] == [] && "" + text == text;
    var parts := [Loose(blanks), InQuotes(RawSigns(content))];
    assert parts[..1] == [Loose(blanks)] && [Loose(blanks)][..0] == [];
    assert "" + blanks == blanks && "" + content == content;
  }
}
