/** The text level of the `.nomai` format: whitespace, lines, and the escaping of header and attribute values. */
module NomaiText {
  import opened Prelude

  // ---- Characters and trimming ----

  /** The Unicode property White_Space. */
  predicate IsSpace(c: char) {
    var n := c as int;
    || 0x9 <= n <= 0xD || n == 0x20 || n == 0x85 || n == 0xA0 || n == 0x1680 || 0x2000 <= n <= 0x200A
    || n == 0x2028 || n == 0x2029 || n == 0x202F || n == 0x205F || n == 0x3000
  }

  function TrimStart(s: string): string {
    if s != "" && IsSpace(s[0]) then TrimStart(s[1..]) else s
  }

  function TrimEnd(s: string): string {
    if s != "" && IsSpace(s[|s| - 1]) then TrimEnd(s[..|s| - 1]) else s
  }

  function Trim(s: string): string {
    TrimEnd(TrimStart(s))
  }

  predicate Trimmed(s: string) {
    s == "" || (!IsSpace(s[0]) && !IsSpace(s[|s| - 1]))
  }

  lemma {:induction false} TrimStartSize(s: string)
    ensures |TrimStart(s)| <= |s| && (|TrimStart(s)| == |s| <==> s == "" || !IsSpace(s[0]))
  {
    if s != "" && IsSpace(s[0]) {
      TrimStartSize(s[1..]);
    }
  }

  lemma {:induction false} TrimEndSize(s: string)
    ensures |TrimEnd(s)| <= |s| && (|TrimEnd(s)| == |s| <==> s == "" || !IsSpace(s[|s| - 1]))
  {
    if s != "" && IsSpace(s[|s| - 1]) {
      TrimEndSize(s[..|s| - 1]);
    }
  }

  lemma {:induction false} TrimStartWhole(s: string)
    requires |TrimStart(s)| == |s|
    ensures TrimStart(s) == s
  {
    TrimStartSize(s);
  }

  /** Trimming leaves a string alone exactly when neither end is whitespace. */
  lemma {:induction false} TrimKeeps(s: string)
    ensures Trim(s) == s <==> Trimmed(s)
  {
    TrimStartSize(s);
    TrimEndSize(TrimStart(s));
  }

  predicate Has(s: string, c: char) {
    exists i :: 0 <= i < |s| && s[i] == c
  }

  lemma {:induction false} PlusAssociates(a: string, b: string, c: string)
    ensures a + (b + c) == a + b + c
  {
  }

  predicate NoSpace(s: string) {
    forall i :: 0 <= i < |s| ==> !IsSpace(s[i])
  }

  // ---- Lines ----

  function FirstAt(s: string, c: char): (k: nat)
    ensures k <= |s| && (k < |s| ==> s[k] == c) && forall j :: 0 <= j < k ==> s[j] != c
  {
    if s == "" || s[0] == c then 0
    else
      var k := FirstAt(s[1..], c);
      assert forall j :: 1 <= j < |s| ==> s[j] == s[1..][j - 1];
      k + 1
  }

  lemma {:induction false} FirstAtIs(head: string, c: char, tail: string)
    requires !Has(head, c)
    ensures FirstAt(head + [c] + tail, c) == |head|
  {
    var s := head + [c] + tail;
    assert s[|head|] == c;
    assert forall j :: 0 <= j < |head| ==> s[j] == head[j];
  }

  function StripCr(s: string): string {
    if s != "" && s[|s| - 1] == '\r' then s[..|s| - 1] else s
  }

  /** `str::lines`: a carriage return goes only together with the newline after it. */
  function Lines(s: string): seq<string>
    decreases |s|
  {
    var k := FirstAt(s, '\n');
    if k < |s| then [StripCr(s[..k])] + Lines(s[k + 1..]) else if s == "" then [] else [s]
  }

  /** `split_inclusive('\n')`, newlines off. */
  function Pieces(s: string): seq<string>
    decreases |s|
  {
    var k := FirstAt(s, '\n');
    if k < |s| then [s[..k]] + Pieces(s[k + 1..]) else if s == "" then [] else [s]
  }

  function Unlines(lines: seq<string>): string {
    if lines == [] then "" else lines[0] + "\n" + Unlines(lines[1..])
  }

  /** What is left of written lines: each loses a final carriage return to the newline after it. */
  function Stripped(lines: seq<string>): seq<string> {
    seq(|lines|, i requires 0 <= i < |lines| => StripCr(lines[i]))
  }

  /** A line that reading back does not change. */
  predicate IsLine(s: string) {
    !Has(s, '\n') && (s == "" || s[|s| - 1] != '\r')
  }

  ghost predicate AllOneLine(lines: seq<string>) {
    forall i :: 0 <= i < |lines| ==> !Has(lines[i], '\n')
  }

  lemma {:induction false} FirstLine(head: string, tail: string)
    requires !Has(head, '\n')
    ensures FirstAt(head + "\n" + tail, '\n') == |head| < |head + "\n" + tail|
    ensures (head + "\n" + tail)[..|head|] == head && (head + "\n" + tail)[|head| + 1..] == tail
  {
    FirstAtIs(head, '\n', tail);
  }

  /** Lines are read back from their text, however many, save for final carriage returns. */
  lemma {:induction false} LinesReadBack(lines: seq<string>)
    requires AllOneLine(lines)
    ensures Lines(Unlines(lines)) == Stripped(lines)
  {
    if lines != [] {
      LinesReadBack(lines[1..]);
      FirstLine(lines[0], Unlines(lines[1..]));
      StrippedCons(lines);
    }
  }

  lemma {:induction false} StrippedCons(lines: seq<string>)
    requires lines != []
    ensures Stripped(lines) == [StripCr(lines[0])] + Stripped(lines[1..])
  {
  }

  lemma {:induction false} StrippedAppend(a: seq<string>, b: seq<string>)
    ensures Stripped(a + b) == Stripped(a) + Stripped(b)
  {
  }

  lemma {:induction false} LinesAreOneLine(s: string)
    ensures AllOneLine(Lines(s))
    decreases |s|
  {
    var k := FirstAt(s, '\n');
    if k < |s| {
      LinesAreOneLine(s[k + 1..]);
    }
  }

  lemma {:induction false} PiecesReadBack(lines: seq<string>)
    requires AllOneLine(lines)
    ensures Pieces(Unlines(lines)) == lines
  {
    if lines != [] {
      PiecesReadBack(lines[1..]);
      FirstLine(lines[0], Unlines(lines[1..]));
      assert lines == [lines[0]] + lines[1..];
    }
  }

  lemma {:induction false} UnlinesCons(line: string, lines: seq<string>)
    ensures Unlines([line] + lines) == line + "\n" + Unlines(lines)
  {
    assert ([line] + lines)[1..] == lines;
  }

  lemma {:induction false} CutAtNewline(s: string, k: nat)
    requires k < |s| && s[k] == '\n'
    ensures s == s[..k] + "\n" + s[k + 1..]
    ensures s[|s| - 1] == '\n' ==> s[k + 1..] == "" || s[k + 1..][|s| - k - 2] == '\n'
  {
  }

  /** Text that ends with a newline is its pieces, each with its newline. */
  lemma {:induction false} PiecesSpell(s: string)
    requires s == "" || s[|s| - 1] == '\n'
    ensures Unlines(Pieces(s)) == s
    decreases |s|
  {
    if s != "" {
      var k := FirstAt(s, '\n');
      CutAtNewline(s, k);
      PiecesSpell(s[k + 1..]);
      UnlinesCons(s[..k], Pieces(s[k + 1..]));
    }
  }

  lemma {:induction false} PiecesHaveNoNewline(s: string)
    ensures forall i :: 0 <= i < |Pieces(s)| ==> !Has(Pieces(s)[i], '\n')
    decreases |s|
  {
    var k := FirstAt(s, '\n');
    if k < |s| {
      PiecesHaveNoNewline(s[k + 1..]);
    }
  }

  lemma {:induction false} UnlinesAppend(a: seq<string>, b: seq<string>)
    ensures Unlines(a + b) == Unlines(a) + Unlines(b)
  {
    if a == [] {
      assert a + b == b;
    } else {
      UnlinesAppend(a[1..], b);
      assert (a + b)[1..] == a[1..] + b;
      PlusAssociates(a[0] + "\n", Unlines(a[1..]), Unlines(b));
    }
  }

  // ---- Escaping values ----

  function EscapeChar(c: char): string {
    if c == '"' then "\\\"" else [c]
  }

  /** `replace('"', "\\\"")`. */
  function EscapeQuotes(s: string): string {
    if s == "" then "" else EscapeQuotes(s[..|s| - 1]) + EscapeChar(s[|s| - 1])
  }

  lemma {:induction false} EscapePush(s: string, c: char)
    ensures EscapeQuotes(s + [c]) == EscapeQuotes(s) + EscapeChar(c)
  {
    assert (s + [c])[..|s|] == s;
  }

  predicate NeedsQuote(s: string) {
    s == "" || Has(s, ' ') || Has(s, '"') || Has(s, ',')
  }

  function Quote(s: string): string {
    "\"" + EscapeQuotes(s) + "\""
  }

  lemma {:induction false} QuoteParts(v: string)
    ensures Quote(v) == ['"'] + EscapeQuotes(v) + ['"']
  {
  }

  function Escape(s: string): string {
    if NeedsQuote(s) then Quote(s) else s
  }

  /** Reading the inside of quotes; `held` when a backslash waits for the next character. */
  datatype Reader = Reader(out: string, held: bool)

  function Read(r: Reader, c: char): Reader {
    if r.held then (if c == '"' then Reader(r.out + "\"", false) else Reader(r.out + ['\\', c], false))
    else if c == '\\' then Reader(r.out, true)
    else Reader(r.out + [c], false)
  }

  function ReadAll(r: Reader, s: string): Reader {
    if s == "" then r else Read(ReadAll(r, s[..|s| - 1]), s[|s| - 1])
  }

  function Finish(r: Reader): string {
    if r.held then r.out + "\\" else r.out
  }

  /** `None`: an opening quote without a closing one. */
  function Unescape(value: string): Option<string> {
    var s := Trim(value);
    if s == "" || s[0] != '"' then Some(s)
    else if |s| < 2 || s[|s| - 1] != '"' then None
    else Some(Finish(ReadAll(Reader("", false), s[1..|s| - 1])))
  }

  /** Backslashes directly before position `i`. */
  function Run(s: string, i: nat): nat
    requires i <= |s|
  {
    if i > 0 && s[i - 1] == '\\' then 1 + Run(s, i - 1) else 0
  }

  /** Every backslash run directly before a quote has even length. */
  predicate EvenRuns(s: string) {
    forall i :: 0 <= i < |s| && s[i] == '"' ==> Run(s, i) % 2 == 0
  }

  /** A backslash run of odd length at the end. */
  predicate OddTail(s: string) {
    Run(s, |s|) % 2 == 1
  }

  lemma {:induction false} RunPrefix(s: string, n: nat, i: nat)
    requires i <= n <= |s|
    ensures Run(s[..n], i) == Run(s, i)
  {
    if i > 0 && s[i - 1] == '\\' {
      RunPrefix(s, n, i - 1);
    }
  }

  lemma {:induction false} TailPush(s: string, c: char)
    ensures OddTail(s + [c]) <==> c == '\\' && !OddTail(s)
    ensures EvenRuns(s + [c]) <==> EvenRuns(s) && (c == '"' ==> !OddTail(s))
  {
    var all := s + [c];
    assert all[..|s|] == s;
    forall i | 0 <= i <= |s|
      ensures Run(s, i) == Run(all, i)
    {
      RunPrefix(all, |s|, i);
    }
  }

  lemma {:induction false} ReadAppend(r: Reader, a: string, b: string)
    ensures ReadAll(r, a + b) == ReadAll(ReadAll(r, a), b)
  {
    if b == "" {
      assert a + b == a;
    } else {
      assert (a + b)[..|a + b| - 1] == a + b[..|b| - 1];
      ReadAppend(r, a, b[..|b| - 1]);
    }
  }

  lemma {:induction false} ReadTwo(r: Reader, a: char, b: char)
    ensures ReadAll(r, [a, b]) == Read(Read(r, a), b)
  {
    assert [a, b][..1] == [a] && [a][..0] == "";
    assert ReadAll(r, [a]) == Read(ReadAll(r, ""), a);
  }

  lemma {:induction false} ReadOne(r: Reader, c: char)
    ensures ReadAll(r, [c]) == Read(r, c)
  {
    assert [c][..0] == "";
  }

  /** What reading one escaped character does. */
  lemma {:induction false} ReadEscaped(r: Reader, c: char)
    ensures ReadAll(r, EscapeChar(c)) == if c == '"' then Read(Read(r, '\\'), '"') else Read(r, c)
  {
    if c == '"' {
      ReadTwo(r, '\\', '"');
    } else {
      ReadOne(r, c);
    }
  }

  /** What reading escaped text back gives so far, measured against the text itself. */
  ghost predicate Tracks(s: string, r: Reader) {
    && r.held == OddTail(s)
    && |Finish(r)| >= |s|
    && (|Finish(r)| == |s| <==> EvenRuns(s))
    && (EvenRuns(s) ==> Finish(r) == s)
  }

  lemma {:induction false} TracksPush(init: string, c: char, r: Reader)
    requires Tracks(init, r)
    ensures Tracks(init + [c], if c == '"' then Read(Read(r, '\\'), '"') else Read(r, c))
  {
    TailPush(init, c);
    if EvenRuns(init) {
      assert Finish(r) + [c] == init + [c];
    }
  }

  lemma {:induction false} EscapedNext(init: string, c: char, start: Reader, escaped: string)
    requires Tracks(init, ReadAll(start, escaped))
    ensures Tracks(init + [c], ReadAll(start, escaped + EscapeChar(c)))
  {
    ReadAppend(start, escaped, EscapeChar(c));
    ReadEscaped(ReadAll(start, escaped), c);
    TracksPush(init, c, ReadAll(start, escaped));
  }

  lemma {:induction false} EscapedTracks(s: string)
    ensures Tracks(s, ReadAll(Reader("", false), EscapeQuotes(s)))
  {
    if s != "" {
      var init, c := s[..|s| - 1], s[|s| - 1];
      EscapedTracks(init);
      EscapedNext(init, c, Reader("", false), EscapeQuotes(init));
      assert s == init + [c];
    }
  }

  /** What is written comes back: bare values that are trimmed, quoted ones whose runs before quotes are even. */
  predicate ValueSurvives(s: string) {
    if NeedsQuote(s) then EvenRuns(s) else Trimmed(s)
  }

  lemma {:induction false} QuoteTrimmed(s: string)
    ensures Trim(Quote(s)) == Quote(s) && |Quote(s)| >= 2
    ensures Quote(s)[0] == '"' && Quote(s)[|Quote(s)| - 1] == '"' && Quote(s)[1..|Quote(s)| - 1] == EscapeQuotes(s)
  {
    TrimKeeps(Quote(s));
  }

  /** Main result: exactly which values survive being written and read. */
  lemma {:induction false} EscapingIsExact(s: string)
    ensures Unescape(Escape(s)) == Some(s) <==> ValueSurvives(s)
    ensures Unescape(Escape(s)).Some?
  {
    if NeedsQuote(s) {
      QuoteTrimmed(s);
      EscapedTracks(s);
    } else {
      TrimKeeps(s);
      TrimMembers(s);
    }
  }

  /** The value as it reads after being written. */
  function Reread(s: string): string {
    EscapingIsExact(s);
    Unescape(Escape(s)).value
  }

  lemma {:induction false} TrimMembers(s: string)
    ensures forall c :: Has(Trim(s), c) ==> Has(s, c)
  {
    TrimStartSuffix(s);
    TrimEndPrefix(TrimStart(s));
  }

  lemma {:induction false} TrimStartPush(s: string, c: char)
    requires IsSpace(c)
    ensures TrimStart(s + [c]) == if TrimStart(s) == "" then "" else TrimStart(s) + [c]
  {
    if s == "" {
      assert ("" + [c])[1..] == "";
    } else if IsSpace(s[0]) {
      TrimStartPush(s[1..], c);
      assert (s + [c])[1..] == s[1..] + [c];
    }
  }

  /** What a line break takes does not matter to a trimmed value. */
  lemma {:induction false} TrimStripCr(s: string)
    ensures Trim(StripCr(s)) == Trim(s)
  {
    if s != "" && s[|s| - 1] == '\r' {
      var init := s[..|s| - 1];
      assert s == init + ['\r'];
      TrimStartPush(init, '\r');
      if TrimStart(init) != "" {
        assert (TrimStart(init) + ['\r'])[..|TrimStart(init)|] == TrimStart(init);
      }
    }
  }

  lemma {:induction false} TrimStartSuffix(s: string)
    ensures |TrimStart(s)| <= |s| && TrimStart(s) == s[|s| - |TrimStart(s)|..]
  {
    if s != "" && IsSpace(s[0]) {
      TrimStartSuffix(s[1..]);
    }
  }

  lemma {:induction false} TrimEndPrefix(s: string)
    ensures |TrimEnd(s)| <= |s| && TrimEnd(s) == s[..|TrimEnd(s)|]
  {
    if s != "" && IsSpace(s[|s| - 1]) {
      TrimEndPrefix(s[..|s| - 1]);
    }
  }

  /** A bare value that reads fine and yet does not survive being written: `a\"b`. */
  lemma {:induction false} BareEscapedQuoteGainsBackslash()
    ensures Unescape("a\\\"b") == Some("a\\\"b")
    ensures Unescape(Escape("a\\\"b")) != Some("a\\\"b")
  {
    var s := "a\\\"b";
    TrimKeeps(s);
    assert s[2] == '"';
    assert Run(s, 2) == 1 + Run(s, 1) && Run(s, 1) == 0;
    EscapingIsExact(s);
  }
}
