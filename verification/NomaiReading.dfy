/** What any `.nomai` text parses to: its lines, its header keys, its block lines and bodies, and the first complaint. */
module NomaiReading {
  import opened Prelude
  import opened NomaiText
  import opened NomaiFields
  import opened NomaiTags
  import opened NomaiFormat
  import opened NomaiAttrs

  // ---- Lines ----

  /** The lines with what ends them: a newline, or a carriage return and a newline; the last may have nothing behind it. */
  ghost predicate Broken(s: string, lines: seq<string>, ends: seq<string>) {
    && |ends| == |lines| && s == Joined(lines, ends)
    && forall i :: 0 <= i < |lines| ==> LineEnds(lines[i], ends[i], i == |lines| - 1)
  }

  ghost predicate LineEnds(line: string, end: string, last: bool) {
    && !Has(line, '\n')
    && (end == "\r\n" || (end == "\n" && (line == "" || line[|line| - 1] != '\r')) || (end == "" && last && line != ""))
  }

  function Joined(lines: seq<string>, ends: seq<string>): string
    requires |lines| == |ends|
  {
    if lines == [] then "" else lines[0] + ends[0] + Joined(lines[1..], ends[1..])
  }

  lemma {:induction false} LineCut(s: string, k: nat) returns (end: string)
    requires k < |s| && s[k] == '\n' && forall j :: 0 <= j < k ==> s[j] != '\n'
    ensures s == StripCr(s[..k]) + end + s[k + 1..] && forall last :: LineEnds(StripCr(s[..k]), end, last)
  {
    var head := s[..k];
    assert s == head + "\n" + s[k + 1..];
    assert forall j :: 0 <= j < k ==> head[j] == s[j];
    if k > 0 && head[k - 1] == '\r' {
      end := "\r\n";
      assert head == head[..k - 1] + "\r";
      assert head[..k - 1] + "\r" + "\n" == head[..k - 1] + "\r\n";
    } else {
      end := "\n";
    }
  }

  lemma {:induction false} BrokenCons(s: string, line: string, end: string, rest: string, lines: seq<string>, ends: seq<string>)
    requires s == line + end + rest && Broken(rest, lines, ends) && forall last :: LineEnds(line, end, last)
    ensures Broken(s, [line] + lines, [end] + ends)
  {
    assert ([line] + lines)[1..] == lines && ([end] + ends)[1..] == ends;
  }

  /** Main result: the lines of any text are its stretches between line breaks. */
  lemma {:induction false} LinesSpell(s: string) returns (ends: seq<string>)
    ensures Broken(s, Lines(s), ends)
    decreases |s|
  {
    var k := FirstAt(s, '\n');
    if k < |s| {
      var end := LineCut(s, k);
      var more := LinesSpell(s[k + 1..]);
      ends := [end] + more;
      BrokenCons(s, StripCr(s[..k]), end, s[k + 1..], Lines(s[k + 1..]), more);
    } else if s == "" {
      ends := [];
    } else {
      ends := [""];
      assert [s][1..] == [] && ends[1..] == [];
      assert s + "" + "" == s;
    }
  }

  // ---- Numbers ----

  function Value(s: string): nat
    requires forall i :: 0 <= i < |s| ==> IsDigit(s[i])
  {
    if s == "" then 0
    else
      assert IsDigit(s[|s| - 1]);
      10 * Value(s[..|s| - 1]) + (s[|s| - 1] as int - '0' as int)
  }

  lemma {:induction false} DigitsExactly(s: string)
    ensures Digits(s).Some? <==> forall i :: 0 <= i < |s| ==> IsDigit(s[i])
    ensures Digits(s).Some? ==> Digits(s).value == Value(s)
  {
    if s != "" {
      DigitsExactly(s[..|s| - 1]);
      assert s == s[..|s| - 1] + [s[|s| - 1]];
    }
  }

  /** A version number is decimal digits, at least one, behind at most one plus sign, and fits 32 bits. */
  lemma {:induction false} NumberLanguage(digits: string, n: nat)
    requires !Starts(digits, '+')
    ensures ParseU32(digits) == Some(n) <==>
      digits != "" && (forall i :: 0 <= i < |digits| ==> IsDigit(digits[i])) && Value(digits) == n && n < 0x1_0000_0000
    ensures ParseU32("+" + digits) == ParseU32(digits)
  {
    DigitsExactly(digits);
    assert ("+" + digits)[1..] == digits;
  }

  // ---- Block attributes ----

  /** A token gives a key, up to its first equals sign, and the value that the text behind it reads as. */
  ghost predicate Gives(token: string, key: string, value: string) {
    exists raw :: token == key + ['='] + raw && !Has(key, '=') && Unescape(raw) == Some(value)
  }

  lemma {:induction false} GivesExactly(token: string, key: string, value: string)
    ensures var eq := FirstAt(token, '=');
      Gives(token, key, value) <==> eq < |token| && token[..eq] == key && Unescape(token[eq + 1..]) == Some(value)
    ensures FirstAt(token, '=') < |token| <==> Has(token, '=')
  {
    var eq := FirstAt(token, '=');
    if eq < |token| {
      assert token == token[..eq] + ['='] + token[eq + 1..];
      assert !Has(token[..eq], '=');
    }
    if Gives(token, key, value) {
      var raw :| token == key + ['='] + raw && !Has(key, '=') && Unescape(raw) == Some(value);
      FirstAtIs(key, '=', raw);
      assert token[..|key|] == key && token[|key| + 1..] == raw;
    }
  }

  ghost predicate Readable(token: string) {
    exists key, value :: Gives(token, key, value)
  }

  lemma {:induction false} ReadableExactly(token: string)
    ensures var eq := FirstAt(token, '=');
      Readable(token) <==> eq < |token| && Unescape(token[eq + 1..]).Some?
  {
    var eq := FirstAt(token, '=');
    if eq < |token| && Unescape(token[eq + 1..]).Some? {
      GivesExactly(token, token[..eq], Unescape(token[eq + 1..]).value);
    }
    if Readable(token) {
      var key, value :| Gives(token, key, value);
      GivesExactly(token, key, value);
    }
  }

  /** The last token that gives the key gives this value. */
  ghost predicate GivenLast(tokens: seq<string>, key: string, value: string) {
    exists i :: 0 <= i < |tokens| && Gives(tokens[i], key, value) && forall j, v :: i < j < |tokens| ==> !Gives(tokens[j], key, v)
  }

  lemma {:induction false} GivenPush(init: seq<string>, last: string, key: string, value: string)
    ensures GivenLast(init + [last], key, value) <==>
      Gives(last, key, value) || ((forall v :: !Gives(last, key, v)) && GivenLast(init, key, value))
  {
    var all := init + [last];
    if GivenLast(all, key, value) {
      var i :| 0 <= i < |all| && Gives(all[i], key, value) && forall j, v :: i < j < |all| ==> !Gives(all[j], key, v);
      if i < |init| {
        assert all[|init|] == last;
        assert forall j :: i < j < |init| ==> all[j] == init[j];
      }
    }
    if Gives(last, key, value) {
      assert all[|init|] == last;
    } else if (forall v :: !Gives(last, key, v)) && GivenLast(init, key, value) {
      var i :| 0 <= i < |init| && Gives(init[i], key, value) && forall j, v :: i < j < |init| ==> !Gives(init[j], key, v);
      assert all[i] == init[i];
      assert forall j :: i < j < |all| ==> all[j] == if j < |init| then init[j] else last;
    }
  }

  /** An attribute list in key order: each key any token gives, with the value the last one gives it. */
  ghost predicate Collects(tokens: seq<string>, m: seq<Entry>) {
    && SortedKeys(m) && (forall e :: e in m ==> e.value.Str?)
    && forall key, value :: Entry(key, Str(value)) in m <==> GivenLast(tokens, key, value)
  }

  lemma {:induction false} CollectsPush(init: seq<string>, last: string, m: seq<Entry>, key: string, value: string)
    requires Collects(init, m) && Gives(last, key, value)
    ensures Collects(init + [last], Insert(m, key, Str(value)))
  {
    InsertIsMapUpdate(m, key, Str(value));
    forall k, v
      ensures Entry(k, Str(v)) in Insert(m, key, Str(value)) <==> GivenLast(init + [last], k, v)
    {
      GivenPush(init, last, k, v);
      OneGiven(last, key, value, k, v);
      assert k != key ==> forall w :: !Gives(last, k, w) by {
        forall w
          ensures Gives(last, k, w) ==> k == key
        {
          OneGiven(last, key, value, k, w);
        }
      }
    }
  }

  lemma {:induction false} OneGiven(token: string, key: string, value: string, k: string, v: string)
    requires Gives(token, key, value)
    ensures Gives(token, k, v) <==> k == key && v == value
  {
    GivesExactly(token, key, value);
    GivesExactly(token, k, v);
  }

  ghost predicate FirstUnreadable(tokens: seq<string>, i: nat) {
    i < |tokens| && !Readable(tokens[i]) && forall j :: 0 <= j < i ==> Readable(tokens[j])
  }

  function TokenComplaint(token: string, line: nat): ParseError {
    if Has(token, '=') then InvalidValue(line, "block_attr") else Syntax(line)
  }

  ghost predicate AttrsAnswer(tokens: seq<string>, line: nat, r: Result<seq<Entry>, ParseError>) {
    match r
    case Ok(m) => (forall i :: 0 <= i < |tokens| ==> Readable(tokens[i])) && Collects(tokens, m)
    case Err(e) => exists i: nat :: FirstUnreadable(tokens, i) && e == TokenComplaint(tokens[i], line)
  }

  /** Main result: any tokens read as the map of the keys given, or as the complaint about the first that gives none. */
  lemma {:induction false} TokensAnswer(tokens: seq<string>, line: nat)
    ensures AttrsAnswer(tokens, line, AttrsFrom(tokens, line))
  {
    if tokens != [] {
      var init, last := tokens[..|tokens| - 1], tokens[|tokens| - 1];
      TokensAnswer(init, line);
      assert tokens == init + [last];
      match AttrsFrom(init, line)
      case Err(e) =>
        var i: nat :| FirstUnreadable(init, i) && e == TokenComplaint(init[i], line);
        assert FirstUnreadable(tokens, i);
      case Ok(m) =>
        LastTokenAnswers(init, last, m, line);
    }
  }

  lemma {:induction false} LastTokenAnswers(init: seq<string>, last: string, m: seq<Entry>, line: nat)
    requires Collects(init, m) && forall i :: 0 <= i < |init| ==> Readable(init[i])
    ensures AttrsAnswer(init + [last], line, AddToken(m, last, line))
  {
    var tokens, eq := init + [last], FirstAt(last, '=');
    ReadableExactly(last);
    if Readable(last) {
      var key, value := last[..eq], Unescape(last[eq + 1..]).value;
      GivesExactly(last, key, value);
      CollectsPush(init, last, m, key, value);
    } else {
      GivesExactly(last, "", "");
      assert FirstUnreadable(tokens, |init|);
      assert tokens[|init|] == last;
    }
  }

  // ---- Header lines ----

  predicate AllBlank(s: string) {
    forall i :: 0 <= i < |s| ==> s[i] == ' '
  }

  /** A mark, a key without whitespace, one whitespace character, any blanks, and the value. */
  ghost predicate Sets(line: string, key: string, value: string) {
    exists c, blanks ::
      && line == ['#'] + key + [c] + blanks + value
      && NoSpace(key) && IsSpace(c) && AllBlank(blanks) && !Starts(value, ' ')
  }

  function KeyOf(line: string): Option<KeyValue> {
    if Starts(line, '#') then SplitKeyValue(line[1..]) else None
  }

  lemma {:induction false} DropBlanksParts(s: string) returns (blanks: string)
    ensures s == blanks + DropBlanks(s) && AllBlank(blanks) && !Starts(DropBlanks(s), ' ')
  {
    if s != "" && s[0] == ' ' {
      var rest := DropBlanksParts(s[1..]);
      blanks := [' '] + rest;
      assert s == [' '] + s[1..];
    } else {
      blanks := "";
    }
  }

  lemma {:induction false} BlanksDrop(blanks: string, value: string)
    requires AllBlank(blanks) && !Starts(value, ' ')
    ensures DropBlanks(blanks + value) == value
  {
    if blanks == "" {
      assert blanks + value == value;
    } else {
      assert (blanks + value)[1..] == blanks[1..] + value;
      BlanksDrop(blanks[1..], value);
    }
  }

  lemma {:induction false} FiveParts(a: string, b: string, c: string, d: string, e: string)
    ensures a + b + c + d + e == a + (b + c + (d + e))
  {
  }

  lemma {:induction false} SpaceEndsKey(key: string, c: char, rest: string)
    requires NoSpace(key) && IsSpace(c)
    ensures SplitKeyValue(key + [c] + rest) == Some(KeyValue(key, DropBlanks(rest)))
  {
    var s := key + [c] + rest;
    assert s[|key|] == c && forall j :: 0 <= j < |key| ==> s[j] == key[j];
    assert FirstSpace(s) == |key|;
    assert s[..|key|] == key && s[|key| + 1..] == rest;
  }

  lemma {:induction false} SettingReads(line: string, key: string, value: string)
    requires Sets(line, key, value)
    ensures KeyOf(line) == Some(KeyValue(key, value))
  {
    var c, blanks :|
      && line == ['#'] + key + [c] + blanks + value
      && NoSpace(key) && IsSpace(c) && AllBlank(blanks) && !Starts(value, ' ');
    FiveParts(['#'], key, [c], blanks, value);
    assert line[1..] == key + [c] + (blanks + value);
    SpaceEndsKey(key, c, blanks + value);
    BlanksDrop(blanks, value);
  }

  lemma {:induction false} KeyedSets(line: string, key: string, value: string)
    requires KeyOf(line) == Some(KeyValue(key, value))
    ensures Sets(line, key, value)
  {
    var s := line[1..];
    var k := FirstSpace(s);
    var c := s[k];
    var blanks := DropBlanksParts(s[k + 1..]);
    assert key == s[..k] && NoSpace(key);
    assert line == ['#'] + s && s == key + [c] + s[k + 1..];
    FiveParts(['#'], key, [c], blanks, value);
    assert line == ['#'] + key + [c] + blanks + value;
  }

  lemma {:induction false} SetsExactly(line: string, key: string, value: string)
    ensures Sets(line, key, value) <==> KeyOf(line) == Some(KeyValue(key, value))
  {
    if Sets(line, key, value) {
      SettingReads(line, key, value);
    }
    if KeyOf(line) == Some(KeyValue(key, value)) {
      KeyedSets(line, key, value);
    }
  }

  ghost predicate SetsKey(line: string, key: string) {
    exists value :: Sets(line, key, value)
  }

  predicate Keyed(line: string, key: string) {
    KeyOf(line).Some? && KeyOf(line).value.key == key
  }

  lemma {:induction false} SetsKeyExactly(line: string, key: string)
    ensures SetsKey(line, key) <==> Keyed(line, key)
  {
    if Keyed(line, key) {
      SetsExactly(line, key, KeyOf(line).value.value);
    }
    if SetsKey(line, key) {
      var value :| Sets(line, key, value);
      SetsExactly(line, key, value);
    }
  }

  /** The value the last line with the key gives it. */
  function LastSet(lines: seq<string>, key: string): Option<string> {
    if lines == [] then None
    else if Keyed(lines[|lines| - 1], key) then Some(KeyOf(lines[|lines| - 1]).value.value)
    else LastSet(lines[..|lines| - 1], key)
  }

  ghost predicate LastAt(lines: seq<string>, key: string, i: nat) {
    i < |lines| && SetsKey(lines[i], key) && forall j :: i < j < |lines| ==> !SetsKey(lines[j], key)
  }

  lemma {:induction false} LastAtStays(init: seq<string>, last: string, key: string, i: nat)
    requires LastAt(init, key, i) && !SetsKey(last, key)
    ensures LastAt(init + [last], key, i)
  {
  }

  lemma {:induction false} LastSetIs(lines: seq<string>, key: string)
    ensures match LastSet(lines, key)
      case None => forall i :: 0 <= i < |lines| ==> !SetsKey(lines[i], key)
      case Some(value) => exists i: nat :: LastAt(lines, key, i) && Sets(lines[i], key, value)
  {
    if lines != [] {
      var init, last := lines[..|lines| - 1], lines[|lines| - 1];
      assert lines == init + [last];
      LastSetIs(init, key);
      SetsKeyExactly(last, key);
      if Keyed(last, key) {
        SetsExactly(last, key, KeyOf(last).value.value);
        assert LastAt(lines, key, |init|);
      } else if LastSet(init, key).Some? {
        var i: nat :| LastAt(init, key, i) && Sets(init[i], key, LastSet(init, key).value);
        LastAtStays(init, last, key, i);
      }
    }
  }

  function Then<T>(v: Option<string>, read: string -> Option<T>): Option<T> {
    if v.Some? then read(v.value) else None
  }

  const RESERVED: seq<string> := ["format_version", "id", "title", "created_at", "updated_at", "tags", "source"]

  /** The document's own keys: those not reserved. */
  ghost predicate Gathers(lines: seq<string>, m: seq<Entry>) {
    && SortedKeys(m) && (forall e :: e in m ==> e.value.Str?)
    && forall key, value :: GathersKey(lines, m, key, value)
  }

  ghost predicate GathersKey(lines: seq<string>, m: seq<Entry>, key: string, value: string) {
    Entry(key, Str(value)) in m <==> key !in RESERVED && LastSet(lines, key).Some? && Unescape(LastSet(lines, key).value) == Some(value)
  }

  /** Each field is what the last line with its key says. */
  ghost predicate Fields(c: Codecs, lines: seq<string>, h: Head) {
    && h.version == Then(LastSet(lines, "format_version"), ParseU32)
    && h.id == Then(LastSet(lines, "id"), c.id.decode)
    && h.title == Then(LastSet(lines, "title"), Unescape)
    && h.created == Then(LastSet(lines, "created_at"), c.time.decode)
    && h.updated == Then(LastSet(lines, "updated_at"), c.time.decode)
    && h.source == Then(LastSet(lines, "source"), Unescape)
    && h.tags == (match Then(LastSet(lines, "tags"), ParseTags) case Some(tags) => tags case None => [])
    && Gathers(lines, h.attrs)
  }

  ghost predicate Fits(c: Codecs, key: string, value: string) {
    if key == "format_version" then ParseU32(value).Some?
    else if key == "id" then c.id.decode(value).Some?
    else if key == "created_at" || key == "updated_at" then c.time.decode(value).Some?
    else if key == "tags" then ParseTags(value).Some?
    else Unescape(value).Some?
  }

  /** A blank line, or one that sets a key to a value that fits it. */
  ghost predicate HeaderOk(c: Codecs, line: string) {
    line == "" || exists key, value :: Sets(line, key, value) && Fits(c, key, value)
  }

  lemma {:induction false} HeaderOkExactly(c: Codecs, line: string)
    ensures HeaderOk(c, line) <==> line == "" || (KeyOf(line).Some? && Fits(c, KeyOf(line).value.key, KeyOf(line).value.value))
  {
    if KeyOf(line).Some? {
      SetsExactly(line, KeyOf(line).value.key, KeyOf(line).value.value);
    }
    if line != "" && HeaderOk(c, line) {
      var key, value :| Sets(line, key, value) && Fits(c, key, value);
      SetsExactly(line, key, value);
    }
  }

  /** A line without a key is a syntax error; a value that does not fit is named after its key, or as an attribute. */
  ghost predicate HeaderComplaint(line: string, no: nat, e: ParseError) {
    || (e == Syntax(no) && forall key :: !SetsKey(line, key))
    || exists key :: SetsKey(line, key) && e == InvalidValue(no, if key in RESERVED then key else "attrs")
  }

  lemma {:induction false} FieldNames(key: string)
    ensures FieldOf(key) == Custom <==> key !in RESERVED
    ensures FieldOf(key) == Version <==> key == "format_version"
    ensures FieldOf(key) == Id <==> key == "id"
    ensures FieldOf(key) == Title <==> key == "title"
    ensures FieldOf(key) == Created <==> key == "created_at"
    ensures FieldOf(key) == Updated <==> key == "updated_at"
    ensures FieldOf(key) == Tags <==> key == "tags"
    ensures FieldOf(key) == SourceField <==> key == "source"
  {
  }

  function Later(last: string, key: string, before: Option<string>): Option<string> {
    if Keyed(last, key) then Some(KeyOf(last).value.value) else before
  }

  lemma {:induction false} LastSetPush(init: seq<string>, last: string, key: string)
    ensures LastSet(init + [last], key) == Later(last, key, LastSet(init, key))
  {
    assert (init + [last])[..|init|] == init;
  }

  lemma {:induction false} GathersKeyPush(init: seq<string>, last: string, m: seq<Entry>, key: string, value: string, v: string, k: string, w: string)
    requires SortedKeys(m) && GathersKey(init, m, k, w)
    requires KeyOf(last) == Some(KeyValue(key, value)) && key !in RESERVED && Unescape(value) == Some(v)
    ensures GathersKey(init + [last], Insert(m, key, Str(v)), k, w)
  {
    InsertIsMapUpdate(m, key, Str(v));
    LastSetPush(init, last, k);
    assert Entry(k, Str(w)) in Insert(m, key, Str(v)) <==> if k == key then w == v else Entry(k, Str(w)) in m;
  }

  lemma {:induction false} GathersPush(init: seq<string>, last: string, m: seq<Entry>, key: string, value: string, v: string)
    requires Gathers(init, m) && KeyOf(last) == Some(KeyValue(key, value)) && key !in RESERVED && Unescape(value) == Some(v)
    ensures Gathers(init + [last], Insert(m, key, Str(v)))
  {
    forall k, w
      ensures GathersKey(init + [last], Insert(m, key, Str(v)), k, w)
    {
      assert GathersKey(init, m, k, w);
      GathersKeyPush(init, last, m, key, value, v, k, w);
    }
    InsertIsMapUpdate(m, key, Str(v));
  }

  lemma {:induction false} GathersStays(init: seq<string>, last: string, m: seq<Entry>)
    requires Gathers(init, m) && (KeyOf(last).Some? ==> KeyOf(last).value.key in RESERVED)
    ensures Gathers(init + [last], m)
  {
    forall k, w
      ensures GathersKey(init + [last], m, k, w)
    {
      assert GathersKey(init, m, k, w);
      LastSetPush(init, last, k);
    }
  }

  ghost predicate Later7(init: seq<string>, last: string) {
    && LastSet(init + [last], "format_version") == Later(last, "format_version", LastSet(init, "format_version"))
    && LastSet(init + [last], "id") == Later(last, "id", LastSet(init, "id"))
    && LastSet(init + [last], "title") == Later(last, "title", LastSet(init, "title"))
    && LastSet(init + [last], "created_at") == Later(last, "created_at", LastSet(init, "created_at"))
    && LastSet(init + [last], "updated_at") == Later(last, "updated_at", LastSet(init, "updated_at"))
    && LastSet(init + [last], "tags") == Later(last, "tags", LastSet(init, "tags"))
    && LastSet(init + [last], "source") == Later(last, "source", LastSet(init, "source"))
  }

  lemma {:induction false} ReservedPush(init: seq<string>, last: string)
    ensures Later7(init, last)
  {
    LastSetPush(init, last, "format_version");
    LastSetPush(init, last, "id");
    LastSetPush(init, last, "title");
    LastSetPush(init, last, "created_at");
    LastSetPush(init, last, "updated_at");
    LastSetPush(init, last, "tags");
    LastSetPush(init, last, "source");
  }

  /** One more line that fits. */
  lemma {:induction false} FieldsPush(c: Codecs, init: seq<string>, last: string, h: Head, key: string, value: string, no: nat)
    requires Fields(c, init, h) && KeyOf(last) == Some(KeyValue(key, value)) && Assign(c, h, key, value, no).Ok?
    ensures Fields(c, init + [last], Assign(c, h, key, value, no).value)
  {
    FieldNames(key);
    ReservedPush(init, last);
    if key in RESERVED {
      GathersStays(init, last, h.attrs);
      ReservedFieldsPush(c, init, last, h, key, value, no);
    } else {
      GathersPush(init, last, h.attrs, key, value, Unescape(value).value);
    }
  }

  lemma {:induction false} ReservedFieldsPush(c: Codecs, init: seq<string>, last: string, h: Head, key: string, value: string, no: nat)
    requires Fields(c, init, h) && KeyOf(last) == Some(KeyValue(key, value)) && Assign(c, h, key, value, no).Ok?
    requires Later7(init, last) && FieldOf(key) != Custom && Gathers(init + [last], h.attrs)
    ensures Fields(c, init + [last], Assign(c, h, key, value, no).value)
  {
    FieldNames(key);
    match FieldOf(key)
    case Version =>
    case Id =>
    case Title =>
    case Created =>
    case Updated =>
    case Tags =>
    case SourceField =>
  }

  lemma {:induction false} FieldsBlank(c: Codecs, init: seq<string>, h: Head)
    requires Fields(c, init, h)
    ensures Fields(c, init + [""], h)
  {
    ReservedPush(init, "");
    GathersStays(init, "", h.attrs);
  }

  lemma {:induction false} AssignFits(c: Codecs, h: Head, key: string, value: string, no: nat)
    ensures var r := Assign(c, h, key, value, no);
      && (r.Ok? <==> Fits(c, key, value))
      && (r.Err? ==> r.error == InvalidValue(no, if key in RESERVED then key else "attrs"))
  {
    FieldNames(key);
  }

  // ---- The header ----

  predicate NoBlockLine(lines: seq<string>) {
    forall i :: 0 <= i < |lines| ==> !Starts(lines[i], '@')
  }

  lemma {:induction false} HeaderAppend<S>(step: HeaderReader<S>, h: S, a: seq<string>, b: seq<string>, line: nat)
    requires NoBlockLine(a)
    ensures Header(step, h, a + b, line) ==
      match Header(step, h, a, line)
      case Err(e) => Err(e)
      case Ok(end) => Header(step, end.head, b, line + |a|)
    ensures Header(step, h, a, line).Ok? ==> Header(step, h, a, line).value.rest == [] && Header(step, h, a, line).value.line == line + |a|
    decreases |a|
  {
    if a == [] {
      assert a + b == b;
    } else {
      assert (a + b)[1..] == a[1..] + b && (a + b)[0] == a[0];
      if a[0] == "" {
        HeaderAppend(step, h, a[1..], b, line + 1);
      } else if Starts(a[0], '#') && step(h, a[0][1..], line).Ok? {
        HeaderAppend(step, step(h, a[0][1..], line).value, a[1..], b, line + 1);
      }
    }
  }

  ghost predicate FirstBad(c: Codecs, lines: seq<string>, i: nat) {
    i < |lines| && !HeaderOk(c, lines[i]) && forall j :: 0 <= j < i ==> HeaderOk(c, lines[j])
  }

  ghost predicate HeaderAnswer(c: Codecs, lines: seq<string>, r: Result<HeaderEnd<Head>, ParseError>) {
    match r
    case Ok(end) => (forall i :: 0 <= i < |lines| ==> HeaderOk(c, lines[i])) && Fields(c, lines, end.head)
    case Err(e) => exists i: nat :: FirstBad(c, lines, i) && HeaderComplaint(lines[i], i + 1, e)
  }

  lemma {:induction false} HeaderOne<S>(step: HeaderReader<S>, h: S, x: string, no: nat)
    requires !Starts(x, '@')
    ensures Header(step, h, [x], no) ==
      if x == "" then Ok(HeaderEnd(h, [], no + 1))
      else if !Starts(x, '#') then Err(Syntax(no))
      else
        match step(h, x[1..], no)
        case Err(e) => Err(e)
        case Ok(h') => Ok(HeaderEnd(h', [], no + 1))
  {
    assert [x][0] == x && [x][1..] == [];
  }

  function LineAnswer(c: Codecs, h: Head, line: string, no: nat): Result<HeaderEnd<Head>, ParseError> {
    Header(ReadsHeader(c), h, [line], no)
  }

  /** What one more line does to the header read before it. */
  lemma {:induction false} LineAnswers(c: Codecs, init: seq<string>, h: Head, line: string, no: nat)
    requires Fields(c, init, h) && !Starts(line, '@')
    ensures match LineAnswer(c, h, line, no)
      case Ok(end) => HeaderOk(c, line) && Fields(c, init + [line], end.head)
      case Err(e) => !HeaderOk(c, line) && HeaderComplaint(line, no, e)
  {
    HeaderOkExactly(c, line);
    HeaderOne(ReadsHeader(c), h, line, no);
    if line == "" {
      FieldsBlank(c, init, h);
    } else if KeyOf(line).None? {
      forall key
        ensures !SetsKey(line, key)
      {
        SetsKeyExactly(line, key);
      }
    } else {
      var key, value := KeyOf(line).value.key, KeyOf(line).value.value;
      AssignFits(c, h, key, value, no);
      SetsKeyExactly(line, key);
      if Assign(c, h, key, value, no).Ok? {
        FieldsPush(c, init, line, h, key, value, no);
      }
    }
  }

  lemma {:induction false} NothingRead(c: Codecs)
    ensures Fields(c, [], NewHead())
  {
    assert Gathers([], []);
  }

  /** The header of some lines, read from the first. */
  function HeaderOf(c: Codecs, lines: seq<string>): Result<HeaderEnd<Head>, ParseError> {
    Header(ReadsHeader(c), NewHead(), lines, 1)
  }

  lemma {:induction false} HeaderSnoc(c: Codecs, init: seq<string>, last: string)
    requires NoBlockLine(init)
    ensures HeaderOf(c, init + [last]) ==
      match HeaderOf(c, init)
      case Err(e) => Err(e)
      case Ok(end) => LineAnswer(c, end.head, last, 1 + |init|)
  {
    HeaderAppend(ReadsHeader(c), NewHead(), init, [last], 1);
  }

  lemma {:induction false} HeaderWhole(c: Codecs, header: seq<string>, rest: seq<string>)
    requires NoBlockLine(header) && (rest == [] || Starts(rest[0], '@'))
    ensures HeaderOf(c, header + rest) ==
      match HeaderOf(c, header)
      case Err(e) => Err(e)
      case Ok(end) => Ok(HeaderEnd(end.head, rest, |header| + 1))
  {
    HeaderAppend(ReadsHeader(c), NewHead(), header, rest, 1);
    if HeaderOf(c, header).Ok? {
      HeaderStopsAt(ReadsHeader(c), HeaderOf(c, header).value.head, rest, |header| + 1);
    }
  }

  /** Main result: a header reads as the last settings of its keys, or as the complaint about its first line that is not one. */
  lemma {:induction false} HeaderAnswers(c: Codecs, lines: seq<string>)
    requires NoBlockLine(lines)
    ensures HeaderAnswer(c, lines, HeaderOf(c, lines))
  {
    if lines == [] {
      NothingRead(c);
    } else {
      var init, last := lines[..|lines| - 1], lines[|lines| - 1];
      assert lines == init + [last];
      HeaderAnswers(c, init);
      HeaderSnoc(c, init, last);
      LastLineAnswers(c, init, last, HeaderOf(c, init), HeaderOf(c, lines));
    }
  }

  lemma {:induction false} LastLineAnswers(c: Codecs, init: seq<string>, last: string, before: Result<HeaderEnd<Head>, ParseError>,
                                           r: Result<HeaderEnd<Head>, ParseError>)
    requires HeaderAnswer(c, init, before) && !Starts(last, '@')
    requires r == match before
      case Err(e) => Err(e)
      case Ok(end) => LineAnswer(c, end.head, last, 1 + |init|)
    ensures HeaderAnswer(c, init + [last], r)
  {
    match before
    case Err(e) =>
      var i: nat :| FirstBad(c, init, i) && HeaderComplaint(init[i], i + 1, e);
      BadStays(c, init, last, i);
    case Ok(end) =>
      LineAnswers(c, init, end.head, last, 1 + |init|);
      if r.Err? {
        BadComes(c, init, last);
      } else {
        AllOkPush(c, init, last);
      }
  }

  lemma {:induction false} BadStays(c: Codecs, init: seq<string>, last: string, i: nat)
    requires FirstBad(c, init, i)
    ensures FirstBad(c, init + [last], i) && (init + [last])[i] == init[i]
  {
    assert forall j :: 0 <= j < |init| ==> (init + [last])[j] == init[j];
  }

  lemma {:induction false} BadComes(c: Codecs, init: seq<string>, last: string)
    requires !HeaderOk(c, last) && forall i :: 0 <= i < |init| ==> HeaderOk(c, init[i])
    ensures FirstBad(c, init + [last], |init|) && (init + [last])[|init|] == last
  {
    assert forall j :: 0 <= j < |init| ==> (init + [last])[j] == init[j];
  }

  lemma {:induction false} AllOkPush(c: Codecs, init: seq<string>, last: string)
    requires HeaderOk(c, last) && forall i :: 0 <= i < |init| ==> HeaderOk(c, init[i])
    ensures forall i :: 0 <= i < |init + [last]| ==> HeaderOk(c, (init + [last])[i])
  {
  }

  // ---- Block lines ----

  lemma {:induction false} TypesHaveOneName(s: string, kind: BlockType)
    ensures TypeOf(s) == Some(kind) <==> s == TypeName(kind)
  {
  }

  lemma {:induction false} SpaceEndsName(name: string, tail: string)
    requires NoSpace(name) && (tail == "" || IsSpace(tail[0]))
    ensures SplitBlockHeader(name + tail) == KeyValue(name, TrimStart(tail))
  {
    var s := name + tail;
    assert forall j :: 0 <= j < |name| ==> s[j] == name[j];
    if tail == "" {
      assert s == name;
    } else {
      assert s[|name|] == tail[0];
    }
    assert FirstSpace(s) == |name|;
    assert s[..|name|] == name && s[|name|..] == tail;
  }

  lemma {:induction false} StartTrimmed(s: string)
    ensures TrimStart(TrimStart(s)) == TrimStart(s)
  {
    if s != "" && IsSpace(s[0]) {
      StartTrimmed(s[1..]);
    }
  }

  /** What the attribute text of a block line reads as: nothing but whitespace is no attributes, anything else its tokens. */
  ghost predicate AttrTextAnswer(text: string, line: nat, r: Result<seq<Entry>, ParseError>) {
    if AllSpace(text) then r == Ok([]) else AttrsAnswer(Tokens(Trim(text)), line, r)
  }

  ghost predicate Gave(m: seq<Entry>, key: string) {
    exists e :: e in m && e.key == key
  }

  lemma {:induction false} HasKeyIsGave(m: seq<Entry>, key: string)
    ensures HasKey(m, key) <==> Gave(m, key)
  {
    if Gave(m, key) {
      var e :| e in m && e.key == key;
      var i :| 0 <= i < |m| && m[i] == e;
    }
    if HasKey(m, key) {
      var i :| 0 <= i < |m| && m[i].key == key;
      assert m[i] in m;
    }
  }

  /** The line of a kind, its attributes read: a connection must have a target and then a relation. */
  ghost predicate KindAnswer(kind: BlockType, attrs: Result<seq<Entry>, ParseError>, line: nat, r: Result<BlockHead, ParseError>) {
    match attrs
    case Err(e) => r == Err(e)
    case Ok(m) =>
      if kind == Connection && !Gave(m, "target") then r == Err(MissingConnectionAttr(line, "target"))
      else if kind == Connection && !Gave(m, "relation") then r == Err(MissingConnectionAttr(line, "relation"))
      else r == Ok(BlockHead(kind, m))
  }

  lemma {:induction false} AttrTextAnswers(tail: string, line: nat)
    ensures AttrTextAnswer(tail, line, ParseAttrs(TrimStart(tail), line))
  {
    StartTrimmed(tail);
    BlankIsAllSpace(tail);
    TokensAnswer(Tokens(Trim(tail)), line);
  }

  lemma {:induction false} KnownKindAnswers(kind: BlockType, tail: string, line: nat)
    requires tail == "" || IsSpace(tail[0])
    ensures KindAnswer(kind, ParseAttrs(TrimStart(tail), line), line, ParseBlockHead(TypeName(kind) + tail, line))
  {
    var attrs := ParseAttrs(TrimStart(tail), line);
    NamesHaveNoSpace(kind);
    SpaceEndsName(TypeName(kind), tail);
    TypesHaveOneName(TypeName(kind), kind);
    if attrs.Ok? {
      HasKeyIsGave(attrs.value, "target");
      HasKeyIsGave(attrs.value, "relation");
    }
  }

  lemma {:induction false} NamesHaveNoSpace(kind: BlockType)
    ensures NoSpace(TypeName(kind))
  {
  }

  lemma {:induction false} UnknownKindAnswers(name: string, tail: string, line: nat)
    requires NoSpace(name) && (tail == "" || IsSpace(tail[0])) && TypeOf(name).None?
    ensures ParseBlockHead(name + tail, line) == Err(UnknownBlockType(line, name))
  {
    SpaceEndsName(name, tail);
  }

  /** Main result: a block line is a kind's name, up to whitespace, and its attributes; the first thing wrong is reported. */
  lemma {:induction false} BlockLineAnswers(name: string, tail: string, line: nat) returns (attrs: Result<seq<Entry>, ParseError>)
    requires NoSpace(name) && (tail == "" || IsSpace(tail[0]))
    ensures AttrTextAnswer(tail, line, attrs)
    ensures forall kind :: name == TypeName(kind) ==> KindAnswer(kind, attrs, line, ParseBlockHead(name + tail, line))
    ensures (forall kind :: name != TypeName(kind)) ==> ParseBlockHead(name + tail, line) == Err(UnknownBlockType(line, name))
  {
    attrs := ParseAttrs(TrimStart(tail), line);
    AttrTextAnswers(tail, line);
    forall kind | name == TypeName(kind)
      ensures KindAnswer(kind, attrs, line, ParseBlockHead(name + tail, line))
    {
      KnownKindAnswers(kind, tail, line);
    }
    match TypeOf(name)
    case None => UnknownKindAnswers(name, tail, line);
    case Some(kind) => TypesHaveOneName(name, kind);
  }

  // ---- Bodies ----

  /** A line of a body as it is read: one that begins with a backslash and an at sign loses the backslash. */
  ghost predicate Unmarked(raw: string, line: string) {
    if "\\@" <= raw then raw == "\\" + line else line == raw
  }

  lemma {:induction false} StripBlankParts(lines: seq<string>) returns (k: nat)
    ensures k <= |lines| && StripBlank(lines) == lines[..k]
    ensures (k > 0 ==> lines[k - 1] != "") && forall i :: k <= i < |lines| ==> lines[i] == ""
  {
    k := |lines|;
    if lines != [] && lines[|lines| - 1] == "" {
      k := StripBlankParts(lines[..|lines| - 1]);
      assert lines[..|lines| - 1][..k] == lines[..k];
    } else {
      assert lines[..|lines|] == lines;
    }
  }

  lemma {:induction false} BodyLineUnmarks(raw: string)
    ensures Unmarked(raw, BodyLine(raw)) && (BodyLine(raw) == "" <==> raw == "")
  {
    if |raw| >= 2 && raw[0] == '\\' && raw[1] == '@' {
      assert raw == "\\" + raw[1..];
    }
  }

  /** Main result: a body is its lines up to the last one that is not blank, each unmarked and ended by a newline. */
  lemma {:induction false} BodyAnswers(raws: seq<string>) returns (lines: seq<string>)
    ensures Body(raws) == Unlines(lines) && |lines| <= |raws|
    ensures forall i :: 0 <= i < |lines| ==> Unmarked(raws[i], lines[i])
    ensures lines != [] ==> raws[|lines| - 1] != ""
    ensures forall i :: |lines| <= i < |raws| ==> raws[i] == ""
  {
    var k := StripBlankParts(BodyLines(raws));
    lines := BodyLines(raws)[..k];
    forall i | 0 <= i < |raws|
      ensures Unmarked(raws[i], BodyLines(raws)[i]) && (BodyLines(raws)[i] == "" <==> raws[i] == "")
    {
      BodyLineUnmarks(raws[i]);
    }
  }

  // ---- Whole documents ----

  const REQUIRED: seq<string> := ["id", "title", "created_at", "updated_at"]

  ghost predicate FirstMissing(lines: seq<string>, i: nat) {
    i < |REQUIRED| && LastSet(lines, REQUIRED[i]).None? && forall j :: 0 <= j < i ==> LastSet(lines, REQUIRED[j]).Some?
  }

  /** The document's fields are the header's, its blocks those of the block phase. */
  ghost predicate Assembles(c: Codecs, lines: seq<string>, raws: seq<RawBlock<BlockHead>>, d: Doc) {
    && d.version == 1
    && Some(d.id) == Then(LastSet(lines, "id"), c.id.decode)
    && Some(d.title) == Then(LastSet(lines, "title"), Unescape)
    && Some(d.created) == Then(LastSet(lines, "created_at"), c.time.decode)
    && Some(d.updated) == Then(LastSet(lines, "updated_at"), c.time.decode)
    && d.source == Then(LastSet(lines, "source"), Unescape)
    && d.tags == (match Then(LastSet(lines, "tags"), ParseTags) case Some(tags) => tags case None => [])
    && Gathers(lines, d.attrs)
    && |d.blocks| == |raws|
    && forall i :: 0 <= i < |raws| ==> d.blocks[i] == Block(raws[i].head.kind, Body(raws[i].raws), raws[i].head.attrs)
  }

  /** A header without a bad line: the version is checked first, then the keys there must be, then the blocks. */
  ghost predicate SoundHeaderAnswer(c: Codecs, lines: seq<string>, blocks: Result<seq<RawBlock<BlockHead>>, ParseError>, r: Result<Doc, ParseError>) {
    match Then(LastSet(lines, "format_version"), ParseU32)
    case None => r == Err(MissingHeader("format_version"))
    case Some(version) =>
      if version != 1 then r == Err(UnsupportedVersion(version))
      else if exists i: nat :: FirstMissing(lines, i) then exists i: nat :: FirstMissing(lines, i) && r == Err(MissingHeader(REQUIRED[i]))
      else
        match blocks
        case Err(e) => r == Err(e)
        case Ok(raws) => r.Ok? && Assembles(c, lines, raws, r.value)
  }

  ghost predicate DocumentAnswer(c: Codecs, header: seq<string>, rest: seq<string>, r: Result<Doc, ParseError>) {
    if forall i :: 0 <= i < |header| ==> HeaderOk(c, header[i])
    then SoundHeaderAnswer(c, header, Blocks(ReadsBlock(), rest, |header| + 1, []), r)
    else r.Err? && exists i: nat :: FirstBad(c, header, i) && HeaderComplaint(header[i], i + 1, r.error)
  }

  lemma {:induction false} FinishAllAre(raws: seq<RawBlock<BlockHead>>)
    ensures |FinishAll(raws)| == |raws|
    ensures forall i :: 0 <= i < |raws| ==> FinishAll(raws)[i] == Block(raws[i].head.kind, Body(raws[i].raws), raws[i].head.attrs)
  {
    if raws != [] {
      FinishAllAre(raws[..|raws| - 1]);
    }
  }

  lemma {:induction false} HeaderStopsAt<S>(step: HeaderReader<S>, h: S, rest: seq<string>, line: nat)
    requires rest == [] || Starts(rest[0], '@')
    ensures Header(step, h, rest, line) == Ok(HeaderEnd(h, rest, line))
  {
  }

  /** Every key that was set to a value that fits is there. */
  lemma {:induction false} LastSetFits(c: Codecs, lines: seq<string>, key: string)
    requires forall i :: 0 <= i < |lines| ==> HeaderOk(c, lines[i])
    ensures LastSet(lines, key).Some? ==> Fits(c, key, LastSet(lines, key).value)
  {
    if lines != [] {
      HeaderOkExactly(c, lines[|lines| - 1]);
      LastSetFits(c, lines[..|lines| - 1], key);
    }
  }

  lemma {:induction false} RequiredFit(c: Codecs, lines: seq<string>, h: Head)
    requires Fields(c, lines, h) && forall i :: 0 <= i < |lines| ==> HeaderOk(c, lines[i])
    ensures (h.id.Some? <==> LastSet(lines, "id").Some?) && (h.title.Some? <==> LastSet(lines, "title").Some?)
    ensures (h.created.Some? <==> LastSet(lines, "created_at").Some?) && (h.updated.Some? <==> LastSet(lines, "updated_at").Some?)
  {
    LastSetFits(c, lines, "id");
    LastSetFits(c, lines, "title");
    LastSetFits(c, lines, "created_at");
    LastSetFits(c, lines, "updated_at");
  }

  lemma {:induction false} MissingExactly(c: Codecs, lines: seq<string>, h: Head)
    requires Fields(c, lines, h) && h.version == Some(1) && forall i :: 0 <= i < |lines| ==> HeaderOk(c, lines[i])
    ensures match Lacks(h)
      case None => forall i: nat :: !FirstMissing(lines, i)
      case Some(e) => exists i: nat :: FirstMissing(lines, i) && e == MissingHeader(REQUIRED[i])
  {
    RequiredFit(c, lines, h);
    assert REQUIRED[0] == "id" && REQUIRED[1] == "title" && REQUIRED[2] == "created_at" && REQUIRED[3] == "updated_at";
    if Lacks(h).Some? {
      var i: nat := if h.id.None? then 0 else if h.title.None? then 1 else if h.created.None? then 2 else 3;
      assert FirstMissing(lines, i);
    }
  }

  lemma {:induction false} SoundHeaderAnswers(c: Codecs, lines: seq<string>, h: Head, blocks: Result<seq<RawBlock<BlockHead>>, ParseError>)
    requires Fields(c, lines, h) && forall i :: 0 <= i < |lines| ==> HeaderOk(c, lines[i])
    ensures SoundHeaderAnswer(c, lines, blocks, Concluded(h, blocks))
  {
    if h.version == Some(1) {
      MissingExactly(c, lines, h);
      if blocks.Ok? {
        FinishAllAre(blocks.value);
      }
    }
  }

  function Concluded(h: Head, blocks: Result<seq<RawBlock<BlockHead>>, ParseError>): Result<Doc, ParseError> {
    if Lacks(h).Some? then Err(Lacks(h).value)
    else
      match blocks
      case Err(e) => Err(e)
      case Ok(raws) => Ok(Assemble(h, FinishAll(raws)))
  }

  lemma {:induction false} LinesParse(c: Codecs, header: seq<string>, rest: seq<string>)
    requires NoBlockLine(header) && (rest == [] || Starts(rest[0], '@'))
    ensures ParseLines(c, header + rest) ==
      match HeaderOf(c, header)
      case Err(e) => Err(e)
      case Ok(end) => Concluded(end.head, Blocks(ReadsBlock(), rest, |header| + 1, []))
  {
    HeaderWhole(c, header, rest);
  }

  /**
   * Main result: what any input parses to, its header ending before the first line that starts with an at sign:
   * the complaint about the first bad header line; or what is missing; or the block phase's error; or the document.
   */
  lemma {:induction false} ParseAnswers(c: Codecs, input: string, header: seq<string>, rest: seq<string>)
    requires Lines(input) == header + rest && NoBlockLine(header) && (rest == [] || Starts(rest[0], '@'))
    ensures if input == "" then Parse(c, input) == Err(EmptyInput) else DocumentAnswer(c, header, rest, Parse(c, input))
  {
    if input != "" {
      LinesParse(c, header, rest);
      HeaderAnswers(c, header);
      match HeaderOf(c, header)
      case Err(e) =>
        var i: nat :| FirstBad(c, header, i) && HeaderComplaint(header[i], i + 1, e);
        assert !HeaderOk(c, header[i]);
      case Ok(end) =>
        SoundHeaderAnswers(c, header, end.head, Blocks(ReadsBlock(), rest, |header| + 1, []));
    }
  }
}
