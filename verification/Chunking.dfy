/** Splitting block text into chunks: paragraphs first, then sentences, then hard cuts. Sizes are bytes. */
module Chunking {
  import opened Utf8

  // ---- Pieces of text ----

  /** Where the first occurrence of the pair `a b` starts; `|s|` when there is none. */
  function FirstPair(s: string, a: char, b: char): (k: nat)
    ensures k <= |s|
    ensures k < |s| ==> k + 1 < |s| && s[k] == a && s[k + 1] == b
    ensures forall j :: 0 <= j < k && j + 1 < |s| ==> !(s[j] == a && s[j + 1] == b)
  {
    if |s| < 2 then |s|
    else if s[0] == a && s[1] == b then 0
    else
      var k := FirstPair(s[1..], a, b);
      assert forall j :: 1 <= j < |s| ==> s[j] == s[1..][j - 1];
      k + 1
  }

  /** `text.split("\n\n")`. */
  function Paragraphs(s: string): seq<string>
    decreases |s|
  {
    var k := FirstPair(s, '\n', '\n');
    if k == |s| then [s] else [s[..k]] + Paragraphs(s[k + 2..])
  }

  /** Sentences end with `". "`; the period stays, the space goes. */
  function Sentences(s: string): seq<string>
    decreases |s|
  {
    var k := FirstPair(s, '.', ' ');
    if k < |s| then [s[..k + 1]] + Sentences(s[k + 2..]) else if s == "" then [] else [s]
  }

  // ---- Packing ----

  /** Finished chunks and the one being filled. */
  datatype Packer = Packer(chunks: seq<string>, current: string)

  function Flush(p: Packer): Packer {
    if p.current == "" then p else Packer(p.chunks + [p.current], "")
  }

  function Joined(current: string, sep: string, piece: string): string {
    if current == "" then piece else current + sep + piece
  }

  predicate Fits(p: Packer, sep: string, piece: string, target: nat) {
    Bytes(p.current) + ((if p.current == "" then 0 else Bytes(sep)) + Bytes(piece)) <= target
  }

  /** One character more of a hard cut. */
  function Cut(p: Packer, c: char, target: nat): Packer {
    var p' := if Bytes(p.current) + CharBytes(c) > target then Flush(p) else p;
    p'.(current := p'.current + [c])
  }

  function Cuts(p: Packer, s: string, target: nat): Packer {
    if s == "" then p else Cut(Cuts(p, s[..|s| - 1], target), s[|s| - 1], target)
  }

  function HardSplit(s: string, target: nat): seq<string> {
    Flush(Cuts(Packer([], ""), s, target)).chunks
  }

  function AddSentence(p: Packer, s: string, target: nat): Packer {
    if Fits(p, " ", s, target) then p.(current := Joined(p.current, " ", s))
    else if Bytes(s) <= target then Flush(p).(current := s)
    else Packer(Flush(p).chunks + HardSplit(s, target), "")
  }

  function AddSentences(p: Packer, ss: seq<string>, target: nat): Packer {
    if ss == [] then p else AddSentence(AddSentences(p, ss[..|ss| - 1], target), ss[|ss| - 1], target)
  }

  function AddParagraph(p: Packer, para: string, target: nat): Packer {
    if para == "" then p
    else if Bytes(para) > target then AddSentences(Flush(p), Sentences(para), target)
    else if Fits(p, "\n\n", para, target) then p.(current := Joined(p.current, "\n\n", para))
    else Flush(p).(current := para)
  }

  function AddParagraphs(p: Packer, paras: seq<string>, target: nat): Packer {
    if paras == [] then p else AddParagraph(AddParagraphs(p, paras[..|paras| - 1], target), paras[|paras| - 1], target)
  }

  function ChunkText(text: string, target: nat): seq<string> {
    if text == "" then []
    else if Bytes(text) <= target then [text]
    else Flush(AddParagraphs(Packer([], ""), Paragraphs(text), target)).chunks
  }

  // ---- Bound ----

  predicate Bounded(chunk: string, target: nat) {
    chunk != "" && (Bytes(chunk) <= target || |chunk| == 1)
  }

  predicate AllBounded(chunks: seq<string>, target: nat) {
    forall i :: 0 <= i < |chunks| ==> Bounded(chunks[i], target)
  }

  /** Finished chunks are within the bound; the open one fits. */
  predicate Packed(p: Packer, target: nat) {
    AllBounded(p.chunks, target) && Bytes(p.current) <= target
  }

  /** Finished and open chunk are all within the bound. */
  predicate CutUp(p: Packer, target: nat) {
    AllBounded(p.chunks, target) && (p.current == "" || Bounded(p.current, target))
  }

  lemma {:induction false} CutBounded(p: Packer, c: char, target: nat)
    requires CutUp(p, target)
    ensures CutUp(Cut(p, c, target), target)
  {
    BytesConcat(p.current, [c]);
    BytesOne(c);
  }

  lemma {:induction false} CutsBounded(s: string, target: nat)
    ensures CutUp(Cuts(Packer([], ""), s, target), target)
  {
    if s != "" {
      CutsBounded(s[..|s| - 1], target);
      CutBounded(Cuts(Packer([], ""), s[..|s| - 1], target), s[|s| - 1], target);
    }
  }

  lemma {:induction false} BoundedAppend(a: seq<string>, b: seq<string>, target: nat)
    requires AllBounded(a, target) && AllBounded(b, target)
    ensures AllBounded(a + b, target)
  {
  }

  lemma {:induction false} HardSplitBounded(s: string, target: nat)
    ensures AllBounded(HardSplit(s, target), target)
  {
    var p := Cuts(Packer([], ""), s, target);
    CutsBounded(s, target);
    BoundedAppend(p.chunks, if p.current == "" then [] else [p.current], target);
  }

  lemma {:induction false} FlushPacked(p: Packer, target: nat)
    requires Packed(p, target)
    ensures Packed(Flush(p), target)
  {
    if p.current != "" {
      BoundedAppend(p.chunks, [p.current], target);
    }
  }

  lemma {:induction false} JoinedBytes(current: string, sep: string, piece: string)
    ensures Bytes(Joined(current, sep, piece)) == Bytes(current) + ((if current == "" then 0 else Bytes(sep)) + Bytes(piece))
  {
    BytesConcat(current, sep);
    BytesConcat(current + sep, piece);
  }

  lemma {:induction false} AddSentencePacked(p: Packer, s: string, target: nat)
    requires Packed(p, target)
    ensures Packed(AddSentence(p, s, target), target)
  {
    JoinedBytes(p.current, " ", s);
    FlushPacked(p, target);
    HardSplitBounded(s, target);
    BoundedAppend(Flush(p).chunks, HardSplit(s, target), target);
  }

  lemma {:induction false} AddSentencesPacked(p: Packer, ss: seq<string>, target: nat)
    requires Packed(p, target)
    ensures Packed(AddSentences(p, ss, target), target)
  {
    if ss != [] {
      AddSentencesPacked(p, ss[..|ss| - 1], target);
      AddSentencePacked(AddSentences(p, ss[..|ss| - 1], target), ss[|ss| - 1], target);
    }
  }

  lemma {:induction false} AddParagraphPacked(p: Packer, para: string, target: nat)
    requires Packed(p, target)
    ensures Packed(AddParagraph(p, para, target), target)
  {
    JoinedBytes(p.current, "\n\n", para);
    FlushPacked(p, target);
    AddSentencesPacked(Flush(p), Sentences(para), target);
  }

  lemma {:induction false} AddParagraphsPacked(p: Packer, paras: seq<string>, target: nat)
    requires Packed(p, target)
    ensures Packed(AddParagraphs(p, paras, target), target)
  {
    if paras != [] {
      AddParagraphsPacked(p, paras[..|paras| - 1], target);
      AddParagraphPacked(AddParagraphs(p, paras[..|paras| - 1], target), paras[|paras| - 1], target);
    }
  }

  /** Main result: for every text and target, no chunk is empty, and each fits the target or is one wider character. */
  lemma {:induction false} ChunksBounded(text: string, target: nat)
    ensures AllBounded(ChunkText(text, target), target)
  {
    var p := AddParagraphs(Packer([], ""), Paragraphs(text), target);
    AddParagraphsPacked(Packer([], ""), Paragraphs(text), target);
    FlushPacked(p, target);
  }

  // ---- Conservation ----

  /** The characters a chunking must preserve: all but newlines and spaces. */
  function Kept(s: string): string {
    if s == "" then "" else Kept(s[..|s| - 1]) + (if s[|s| - 1] == '\n' || s[|s| - 1] == ' ' then "" else [s[|s| - 1]])
  }

  function Concat<T>(ss: seq<seq<T>>): seq<T> {
    if ss == [] then [] else Concat(ss[..|ss| - 1]) + ss[|ss| - 1]
  }

  /** All a packer holds, in order. */
  function Held(p: Packer): string {
    Concat(p.chunks) + p.current
  }

  lemma {:induction false} KeptConcat(a: string, b: string)
    ensures Kept(a + b) == Kept(a) + Kept(b)
  {
    if b == "" {
      assert a + b == a;
    } else {
      assert (a + b)[..|a + b| - 1] == a + b[..|b| - 1];
      KeptConcat(a, b[..|b| - 1]);
    }
  }

  lemma {:induction false} Regroup(a: string, b: string, c: string)
    ensures a + b + c == a + (b + c)
  {
  }

  lemma {:induction false} ConcatAppend(ss: seq<string>, ts: seq<string>)
    ensures Concat(ss + ts) == Concat(ss) + Concat(ts)
  {
    if ts == [] {
      assert ss + ts == ss;
    } else {
      assert (ss + ts)[..|ss + ts| - 1] == ss + ts[..|ts| - 1];
      ConcatAppend(ss, ts[..|ts| - 1]);
      Regroup(Concat(ss), Concat(ts[..|ts| - 1]), ts[|ts| - 1]);
    }
  }

  lemma {:induction false} ConcatPush<T>(ss: seq<seq<T>>, s: seq<T>)
    ensures Concat(ss + [s]) == Concat(ss) + s
  {
    assert (ss + [s])[..|ss|] == ss;
  }

  lemma {:induction false} ConcatOne(s: string)
    ensures Concat([s]) == s
  {
    ConcatPush([], s);
    assert [] + [s] == [s];
  }

  lemma {:induction false} FlushHolds(p: Packer)
    ensures Held(Flush(p)) == Held(p) == Concat(Flush(p).chunks)
  {
    ConcatPush(p.chunks, p.current);
  }

  lemma {:induction false} CutHolds(p: Packer, c: char, target: nat)
    ensures Held(Cut(p, c, target)) == Held(p) + [c]
  {
    FlushHolds(p);
    assert Concat(p.chunks) + (p.current + [c]) == Held(p) + [c];
  }

  lemma {:induction false} LastChar(s: string)
    requires s != ""
    ensures s == s[..|s| - 1] + [s[|s| - 1]]
  {
  }

  lemma {:induction false} CutsStep(s: string, target: nat)
    requires s != ""
    ensures Cuts(Packer([], ""), s, target) == Cut(Cuts(Packer([], ""), s[..|s| - 1], target), s[|s| - 1], target)
  {
  }

  /** A hard cut loses nothing at all. */
  lemma {:induction false} CutsHold(s: string, target: nat)
    ensures Held(Cuts(Packer([], ""), s, target)) == s
  {
    if s != "" {
      CutsHold(s[..|s| - 1], target);
      CutsStep(s, target);
      CutHolds(Cuts(Packer([], ""), s[..|s| - 1], target), s[|s| - 1], target);
      LastChar(s);
    }
  }

  lemma {:induction false} HardSplitHolds(s: string, target: nat)
    ensures Concat(HardSplit(s, target)) == s
  {
    CutsHold(s, target);
    FlushHolds(Cuts(Packer([], ""), s, target));
  }

  predicate Blank(sep: string) {
    Kept(sep) == ""
  }

  lemma {:induction false} Separators()
    ensures Blank(" ") && Blank("\n\n")
  {
    assert " "[..0] == "";
    assert "\n\n"[..1] == "\n" && "\n"[..0] == "";
  }

  lemma {:induction false} AroundBlank(a: string, sep: string, b: string)
    requires Blank(sep)
    ensures Kept(a + sep + b) == Kept(a) + Kept(b)
  {
    KeptConcat(a, sep);
    KeptConcat(a + sep, b);
  }

  lemma {:induction false} JoinedKeeps(before: string, current: string, sep: string, piece: string)
    requires Blank(sep)
    ensures Kept(before + Joined(current, sep, piece)) == Kept(before + current) + Kept(piece)
  {
    if current == "" {
      assert before + current == before;
      KeptConcat(before, piece);
    } else {
      assert before + (current + sep + piece) == before + current + sep + piece;
      AroundBlank(before + current, sep, piece);
    }
  }

  lemma {:induction false} AddSentenceKeeps(p: Packer, s: string, target: nat)
    ensures Kept(Held(AddSentence(p, s, target))) == Kept(Held(p)) + Kept(s)
  {
    if Fits(p, " ", s, target) {
      Separators();
      JoinedKeeps(Concat(p.chunks), p.current, " ", s);
    } else {
      FlushHolds(p);
      KeptConcat(Held(p), s);
      if Bytes(s) > target {
        HardSplitHolds(s, target);
        ConcatAppend(Flush(p).chunks, HardSplit(s, target));
        assert Held(AddSentence(p, s, target)) == Held(p) + s;
      }
    }
  }

  lemma {:induction false} AddSentencesKeep(p: Packer, ss: seq<string>, target: nat)
    ensures Kept(Held(AddSentences(p, ss, target))) == Kept(Held(p)) + Kept(Concat(ss))
  {
    if ss != [] {
      var n := |ss| - 1;
      AddSentencesKeep(p, ss[..n], target);
      AddSentenceKeeps(AddSentences(p, ss[..n], target), ss[n], target);
      KeptConcat(Concat(ss[..n]), ss[n]);
    }
  }

  lemma {:induction false} PrependKeeps(head: string, sep: string, tail: string, rest: seq<string>)
    requires Blank(sep) && Kept(Concat(rest)) == Kept(tail)
    ensures Kept(Concat([head] + rest)) == Kept(head + sep + tail)
  {
    ConcatOne(head);
    ConcatAppend([head], rest);
    KeptConcat(head, Concat(rest));
    AroundBlank(head, sep, tail);
  }

  lemma {:induction false} CutAt(s: string, head: string, sep: string)
    requires |head| + |sep| <= |s| && s[..|head|] == head && s[|head|..|head| + |sep|] == sep
    ensures s == head + sep + s[|head| + |sep|..]
  {
  }

  lemma {:induction false} SentencesFrom(rest: string, head: string, tail: string, k: nat)
    requires FirstPair(rest, '.', ' ') == k < |rest| && rest[..k + 1] == head && rest[k + 2..] == tail
    ensures Sentences(rest) == [head] + Sentences(tail)
  {
  }

  lemma {:induction false} ParagraphsFrom(rest: string, head: string, tail: string, k: nat)
    requires FirstPair(rest, '\n', '\n') == k < |rest| && rest[..k] == head && rest[k + 2..] == tail
    ensures Paragraphs(rest) == [head] + Paragraphs(tail)
  {
  }

  lemma {:induction false} SentencesKeep(s: string)
    ensures Kept(Concat(Sentences(s))) == Kept(s)
    decreases |s|
  {
    var k := FirstPair(s, '.', ' ');
    if k < |s| {
      SentencesKeep(s[k + 2..]);
      SentenceKeeps(s, s[..k + 1], s[k + 2..], k);
    } else if s != "" {
      ConcatOne(s);
    }
  }

  lemma {:induction false} SentenceKeeps(s: string, head: string, tail: string, k: nat)
    requires FirstPair(s, '.', ' ') == k < |s| && s[..k + 1] == head && s[k + 2..] == tail
    requires Kept(Concat(Sentences(tail))) == Kept(tail)
    ensures Kept(Concat(Sentences(s))) == Kept(s)
  {
    Separators();
    CutAt(s, head, " ");
    SentencesFrom(s, head, tail, k);
    PrependKeeps(head, " ", tail, Sentences(tail));
  }

  lemma {:induction false} ParagraphsKeep(s: string)
    ensures Kept(Concat(Paragraphs(s))) == Kept(s)
    decreases |s|
  {
    var k := FirstPair(s, '\n', '\n');
    if k < |s| {
      ParagraphsKeep(s[k + 2..]);
      ParagraphKeeps(s, s[..k], s[k + 2..], k);
    } else {
      ConcatOne(s);
    }
  }

  lemma {:induction false} ParagraphKeeps(s: string, head: string, tail: string, k: nat)
    requires FirstPair(s, '\n', '\n') == k < |s| && s[..k] == head && s[k + 2..] == tail
    requires Kept(Concat(Paragraphs(tail))) == Kept(tail)
    ensures Kept(Concat(Paragraphs(s))) == Kept(s)
  {
    Separators();
    CutAt(s, head, "\n\n");
    ParagraphsFrom(s, head, tail, k);
    PrependKeeps(head, "\n\n", tail, Paragraphs(tail));
  }

  lemma {:induction false} AddParagraphKeeps(p: Packer, para: string, target: nat)
    ensures Kept(Held(AddParagraph(p, para, target))) == Kept(Held(p)) + Kept(para)
  {
    if para != "" {
      FlushHolds(p);
      if Bytes(para) > target {
        AddSentencesKeep(Flush(p), Sentences(para), target);
        SentencesKeep(para);
      } else if Fits(p, "\n\n", para, target) {
        Separators();
        JoinedKeeps(Concat(p.chunks), p.current, "\n\n", para);
      } else {
        KeptConcat(Held(p), para);
      }
    }
  }

  lemma {:induction false} AddParagraphsKeep(p: Packer, paras: seq<string>, target: nat)
    ensures Kept(Held(AddParagraphs(p, paras, target))) == Kept(Held(p)) + Kept(Concat(paras))
  {
    if paras != [] {
      var n := |paras| - 1;
      AddParagraphsKeep(p, paras[..n], target);
      AddParagraphKeeps(AddParagraphs(p, paras[..n], target), paras[n], target);
      KeptConcat(Concat(paras[..n]), paras[n]);
    }
  }

  /** Main result: the chunks, concatenated, hold every character but newlines and spaces, in order. */
  lemma {:induction false} ChunksConserve(text: string, target: nat)
    ensures Kept(Concat(ChunkText(text, target))) == Kept(text)
  {
    if text != "" && Bytes(text) > target {
      AddParagraphsKeep(Packer([], ""), Paragraphs(text), target);
      ParagraphsKeep(text);
      FlushHolds(AddParagraphs(Packer([], ""), Paragraphs(text), target));
    } else if text != "" {
      ConcatOne(text);
    }
  }

  // ---- Optimal packing ----

  /** The paragraphs the packing looks at: blank ones are skipped. */
  function NonEmpty(paras: seq<string>): seq<string> {
    if paras == [] then [] else NonEmpty(paras[..|paras| - 1]) + (if paras[|paras| - 1] == "" then [] else [paras[|paras| - 1]])
  }

  /** A group of paragraphs as one chunk, blank lines between. */
  function JoinAll(group: seq<string>): string {
    if group == [] then "" else Joined(JoinAll(group[..|group| - 1]), "\n\n", group[|group| - 1])
  }

  predicate Fitting(groups: seq<seq<string>>, target: nat) {
    forall i :: 0 <= i < |groups| ==> Bytes(JoinAll(groups[i])) <= target
  }

  predicate Small(items: seq<string>, target: nat) {
    forall i :: 0 <= i < |items| ==> items[i] != "" && Bytes(items[i]) <= target
  }

  /** Chunks begun so far, the open one included. */
  function Started(p: Packer): nat {
    |Flush(p).chunks|
  }

  /** The packer has begun fewer chunks, or as many with no more in the open one. */
  predicate NotBehind(p: Packer, started: nat, load: nat) {
    Started(p) < started || (Started(p) == started && Bytes(p.current) <= load)
  }

  lemma {:induction false} AddParagraphsPush(p: Packer, paras: seq<string>, para: string, target: nat)
    ensures AddParagraphs(p, paras + [para], target) == AddParagraph(AddParagraphs(p, paras, target), para, target)
  {
    assert (paras + [para])[..|paras|] == paras;
  }

  lemma {:induction false} SkipEmpty(p: Packer, paras: seq<string>, target: nat)
    ensures AddParagraphs(p, paras, target) == AddParagraphs(p, NonEmpty(paras), target)
  {
    if paras != [] {
      var n := |paras| - 1;
      SkipEmpty(p, paras[..n], target);
      if paras[n] == "" {
        assert NonEmpty(paras) == NonEmpty(paras[..n]);
      } else {
        AddParagraphsPush(p, NonEmpty(paras[..n]), paras[n], target);
        assert NonEmpty(paras) == NonEmpty(paras[..n]) + [paras[n]];
      }
    }
  }

  /** Putting the next paragraph where it opens a new group never overtakes the packer. */
  lemma {:induction false} AheadOnOpen(p: Packer, para: string, target: nat, started: nat, load: nat)
    requires para != "" && Bytes(para) <= target && NotBehind(p, started, load)
    ensures NotBehind(AddParagraph(p, para, target), started + 1, Bytes(para))
  {
    JoinedBytes(p.current, "\n\n", para);
    BytesPositive(p.current);
  }

  /** Nor does adding it to the group already open. */
  lemma {:induction false} AheadOnExtend(p: Packer, para: string, target: nat, started: nat, group: string)
    requires para != "" && group != "" && Bytes(Joined(group, "\n\n", para)) <= target
    requires NotBehind(p, started, Bytes(group)) && p.current != ""
    ensures NotBehind(AddParagraph(p, para, target), started, Bytes(Joined(group, "\n\n", para)))
  {
    JoinedBytes(p.current, "\n\n", para);
    JoinedBytes(group, "\n\n", para);
    BytesPositive(p.current);
  }

  lemma {:induction false} JoinAllPush(group: seq<string>, item: string)
    ensures JoinAll(group + [item]) == Joined(JoinAll(group), "\n\n", item)
    ensures item != "" ==> JoinAll(group + [item]) != ""
  {
    assert (group + [item])[..|group|] == group;
  }

  lemma {:induction false} JoinAllOpen(group: seq<string>)
    requires group != [] && group[|group| - 1] != ""
    ensures JoinAll(group) != ""
  {
  }

  lemma {:induction false} GroupItems<T>(before: seq<seq<T>>, init: seq<T>, item: T)
    ensures Concat(before + [init + [item]]) == Concat(before) + init + [item]
  {
    ConcatPush(before, init + [item]);
  }

  lemma {:induction false} SmallPrefix(items: seq<string>, item: string, target: nat)
    requires Small(items + [item], target)
    ensures Small(items, target) && item != "" && Bytes(item) <= target
  {
    assert (items + [item])[|items|] == item;
    assert forall i :: 0 <= i < |items| ==> items[i] == (items + [item])[i];
  }

  lemma {:induction false} LeftOpen(items: seq<string>, target: nat)
    requires Small(items, target) && items != []
    ensures AddParagraphs(Packer([], ""), items, target).current != ""
  {
  }

  /** The load of the group being filled. */
  function LastLoad(groups: seq<seq<string>>): nat {
    if groups == [] then 0 else Bytes(JoinAll(groups[|groups| - 1]))
  }

  /** The greedy packer is never behind a fitting grouping of the same paragraphs. */
  lemma {:induction false} GreedyNotBehind(groups: seq<seq<string>>, target: nat)
    requires Fitting(groups, target) && Small(Concat(groups), target)
    ensures NotBehind(AddParagraphs(Packer([], ""), Concat(groups), target), |groups|, LastLoad(groups))
    decreases |Concat(groups)|, |groups|
  {
    if groups != [] {
      var n := |groups| - 1;
      var before, last := groups[..n], groups[n];
      if last == [] {
        assert Concat(groups) == Concat(before);
        GreedyNotBehind(before, target);
      } else {
        var init, item := last[..|last| - 1], last[|last| - 1];
        assert last == init + [item] && groups == before + [init + [item]];
        GreedyStep(before, init, item, target);
      }
    }
  }

  lemma {:induction false} GreedyStep(before: seq<seq<string>>, init: seq<string>, item: string, target: nat)
    requires var groups := before + [init + [item]]; Fitting(groups, target) && Small(Concat(groups), target)
    ensures var groups := before + [init + [item]];
      NotBehind(AddParagraphs(Packer([], ""), Concat(groups), target), |groups|, LastLoad(groups))
    decreases |Concat(before + [init + [item]])|, 0
  {
    var items := Concat(before) + init;
    var q := AddParagraphs(Packer([], ""), items, target);
    GroupItems(before, init, item);
    SmallPrefix(items, item, target);
    AddParagraphsPush(Packer([], ""), items, item, target);
    JoinAllPush(init, item);
    if init == [] {
      assert items == Concat(before);
      FittingPrefix(before, init + [item], target);
      GreedyNotBehind(before, target);
      AheadOnOpen(q, item, target, |before|, LastLoad(before));
    } else {
      ConcatPush(before, init);
      FittingPrefix(before, init + [item], target);
      JoinedBytes(JoinAll(init), "\n\n", item);
      GreedyNotBehind(before + [init], target);
      LeftOpen(items, target);
      assert items[|items| - 1] == init[|init| - 1];
      JoinAllOpen(init);
      AheadOnExtend(q, item, target, |before| + 1, JoinAll(init));
    }
  }

  lemma {:induction false} FittingPrefix(before: seq<seq<string>>, last: seq<string>, target: nat)
    requires Fitting(before + [last], target)
    ensures Fitting(before, target) && Bytes(JoinAll(last)) <= target
  {
    assert forall i :: 0 <= i < |before| ==> (before + [last])[i] == before[i];
    assert (before + [last])[|before|] == last;
  }

  /** The paragraphs of a text that all fit the target. */
  predicate FittingParagraphs(text: string, target: nat) {
    Bytes(text) > target && Small(NonEmpty(Paragraphs(text)), target)
  }

  /** Main result: no in-order grouping of the nonempty paragraphs that fits has fewer groups than there are chunks. */
  lemma {:induction false} PackingIsOptimal(text: string, target: nat, groups: seq<seq<string>>)
    requires FittingParagraphs(text, target)
    requires Concat(groups) == NonEmpty(Paragraphs(text)) && Fitting(groups, target)
    ensures |ChunkText(text, target)| <= |groups|
  {
    SkipEmpty(Packer([], ""), Paragraphs(text), target);
    GreedyNotBehind(groups, target);
  }

  ghost predicate Groups(p: Packer, groups: seq<seq<string>>, items: seq<string>) {
    && Concat(groups) == items
    && |Flush(p).chunks| == |groups|
    && forall i :: 0 <= i < |groups| ==> groups[i] != [] && JoinAll(groups[i]) == Flush(p).chunks[i]
  }

  lemma {:induction false} GroupsExtend(p: Packer, groups: seq<seq<string>>, items: seq<string>, item: string) returns (more: seq<seq<string>>)
    requires Groups(p, groups, items) && p.current != "" && item != ""
    ensures Groups(p.(current := Joined(p.current, "\n\n", item)), more, items + [item])
  {
    var n := |groups| - 1;
    more := groups[..n] + [groups[n] + [item]];
    JoinAllPush(groups[n], item);
    ConcatPush(groups[..n], groups[n]);
    GroupItems(groups[..n], groups[n], item);
    assert groups == groups[..n] + [groups[n]];
  }

  lemma {:induction false} GroupsOpen(p: Packer, groups: seq<seq<string>>, items: seq<string>, item: string)
    requires Groups(p, groups, items) && item != ""
    ensures Groups(Flush(p).(current := item), groups + [[item]], items + [item])
  {
    JoinAllPush([], item);
    assert [] + [item] == [item];
    ConcatPush(groups, [item]);
  }

  lemma {:induction false} GreedyGroups(items: seq<string>, target: nat) returns (groups: seq<seq<string>>)
    requires Small(items, target)
    ensures Groups(AddParagraphs(Packer([], ""), items, target), groups, items)
  {
    if items == [] {
      groups := [];
    } else {
      var init, item := items[..|items| - 1], items[|items| - 1];
      assert items == init + [item];
      var q := AddParagraphs(Packer([], ""), init, target);
      var before := GreedyGroups(init, target);
      if q.current != "" && Fits(q, "\n\n", item, target) {
        groups := GroupsExtend(q, before, init, item);
      } else {
        groups := before + [[item]];
        GroupsOpen(q, before, init, item);
        assert q.current == "" ==> Flush(q) == q;
      }
    }
  }

  /** And the chunks are themselves such a grouping: they attain the minimum. */
  lemma {:induction false} PackingIsAGrouping(text: string, target: nat) returns (groups: seq<seq<string>>)
    requires FittingParagraphs(text, target)
    ensures Concat(groups) == NonEmpty(Paragraphs(text)) && Fitting(groups, target)
    ensures |groups| == |ChunkText(text, target)|
    ensures forall i :: 0 <= i < |groups| ==> groups[i] != [] && ChunkText(text, target)[i] == JoinAll(groups[i])
  {
    groups := GreedyGroups(NonEmpty(Paragraphs(text)), target);
    SkipEmpty(Packer([], ""), Paragraphs(text), target);
    var p := AddParagraphs(Packer([], ""), Paragraphs(text), target);
    AddParagraphsWithin(NonEmpty(Paragraphs(text)), target);
  }

  predicate Within(chunks: seq<string>, target: nat) {
    forall i :: 0 <= i < |chunks| ==> Bytes(chunks[i]) <= target
  }

  lemma {:induction false} AddParagraphsWithin(items: seq<string>, target: nat)
    requires Small(items, target)
    ensures var p := AddParagraphs(Packer([], ""), items, target);
      Within(Flush(p).chunks, target) && Within(p.chunks, target) && Bytes(p.current) <= target
  {
    if items != [] {
      var item, q := items[|items| - 1], AddParagraphs(Packer([], ""), items[..|items| - 1], target);
      AddParagraphsWithin(items[..|items| - 1], target);
      JoinedBytes(q.current, "\n\n", item);
    }
  }

  // ---- The loops ----

  lemma {:induction false} FirstPairAt(s: string, a: char, b: char, k: nat)
    requires k + 1 < |s| && s[k] == a && s[k + 1] == b
    requires forall j :: 0 <= j < k ==> !(s[j] == a && s[j + 1] == b)
    ensures FirstPair(s, a, b) == k
  {
  }

  /** No sentence of `s` ends between `start` and `i`. */
  predicate NoEndIn(s: string, start: nat, i: nat) {
    forall j :: start <= j < i && j + 1 < |s| ==> !(s[j] == '.' && s[j + 1] == ' ')
  }

  /** What is collected, and the sentences still ahead, are the sentences of `s`. */
  ghost predicate Collected(out: seq<string>, s: string, start: nat)
    requires start <= |s|
  {
    out + Sentences(s[start..]) == Sentences(s)
  }

  lemma {:induction false} NoEndNext(s: string, start: nat, i: nat)
    requires NoEndIn(s, start, i) && i + 1 < |s| && !(s[i] == '.' && s[i + 1] == ' ')
    ensures NoEndIn(s, start, i + 1)
  {
  }

  lemma {:induction false} EndFrom(s: string, start: nat, i: nat)
    requires start <= i && i + 1 < |s| && s[i] == '.' && s[i + 1] == ' '
    requires NoEndIn(s, start, i)
    ensures FirstPair(s[start..], '.', ' ') == i - start
  {
    var rest := s[start..];
    forall j | 0 <= j < i - start
      ensures !(rest[j] == '.' && rest[j + 1] == ' ')
    {
      assert rest[j] == s[start + j] && rest[j + 1] == s[start + j + 1];
    }
    FirstPairAt(rest, '.', ' ', i - start);
  }

  lemma {:induction false} Shift<T>(a: seq<T>, x: T, b: seq<T>)
    ensures a + [x] + b == a + ([x] + b)
  {
  }

  lemma {:induction false} NextSentence(out: seq<string>, s: string, start: nat, i: nat)
    requires start <= i && i + 1 < |s| && s[i] == '.' && s[i + 1] == ' '
    requires NoEndIn(s, start, i) && Collected(out, s, start)
    ensures Collected(out + [s[start..i + 1]], s, i + 2)
  {
    EndFrom(s, start, i);
    assert s[start..][..i - start + 1] == s[start..i + 1] && s[start..][i - start + 2..] == s[i + 2..];
    SentencesFrom(s[start..], s[start..i + 1], s[i + 2..], i - start);
    Shift(out, s[start..i + 1], Sentences(s[i + 2..]));
  }

  lemma {:induction false} LastSentence(s: string, start: nat)
    requires start < |s| && NoEndIn(s, start, |s|)
    ensures Sentences(s[start..]) == [s[start..]]
  {
    var rest := s[start..];
    assert forall j :: 0 <= j < |rest| - 1 && rest[j] == '.' ==> s[start + j] == '.' && rest[j + 1] == s[start + j + 1];
  }

  /** The sentences up to `start` are collected, and none ends from there to `i`. */
  ghost predicate Scanned(out: seq<string>, s: string, start: nat, i: nat) {
    && start <= i + 1 && start <= |s| && (start == i + 1 && i < |s| ==> s[i] == ' ')
    && NoEndIn(s, start, i) && Collected(out, s, start)
  }

  lemma {:induction false} ScanStarts(s: string)
    ensures Scanned([], s, 0, 0)
  {
    assert s[0..] == s;
  }

  lemma {:induction false} ScanMoves(out: seq<string>, s: string, start: nat, i: nat)
    requires i + 1 < |s| && Scanned(out, s, start, i)
    ensures if s[i] == '.' && s[i + 1] == ' ' then start <= i && Scanned(out + [s[start..i + 1]], s, i + 2, i + 1)
            else Scanned(out, s, start, i + 1)
  {
    if s[i] == '.' && s[i + 1] == ' ' {
      NextSentence(out, s, start, i);
    } else {
      NoEndNext(s, start, i);
    }
  }

  lemma {:induction false} LastCollected(out: seq<string>, s: string, start: nat, i: nat)
    requires start <= |s| <= i + 1 && Scanned(out, s, start, i)
    ensures Sentences(s) == if start < |s| then out + [s[start..]] else out
  {
    if start < |s| {
      LastSentence(s, start);
    } else {
      assert s[start..] == "";
    }
  }

  method SplitSentences(s: string) returns (out: seq<string>)
    ensures out == Sentences(s)
  {
    out := [];
    var start, i := 0, 0;
    ScanStarts(s);
    while i + 1 < |s|
      invariant i <= |s| && start <= |s|
      invariant Scanned(out, s, start, i)
    {
      ScanMoves(out, s, start, i);
      if s[i] == '.' && s[i + 1] == ' ' {
        out := out + [s[start..i + 1]];
        start := i + 2;
      }
      i := i + 1;
    }
    LastCollected(out, s, start, i);
    if start < |s| {
      out := out + [s[start..]];
    }
  }

  method SplitHard(s: string, target: nat) returns (out: seq<string>)
    ensures out == HardSplit(s, target)
  {
    out := [];
    var current := "";
    for i := 0 to |s|
      invariant Packer(out, current) == Cuts(Packer([], ""), s[..i], target)
    {
      assert s[..i + 1][..i] == s[..i];
      if Bytes(current) + CharBytes(s[i]) > target && current != "" {
        out := out + [current];
        current := "";
      }
      current := current + [s[i]];
    }
    assert s[..|s|] == s;
    if current != "" {
      out := out + [current];
    }
  }

  /** The sentence loop of an oversized paragraph. */
  method PackSentences(para: string, target: nat, before: seq<string>) returns (chunks: seq<string>, current: string)
    ensures Packer(chunks, current) == AddSentences(Packer(before, ""), Sentences(para), target)
  {
    chunks, current := before, "";
    var sentences := SplitSentences(para);
    for i := 0 to |sentences|
      invariant Packer(chunks, current) == AddSentences(Packer(before, ""), sentences[..i], target)
    {
      var sentence := sentences[i];
      assert sentences[..i + 1][..i] == sentences[..i];
      var added := (if current == "" then 0 else 1) + Bytes(sentence);
      assert Bytes(" ") == 1 by { BytesOne(' '); }
      if Bytes(current) + added <= target {
        if current != "" {
          current := current + " ";
        }
        current := current + sentence;
      } else {
        if current != "" {
          chunks, current := chunks + [current], "";
        }
        if Bytes(sentence) <= target {
          current := sentence;
        } else {
          var pieces := SplitHard(sentence, target);
          chunks, current := chunks + pieces, "";
        }
      }
    }
    assert sentences[..|sentences|] == sentences;
  }

  method SplitText(text: string, target: nat) returns (chunks: seq<string>)
    ensures chunks == ChunkText(text, target)
  {
    if text == "" {
      return [];
    }
    if Bytes(text) <= target {
      return [text];
    }
    chunks := [];
    var current := "";
    var paras := Paragraphs(text);
    for i := 0 to |paras|
      invariant Packer(chunks, current) == AddParagraphs(Packer([], ""), paras[..i], target)
    {
      var para := paras[i];
      assert paras[..i + 1][..i] == paras[..i];
      assert Bytes("\n\n") == 2 by { BytesOne('\n'); BytesConcat("\n", "\n"); assert "\n" + "\n" == "\n\n"; }
      if para == "" {
        continue;
      }
      if Bytes(para) <= target {
        var added := (if current == "" then 0 else 2) + Bytes(para);
        if Bytes(current) + added <= target {
          if current != "" {
            current := current + "\n\n";
          }
          current := current + para;
        } else {
          if current != "" {
            chunks, current := chunks + [current], "";
          }
          current := para;
        }
      } else {
        if current != "" {
          chunks, current := chunks + [current], "";
        }
        chunks, current := PackSentences(para, target, chunks);
      }
    }
    assert paras[..|paras|] == paras;
    if current != "" {
      chunks := chunks + [current];
    }
  }
}
