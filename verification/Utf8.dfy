/** Lengths in UTF-8 bytes: what `str::len` measures. */
module Utf8 {

  /** Section 3 of RFC 3629: one to four octets per character. */
  function CharBytes(c: char): (n: nat)
    ensures 1 <= n <= 4
  {
    if c as int < 0x80 then 1 else if c as int < 0x800 then 2 else if c as int < 0x1_0000 then 3 else 4
  }

  function Bytes(s: string): nat {
    if s == "" then 0 else Bytes(s[..|s| - 1]) + CharBytes(s[|s| - 1])
  }

  lemma {:induction false} BytesConcat(a: string, b: string)
    ensures Bytes(a + b) == Bytes(a) + Bytes(b)
  {
    if b == "" {
      assert a + b == a;
    } else {
      assert (a + b)[..|a + b| - 1] == a + b[..|b| - 1];
      BytesConcat(a, b[..|b| - 1]);
    }
  }

  lemma {:induction false} BytesPositive(s: string)
    ensures Bytes(s) == 0 <==> s == ""
  {
  }

  lemma {:induction false} BytesOne(c: char)
    ensures Bytes([c]) == CharBytes(c)
  {
    assert [c][..0] == "";
  }
}
