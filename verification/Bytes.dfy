/** The C data the kernel and its programs exchange: bytes and NUL-terminated strings. */
module Bytes {

  type byte = b: int | 0 <= b < 256

  const NUL: byte := 0
  const NEWLINE: byte := 10
  const RETURN: byte := 13
  const SPACE: byte := 32
  const PERCENT: byte := 37

  datatype Option<+T> = None | Some(value: T)

  predicate NulFree(s: seq<byte>) {
    NUL !in s
  }

  function Fill(n: nat, b: byte): (s: seq<byte>)
    ensures |s| == n && forall i :: 0 <= i < n ==> s[i] == b
  {
    seq(n, _ => b)
  }

  /** The C string held by a buffer: the bytes before the first NUL. */
  function CString(s: seq<byte>): (r: seq<byte>)
    ensures r <= s && NulFree(r)
    ensures |r| < |s| ==> s[|r|] == NUL
  {
    if s == [] || s[0] == NUL then [] else [s[0]] + CString(s[1..])
  }

  /** Text followed by a NUL reads back as the text, whatever follows. */
  lemma {:induction false} CStringOf(text: seq<byte>, rest: seq<byte>)
    requires NulFree(text)
    requires rest != [] ==> rest[0] == NUL
    ensures CString(text + rest) == text
  {
    if text == [] {
      assert text + rest == rest;
    } else {
      assert (text + rest)[1..] == text[1..] + rest;
      CStringOf(text[1..], rest);
    }
  }

  /** A NUL-terminated string stored at `at`. */
  predicate StringAt(data: seq<byte>, at: nat, s: seq<byte>) {
    && at + |s| < |data| && data[at..at + |s|] == s && data[at + |s|] == NUL && NulFree(s)
  }

  lemma ByteOfString(data: seq<byte>, at: nat, s: seq<byte>, i: nat)
    requires StringAt(data, at, s) && i <= |s|
    ensures at + |s| < |data|
    ensures data[at + i] == (if i < |s| then s[i] else NUL) && (data[at + i] == NUL <==> i == |s|)
  {
    if i < |s| {
      assert data[at..at + |s|][i] == data[at + i];
      assert s[i] in s;
    }
  }

  /** Only the bytes from `from` up to `to` may differ. */
  predicate SameOutside(before: seq<byte>, after: seq<byte>, from: nat, to: nat) {
    && |before| == |after|
    && forall i :: 0 <= i < |before| && !(from <= i < to) ==> after[i] == before[i]
  }
}
