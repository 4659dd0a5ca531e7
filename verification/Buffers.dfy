/** Fixed-size character buffers inside the wire messages (src/ipc/message.cpp). */
module Buffers {

  /** A zero-initialised char array member. */
  function Zeros(n: nat): (r: seq<char>)
    ensures |r| == n
  {
    seq(n, _ => '\0')
  }

  predicate NulFree(s: string) {
    '\0' !in s
  }

  /** strnlen: the length of the text before the first NUL, or the whole buffer. */
  function StrnLen(buf: seq<char>): (n: nat)
    ensures n <= |buf|
    ensures NulFree(buf[..n])
    ensures n < |buf| ==> buf[n] == '\0'
  {
    if buf == [] || buf[0] == '\0' then 0
    else
      var n := 1 + StrnLen(buf[1..]);
      assert buf[..n] == [buf[0]] + buf[1..][..n - 1];
      n
  }

  /** buffer_to_string_view on a non-null buffer. */
  function ToText(buf: seq<char>): string {
    buf[..StrnLen(buf)]
  }

  /** What copy_string_to_buffer leaves in a buffer: the text cut to leave room for the terminator, the
      terminator, and the old bytes behind it. */
  function Written(buf: seq<char>, src: string): (r: seq<char>)
    ensures |r| == |buf|
  {
    if |buf| == 0 then buf
    else
      var n := if |src| <= |buf| - 1 then |src| else |buf| - 1;
      src[..n] + ['\0'] + buf[n + 1..]
  }

  /** copy_string_to_buffer(dest, dest_size, src), in place. */
  method CopyStringToBuffer(dest: array?<char>, destSize: nat, src: string)
    requires dest != null ==> destSize <= dest.Length
    modifies if dest == null then {} else {dest}
    ensures dest != null ==> dest[..destSize] == Written(old(dest[..destSize]), src)
    ensures dest != null ==> dest[destSize..] == old(dest[destSize..])
  {
    if dest == null || destSize == 0 {
      return;
    }
    var copyLength := if |src| < destSize - 1 then |src| else destSize - 1;
    forall i | 0 <= i < copyLength {
      dest[i] := src[i];
    }
    dest[copyLength] := '\0';
  }

  lemma NulFreeAt(buf: seq<char>, n: nat)
    requires n <= |buf| && NulFree(buf[..n])
    ensures forall i | 0 <= i < n :: buf[i] != '\0'
  {
    forall i | 0 <= i < n ensures buf[i] != '\0' {
      assert buf[..n][i] in buf[..n];
    }
  }

  /** The first NUL is unique: a prefix of NUL-free text followed by NUL is exactly what is read back. */
  lemma ReadUpTo(buf: seq<char>, n: nat)
    requires n < |buf| && NulFree(buf[..n]) && buf[n] == '\0'
    ensures ToText(buf) == buf[..n]
  {
    NulFreeAt(buf, n);
    NulFreeAt(buf, StrnLen(buf));
  }

  /** Writing NUL-free text and reading it back loses exactly what does not fit: the read is the longest
      prefix that leaves room for the terminator, whatever the buffer held before. */
  lemma RoundTrip(buf: seq<char>, src: string)
    requires |buf| > 0 && NulFree(src)
    ensures ToText(Written(buf, src)) == if |src| < |buf| then src else src[..|buf| - 1]
  {
    var n := if |src| <= |buf| - 1 then |src| else |buf| - 1;
    assert Written(buf, src)[..n] == src[..n];
    ReadUpTo(Written(buf, src), n);
  }

  /** Text read from a buffer is NUL-free and never longer than the buffer; rewritten into a target buffer
      one byte longer than the text it reads back unchanged. */
  lemma RereadStable(buf: seq<char>, target: seq<char>)
    requires |ToText(buf)| < |target|
    ensures NulFree(ToText(buf)) && ToText(Written(target, ToText(buf))) == ToText(buf)
  {
    RoundTrip(target, ToText(buf));
  }
}
