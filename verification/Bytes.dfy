/** Bytes, big-endian integers and lists of slices, as Node's Buffer offers them. */
module Bytes {

  type byte = b: int | 0 <= b < 256

  type Buffer = seq<byte>

  const U16_LIMIT := 0x1_0000
  const U32_LIMIT := 0x1_0000_0000

  /** readUInt16BE at the start of the buffer. */
  function ReadU16(s: Buffer): (n: nat)
    requires |s| >= 2
    ensures n < U16_LIMIT
  {
    s[0] as int * 256 + s[1]
  }

  /** The four bytes writeUInt32BE writes. */
  function U32(n: nat): (s: Buffer)
    requires n < U32_LIMIT
    ensures |s| == 4 && ReadU32(s) == n
  {
    assert n / 0x1_0000 == n / 0x100_0000 * 256 + n / 0x1_0000 % 256;
    assert n / 256 == n / 0x1_0000 * 256 + n / 256 % 256;
    [n / 0x100_0000, n / 0x1_0000 % 256, n / 256 % 256, n % 256]
  }

  /** readUInt32BE at the start of the buffer. */
  function ReadU32(s: Buffer): (n: nat)
    requires |s| >= 4
    ensures n < U32_LIMIT
  {
    s[0] as int * 0x100_0000 + s[1] as int * 0x1_0000 + s[2] as int * 256 + s[3]
  }

  /** `bytes` stand at `at`. */
  ghost predicate At(s: Buffer, at: nat, bytes: Buffer) {
    at + |bytes| <= |s| && s[at..at + |bytes|] == bytes
  }

  lemma AtJoin(s: Buffer, at: nat, a: Buffer, b: Buffer)
    ensures At(s, at, a + b) <==> At(s, at, a) && At(s, at + |a|, b)
  {
    if At(s, at, a + b) {
      assert a == (a + b)[..|a|] == s[at..at + |a|];
      assert b == (a + b)[|a|..] == s[at + |a|..at + |a| + |b|];
    }
  }

  lemma AtAfter(before: Buffer, bytes: Buffer, after: Buffer)
    ensures At(before + bytes + after, |before|, bytes)
  {
  }

  lemma Assoc(a: Buffer, b: Buffer, c: Buffer)
    ensures (a + b) + c == a + (b + c)
  {
  }

  lemma SubSlice(s: Buffer, from: nat, to: nat, i: nat, j: nat)
    requires from <= to <= |s| && i <= j <= to - from
    ensures s[from..to][i..j] == s[from + i..from + j]
  {
    assert |s[from..to][i..j]| == |s[from + i..from + j]|;
    assert forall k | 0 <= k < j - i :: s[from..to][i..j][k] == s[from + i + k];
  }

  /** Reading at an offset and reading in a slice that starts there agree. */
  lemma ReadSlice(s: Buffer, from: nat, to: nat)
    requires from <= to <= |s| && from + 4 <= to
    ensures ReadU32(s[from..]) == ReadU32(s[from..to])
  {
    assert s[from..][0] == s[from..to][0] && s[from..][1] == s[from..to][1];
    assert s[from..][2] == s[from..to][2] && s[from..][3] == s[from..to][3];
  }

  lemma DropJoin(a: Buffer, b: Buffer, n: nat)
    requires n <= |a|
    ensures (a + b)[n..] == a[n..] + b
    ensures |a| >= 2 ==> ReadU16(a + b) == ReadU16(a)
  {
    if |a| >= 2 {
      assert (a + b)[0] == a[0] && (a + b)[1] == a[1];
    }
  }

  /** Half-open slices of one buffer, in order and without overlap, all at or after `from`. */
  ghost predicate InOrder(cuts: seq<(nat, nat)>, from: nat, limit: nat) {
    if cuts == [] then
      from <= limit
    else
      from <= cuts[0].0 <= cuts[0].1 <= limit && InOrder(cuts[1..], cuts[0].1, limit)
  }

  /** The bytes a list of slices selects. */
  ghost function Gather(s: Buffer, cuts: seq<(nat, nat)>): Buffer
    requires forall c <- cuts :: c.0 <= c.1 <= |s|
  {
    if cuts == [] then [] else s[cuts[0].0..cuts[0].1] + Gather(s, cuts[1..])
  }

  /** `out` is some slices of `s`, in order: nothing in it was computed or moved. */
  ghost predicate IsSlicesOf(out: Buffer, s: Buffer) {
    exists cuts: seq<(nat, nat)> ::
      && InOrder(cuts, 0, |s|)
      && (forall c <- cuts :: c.0 <= c.1 <= |s|)
      && Gather(s, cuts) == out
  }
}
