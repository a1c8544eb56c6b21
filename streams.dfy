/**
 * `coveo_systools.streams.filter_ansi`: deleting ANSI escape sequences from
 * a byte stream. The pattern accepts ESC followed either by one byte of a
 * 7-bit C1 "Fe" function other than CSI (0x40-0x5A or 0x5C-0x5F, ECMA-48
 * section 5.3), or by `[` and a control sequence: parameter bytes
 * 0x30-0x3F, intermediate bytes 0x20-0x2F, and one final byte 0x40-0x7E
 * (ECMA-48 section 5.4). Substitution scans left to right and resumes after
 * each deleted match.
 */
module Streams {
  import opened Wrappers
  import opened PyValues

  const Esc: byte := 0x1B
  const Csi: byte := 0x5B

  predicate IsFe(b: byte)
  {
    0x40 <= b <= 0x5A || 0x5C <= b <= 0x5F
  }

  predicate IsParameter(b: byte)
  {
    0x30 <= b <= 0x3F
  }

  predicate IsIntermediate(b: byte)
  {
    0x20 <= b <= 0x2F
  }

  predicate IsFinal(b: byte)
  {
    0x40 <= b <= 0x7E
  }

  /** Length of the longest run of bytes satisfying `p` from position `i` on. */
  function RunLength(s: seq<byte>, i: nat, p: byte -> bool): (n: nat)
    requires i <= |s|
    ensures i + n <= |s|
    ensures forall k :: i <= k < i + n ==> p(s[k])
    ensures i + n < |s| ==> !p(s[i + n])
    decreases |s| - i
  {
    if i < |s| && p(s[i]) then 1 + RunLength(s, i + 1, p) else 0
  }

  /** Length of the escape sequence starting at the head of `s`, if one does. */
  function MatchLength(s: seq<byte>): (r: Option<nat>)
    ensures r.Some? ==> 2 <= r.value <= |s| && s[0] == Esc
  {
    if |s| < 2 || s[0] != Esc then None
    else if IsFe(s[1]) then Some(2)
    else if s[1] != Csi then None
    else
      var params := RunLength(s, 2, IsParameter);
      var inters := RunLength(s, 2 + params, IsIntermediate);
      var at := 2 + params + inters;
      if at < |s| && IsFinal(s[at]) then Some(at + 1) else None
  }

  /** `filter_ansi`: every escape sequence found while scanning is deleted; every other byte is kept. */
  function FilterAnsi(s: seq<byte>): (r: seq<byte>)
    ensures |r| <= |s|
    decreases |s|
  {
    if |s| == 0 then []
    else
      match MatchLength(s)
      case Some(n) => FilterAnsi(s[n..])
      case None => [s[0]] + FilterAnsi(s[1..])
  }

  /** `sub` is obtained from `s` by deleting bytes. */
  predicate IsSubsequence(sub: seq<byte>, s: seq<byte>)
    decreases |s|
  {
    if |sub| == 0 then true
    else if |s| == 0 then false
    else if sub[0] == s[0] then IsSubsequence(sub[1..], s[1..])
    else IsSubsequence(sub, s[1..])
  }

  /** Deleting a prefix of the input keeps the subsequence relation. */
  lemma {:induction false} SubsequenceOfSuffix(sub: seq<byte>, s: seq<byte>, n: nat)
    requires n <= |s| && IsSubsequence(sub, s[n..])
    ensures IsSubsequence(sub, s)
    decreases n
  {
    if n > 0 {
      assert s[1..][n - 1..] == s[n..];
      SubsequenceOfSuffix(sub, s[1..], n - 1);
      SubsequenceExtend(sub, s);
    }
  }

  /** A subsequence of the tail is a subsequence of the whole. */
  lemma {:induction false} SubsequenceExtend(sub: seq<byte>, s: seq<byte>)
    requires |s| > 0 && IsSubsequence(sub, s[1..])
    ensures IsSubsequence(sub, s)
    decreases |s|, 0
  {
    if |sub| > 0 && sub[0] == s[0] {
      SubsequenceDropHead(sub, s[1..]);
    }
  }

  /** A subsequence stays one without its first byte. */
  lemma {:induction false} SubsequenceDropHead(sub: seq<byte>, s: seq<byte>)
    requires |sub| > 0 && IsSubsequence(sub, s)
    ensures IsSubsequence(sub[1..], s)
    decreases |s|, 1
  {
    if sub[0] == s[0] {
      SubsequenceExtend(sub[1..], s);
    } else {
      SubsequenceDropHead(sub, s[1..]);
      SubsequenceExtend(sub[1..], s);
    }
  }

  /** The output is the input with bytes deleted. */
  lemma {:induction false} FilterSubsequence(s: seq<byte>)
    ensures IsSubsequence(FilterAnsi(s), s)
    decreases |s|
  {
    if |s| > 0 {
      match MatchLength(s)
      case Some(n) =>
        FilterSubsequence(s[n..]);
        SubsequenceOfSuffix(FilterAnsi(s), s, n);
      case None =>
        FilterSubsequence(s[1..]);
        assert ([s[0]] + FilterAnsi(s[1..]))[1..] == FilterAnsi(s[1..]);
    }
  }

  /** A stream without ESC passes through unchanged. */
  lemma {:induction false} NoEscapeUnchanged(s: seq<byte>)
    requires Esc !in s
    ensures FilterAnsi(s) == s
    decreases |s|
  {
    if |s| > 0 {
      NoEscapeUnchanged(s[1..]);
      assert [s[0]] + s[1..] == s;
    }
  }

  /** The bytes of `━` (0xE2 0x94 0x81) are not touched. */
  lemma BoxDrawingKept()
    ensures FilterAnsi([0xE2, 0x94, 0x81]) == [0xE2, 0x94, 0x81]
  {
    NoEscapeUnchanged([0xE2, 0x94, 0x81]);
  }

  /** ESC and one Fe byte are deleted. */
  lemma FeDeleted(b: byte, rest: seq<byte>)
    requires IsFe(b)
    ensures FilterAnsi([Esc, b] + rest) == FilterAnsi(rest)
  {
    assert ([Esc, b] + rest)[2..] == rest;
  }

  /** ESC `[`, parameter bytes, intermediate bytes and a final byte are deleted together. */
  lemma ControlSequenceDeleted(params: seq<byte>, inters: seq<byte>, final: byte, rest: seq<byte>)
    requires forall k :: 0 <= k < |params| ==> IsParameter(params[k])
    requires forall k :: 0 <= k < |inters| ==> IsIntermediate(inters[k])
    requires IsFinal(final)
    ensures FilterAnsi([Esc, Csi] + params + inters + [final] + rest) == FilterAnsi(rest)
  {
    var s := [Esc, Csi] + params + inters + [final] + rest;
    RunOver(s, 2, params, IsParameter);
    RunOver(s, 2 + |params|, inters, IsIntermediate);
    assert s[2 + |params| + |inters|] == final;
    assert s[2 + |params| + |inters| + 1..] == rest;
  }

  /** The run starting at `i` covers exactly the bytes `run` placed there, when the byte after them fails `p`. */
  lemma RunOver(s: seq<byte>, i: nat, run: seq<byte>, p: byte -> bool)
    requires i + |run| < |s| && s[i..i + |run|] == run && !p(s[i + |run|])
    requires forall k :: 0 <= k < |run| ==> p(run[k])
    ensures RunLength(s, i, p) == |run|
  {
    assert forall k :: 0 <= k < |run| ==> s[i + k] == run[k];
  }

  /** ESC followed by neither form is kept. */
  lemma LoneEscapeKept(rest: seq<byte>)
    requires |rest| == 0 || (!IsFe(rest[0]) && rest[0] != Csi)
    ensures FilterAnsi([Esc] + rest) == [Esc] + FilterAnsi(rest)
  {
    assert ([Esc] + rest)[1..] == rest;
  }

  /** One scan is not always enough: deleting a sequence can bring an ESC next to an Fe byte. */
  lemma SinglePass()
    ensures FilterAnsi([Esc, Esc, 0x40, 0x40]) == [Esc, 0x40]
    ensures FilterAnsi([Esc, 0x40]) == []
  {
    var s: seq<byte> := [Esc, Esc, 0x40, 0x40];
    var t: seq<byte> := [Esc, 0x40, 0x40];
    var u: seq<byte> := [0x40];
    assert s[1..] == t && t[2..] == u && u[1..] == [];
    assert MatchLength(s).None?;
    assert FilterAnsi(s) == [Esc] + FilterAnsi(t);
    assert MatchLength(t) == Some(2);
    assert FilterAnsi(t) == FilterAnsi(u);
    assert MatchLength(u).None?;
    assert FilterAnsi(u) == [0x40];
    FeDeleted(0x40, []);
    assert [Esc, 0x40 as byte] + [] == [Esc, 0x40];
  }
}
