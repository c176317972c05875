/** UTF-8 byte strings, and the lossy conversion Rust applies to decoded bytes (`String::from_utf8_lossy`). */
module Utf8 {
  type Byte = n: int | 0 <= n < 256

  type Bytes = seq<Byte>

  predicate Continuation(b: Byte) { 0x80 <= b <= 0xBF }

  /** Length announced by a lead byte, 0 when no character starts with it (table 3-7 of the Unicode Standard). */
  function LeadLength(b: Byte): nat {
    if b <= 0x7F then 1
    else if 0xC2 <= b <= 0xDF then 2
    else if 0xE0 <= b <= 0xEF then 3
    else if 0xF0 <= b <= 0xF4 then 4
    else 0
  }

  /** Second bytes allowed after a lead byte: no overlong forms, no surrogates, nothing above U+10FFFF. */
  predicate SecondFits(lead: Byte, b: Byte) {
    && Continuation(b)
    && (lead == 0xE0 ==> b >= 0xA0) && (lead == 0xED ==> b <= 0x9F)
    && (lead == 0xF0 ==> b >= 0x90) && (lead == 0xF4 ==> b <= 0x8F)
  }

  /** Length of the well-formed character at the front of s, 0 when there is none. */
  function CharLength(s: Bytes): (n: nat)
    ensures n <= |s| && n <= 4
  {
    if s == [] then 0
    else
      var k := LeadLength(s[0]);
      if |s| < k then 0
      else if k >= 2 && !SecondFits(s[0], s[1]) then 0
      else if k >= 3 && !Continuation(s[2]) then 0
      else if k == 4 && !Continuation(s[3]) then 0
      else k
  }

  /** Length of the ill-formed piece at the front of s that one replacement character stands for. */
  function BadLength(s: Bytes): (n: nat)
    requires s != []
    ensures 1 <= n <= |s|
  {
    var k := LeadLength(s[0]);
    if k < 2 || |s| < 2 || !SecondFits(s[0], s[1]) then 1
    else if |s| < 3 || !Continuation(s[2]) then 2
    else 3
  }

  /** p is the beginning of a well-formed character, but not all of it. */
  predicate Unfinished(p: Bytes) {
    && p != [] && |p| < LeadLength(p[0])
    && (|p| >= 2 ==> SecondFits(p[0], p[1])) && (|p| >= 3 ==> Continuation(p[2]))
  }

  /** A second byte that fits the lead byte. */
  function SomeSecond(lead: Byte): Byte { if lead == 0xE0 then 0xA0 else if lead == 0xF0 then 0x90 else 0x80 }

  lemma UnfinishedCanFinish(p: Bytes) returns (rest: Bytes)
    requires Unfinished(p)
    ensures rest != [] && CharLength(p + rest) == |p| + |rest|
  {
    var k := LeadLength(p[0]);
    if |p| == 1 {
      rest := [SomeSecond(p[0]), 0x80, 0x80][..k - 1];
    } else {
      rest := [0x80, 0x80][..k - |p|];
    }
    var c := p + rest;
    assert |c| == k && c[0] == p[0] && SecondFits(c[0], c[1]);
    assert k >= 3 ==> Continuation(c[2]);
    assert k == 4 ==> Continuation(c[3]);
  }

  lemma FinishedWasUnfinished(p: Bytes, rest: Bytes)
    requires p != [] && rest != [] && CharLength(p + rest) == |p| + |rest|
    ensures Unfinished(p)
  {}

  /** An ill-formed piece is the longest unfinished character at the front, or a single byte (the maximal subpart of
    * section 3.9 of the Unicode Standard). */
  lemma BadLengthIsMaximal(s: Bytes, m: nat)
    requires s != [] && CharLength(s) == 0
    ensures BadLength(s) > 1 ==> Unfinished(s[..BadLength(s)])
    ensures BadLength(s) < m <= |s| ==> !Unfinished(s[..m])
  {}

  const REPLACEMENT: Bytes := [0xEF, 0xBF, 0xBD]

  predicate Valid(s: Bytes)
    decreases |s|
  {
    s == [] || (CharLength(s) > 0 && Valid(s[CharLength(s)..]))
  }

  function FromUtf8Lossy(s: Bytes): Bytes
    decreases |s|
  {
    if s == [] then []
    else if CharLength(s) > 0 then s[..CharLength(s)] + FromUtf8Lossy(s[CharLength(s)..])
    else REPLACEMENT + FromUtf8Lossy(s[BadLength(s)..])
  }

  /** Only the front of the string decides its first character. */
  lemma CharLengthIsLocal(c: Bytes, rest: Bytes)
    requires CharLength(c) == |c| > 0
    ensures CharLength(c + rest) == |c|
  {}

  lemma ValidCons(c: Bytes, rest: Bytes)
    requires CharLength(c) == |c| > 0 && Valid(rest)
    ensures Valid(c + rest)
  {
    CharLengthIsLocal(c, rest);
    assert (c + rest)[|c|..] == rest;
  }

  lemma FrontChar(s: Bytes)
    requires CharLength(s) > 0
    ensures CharLength(s[..CharLength(s)]) == CharLength(s)
  {}

  /** A well-formed character in front, and what became of the rest. */
  lemma LossyCons(s: Bytes, n: nat, tail: Bytes)
    requires CharLength(s) == n > 0 && Valid(tail) && (Valid(s[n..]) <==> tail == s[n..])
    ensures Valid(s[..n] + tail)
    ensures Valid(s) <==> s[..n] + tail == s
  {
    FrontChar(s);
    ValidCons(s[..n], tail);
    assert s == s[..n] + s[n..];
    assert (s[..n] + tail)[n..] == tail;
  }

  /** The conversion changes nothing in valid UTF-8, and its result is always valid. */
  lemma {:induction false} LossyKeepsValid(s: Bytes)
    ensures Valid(FromUtf8Lossy(s))
    ensures Valid(s) <==> FromUtf8Lossy(s) == s
    decreases |s|
  {
    if s != [] {
      var n := CharLength(s);
      if n > 0 {
        LossyKeepsValid(s[n..]);
        LossyCons(s, n, FromUtf8Lossy(s[n..]));
      } else {
        LossyKeepsValid(s[BadLength(s)..]);
        ValidCons(REPLACEMENT, FromUtf8Lossy(s[BadLength(s)..]));
      }
    }
  }

  lemma LossyChar(c: Bytes, rest: Bytes)
    requires CharLength(c) == |c| > 0
    ensures FromUtf8Lossy(c + rest) == c + FromUtf8Lossy(rest)
  {
    CharLengthIsLocal(c, rest);
    assert (c + rest)[|c|..] == rest && (c + rest)[..|c|] == c;
  }

  lemma LossyPrefixStep(c: Bytes, rest: Bytes, b: Bytes, tail: Bytes)
    requires CharLength(c) == |c| > 0 && FromUtf8Lossy(rest + b) == rest + tail
    ensures FromUtf8Lossy(c + rest + b) == c + rest + tail
  {
    LossyChar(c, rest + b);
    assert c + rest + b == c + (rest + b);
  }

  /** What is well-formed at the front stays, whatever follows. */
  lemma {:induction false} LossyKeepsPrefix(a: Bytes, b: Bytes)
    requires Valid(a)
    ensures FromUtf8Lossy(a + b) == a + FromUtf8Lossy(b)
    decreases |a|
  {
    if a == [] {
      assert a + b == b;
    } else {
      var n := CharLength(a);
      FrontChar(a);
      LossyKeepsPrefix(a[n..], b);
      LossyPrefixStep(a[..n], a[n..], b, FromUtf8Lossy(b));
      assert a[..n] + a[n..] == a;
    }
  }

  /** An ASCII byte put in place of an ASCII byte keeps a string valid. */
  function Swap(s: Bytes, from: Byte, to: Byte): (r: Bytes)
    ensures |r| == |s|
  {
    seq(|s|, i requires 0 <= i < |s| => if s[i] == from then to else s[i])
  }

  lemma {:induction false} SwapKeepsValid(s: Bytes, from: Byte, to: Byte)
    requires from < 0x80 && to < 0x80 && Valid(s)
    ensures Valid(Swap(s, from, to))
    decreases |s|
  {
    if s != [] {
      var n, t := CharLength(s), Swap(s, from, to);
      SwapKeepsValid(s[n..], from, to);
      assert t[n..] == Swap(s[n..], from, to);
      assert CharLength(t) == n;
    }
  }
}
