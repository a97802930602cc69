/** The option datatype used throughout. */
module Options {
  datatype Option<+T> = None | Some(value: T)
}

/**
 Bytes and the three character conversions of the protocol
 (`tochar`, `unchar` and `ctl`). A byte is an integer below 256, so the
 wrapping additions of the program are written out with `%`.
 */
module Bytes {
  type byte = x: int | 0 <= x < 256

  const CR: byte := 13
  const LF: byte := 10
  const MARK: byte := 1

  /** The largest value `ToChar` carries as a printable character. */
  const MAX_COUNT := 94

  function ToChar(n: byte): byte { (n + 32) % 256 }

  function UnChar(c: byte): byte { (c + 224) % 256 }

  /** `c ^ 64`: flips the bit of value 64. */
  function Ctl(c: byte): byte {
    if 64 <= c < 128 || 192 <= c then c - 64 else c + 64
  }

  function Min(a: int, b: int): int { if a < b then a else b }

  function Max(a: int, b: int): int { if a < b then b else a }

  /** `n` copies of one byte. */
  function Repeat(b: byte, n: nat): (r: seq<byte>)
    ensures |r| == n && forall i | 0 <= i < n :: r[i] == b
  {
    seq(n, i => b)
  }

  /** Where `b` first occurs, or the length when it does not. */
  function Find(s: seq<byte>, b: byte): (at: nat)
    ensures at <= |s| && b !in s[..at]
    ensures at < |s| ==> s[at] == b
  {
    if s == [] || s[0] == b then 0
    else
      var at := Find(s[1..], b);
      assert s[..1 + at] == [s[0]] + s[1..][..at];
      1 + at
  }

  lemma {:induction false} FindAfter(noise: seq<byte>, b: byte, rest: seq<byte>)
    requires b !in noise && rest != [] && rest[0] == b
    ensures Find(noise + rest, b) == |noise|
  {
    if noise == [] {
      assert noise + rest == rest;
    } else {
      assert (noise + rest)[1..] == noise[1..] + rest;
      FindAfter(noise[1..], b, rest);
    }
  }

  lemma {:induction false} FindNowhere(s: seq<byte>, b: byte)
    requires b !in s
    ensures Find(s, b) == |s|
  {
    if s != [] {
      FindNowhere(s[1..], b);
    }
  }

  /** A first occurrence stays the first when more is appended. */
  lemma FindStable(s: seq<byte>, more: seq<byte>, b: byte)
    requires Find(s, b) < |s|
    ensures Find(s + more, b) == Find(s, b)
  {
    var at := Find(s, b);
    FindAfter(s[..at], b, s[at..] + more);
    assert s + more == s[..at] + (s[at..] + more);
  }
}
