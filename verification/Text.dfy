/**
 Line endings. Text crosses with CR LF; each end converts between that and its
 own convention as the bytes come, remembering one bit from one piece to the
 next.
 */
module Text {
  import opened Bytes

  datatype LineEnding = Lf | CrLf

  // ------------------------------------------------------------------
  // Going onto the line
  // ------------------------------------------------------------------

  function ToLine(afterCr: bool, data: seq<byte>): (out: seq<byte>)
    ensures |data| <= |out| <= 2 * |data|
    decreases |data|
  {
    if data == [] then [] else ByteToLine(afterCr, data[0]) + ToLine(data[0] == CR, data[1..])
  }

  function ByteToLine(afterCr: bool, b: byte): seq<byte> {
    if b == LF && !afterCr then [CR, b] else [b]
  }

  /** Whether the last byte so far was a carriage return. */
  function EndsInCr(afterCr: bool, data: seq<byte>): bool {
    if data == [] then afterCr else data[|data| - 1] == CR
  }

  class ToLineConverter {
    var afterCr: bool

    constructor ()
      ensures !afterCr
    {
      afterCr := false;
    }

    method Convert(data: seq<byte>) returns (out: seq<byte>)
      modifies this
      ensures out == ToLine(old(afterCr), data)
      ensures afterCr == EndsInCr(old(afterCr), data)
    {
      out := [];
      for i := 0 to |data|
        invariant out == ToLine(old(afterCr), data[..i])
        invariant afterCr == EndsInCr(old(afterCr), data[..i])
      {
        hide ToLine;
        assert data[..i + 1] == data[..i] + [data[i]];
        ToLineInPieces(old(afterCr), data[..i], [data[i]]);
        ToLineOne(afterCr, data[i]);
        if data[i] == LF && !afterCr {
          out := out + [CR];
        }
        out := out + [data[i]];
        afterCr := data[i] == CR;
      }
      assert data[..|data|] == data;
    }
  }

  lemma ToLineNext(afterCr: bool, data: seq<byte>)
    ensures ToLine(afterCr, data) == if data == [] then [] else ByteToLine(afterCr, data[0]) + ToLine(data[0] == CR, data[1..])
  {
    hide ByteToLine;
  }

  lemma ToLineOne(afterCr: bool, b: byte)
    ensures ToLine(afterCr, [b]) == ByteToLine(afterCr, b)
  {
    assert ToLine(b == CR, [b][1..]) == [];
  }

  /** The same result for every way of splitting the input. */
  lemma {:induction false} ToLineInPieces(afterCr: bool, a: seq<byte>, b: seq<byte>)
    ensures ToLine(afterCr, a + b) == ToLine(afterCr, a) + ToLine(EndsInCr(afterCr, a), b)
    ensures EndsInCr(afterCr, a + b) == EndsInCr(EndsInCr(afterCr, a), b)
    decreases |a|
  {
    hide ByteToLine, ToLine;
    if a == [] {
      assert a + b == b && ToLine(afterCr, []) == [] by { ToLineNext(afterCr, []); }
    } else {
      var cr := a[0] == CR;
      assert (a + b)[1..] == a[1..] + b && (a + b)[0] == a[0];
      ToLineInPieces(cr, a[1..], b);
      assert EndsInCr(afterCr, a) == EndsInCr(cr, a[1..]);
      ToLineNext(afterCr, a + b);
      ToLineNext(afterCr, a);
    }
  }

  /** Every line feed comes after a carriage return. */
  ghost predicate Lined(afterCr: bool, data: seq<byte>) {
    && (data != [] && data[0] == LF ==> afterCr)
    && forall i | 0 < i < |data| && data[i] == LF :: data[i - 1] == CR
  }

  lemma {:induction false} ToLineIsLined(afterCr: bool, data: seq<byte>)
    ensures Lined(afterCr, ToLine(afterCr, data))
    decreases |data|
  {
    if data != [] {
      ToLineIsLined(data[0] == CR, data[1..]);
      var rest := ToLine(data[0] == CR, data[1..]);
      assert ToLine(afterCr, data) == ByteToLine(afterCr, data[0]) + rest;
    }
  }

  lemma {:induction false} LinedIsKept(afterCr: bool, data: seq<byte>)
    requires Lined(afterCr, data)
    ensures ToLine(afterCr, data) == data
    decreases |data|
  {
    if data != [] {
      assert Lined(data[0] == CR, data[1..]) by {
        forall i | 0 < i < |data| - 1 && data[1..][i] == LF ensures data[1..][i - 1] == CR {
          assert data[i + 1] == LF;
        }
        assert data[1..] != [] && data[1..][0] == LF ==> data[1] == LF;
      }
      LinedIsKept(data[0] == CR, data[1..]);
    }
  }

  /** Converting twice is converting once. */
  lemma ToLineIdempotent(afterCr: bool, data: seq<byte>)
    ensures ToLine(afterCr, ToLine(afterCr, data)) == ToLine(afterCr, data)
  {
    ToLineIsLined(afterCr, data);
    LinedIsKept(afterCr, ToLine(afterCr, data));
  }

  // ------------------------------------------------------------------
  // Coming off the line
  // ------------------------------------------------------------------

  function FromLine(local: LineEnding, held: bool, data: seq<byte>): seq<byte>
    decreases |data|
  {
    if local.CrLf? then data
    else if data == [] then []
    else ByteFromLine(held, data[0]) + FromLine(local, data[0] == CR, data[1..])
  }

  function ByteFromLine(held: bool, b: byte): seq<byte> {
    (if held && b != LF then [CR] else []) + (if b == CR then [] else [b])
  }

  /** Whether a carriage return is still waiting for what follows it. */
  function Held(local: LineEnding, held: bool, data: seq<byte>): bool {
    if local.CrLf? || data == [] then held else data[|data| - 1] == CR
  }

  function Finish(held: bool): seq<byte> { if held then [CR] else [] }

  /** A whole file as it is kept. */
  function Kept(local: LineEnding, data: seq<byte>): seq<byte> {
    FromLine(local, false, data) + Finish(Held(local, false, data))
  }

  class FromLineConverter {
    const local: LineEnding
    var held: bool

    constructor (local: LineEnding)
      ensures this.local == local && !held
    {
      this.local := local;
      held := false;
    }

    method Convert(data: seq<byte>) returns (out: seq<byte>)
      modifies this
      ensures out == FromLine(local, old(held), data)
      ensures held == Held(local, old(held), data)
    {
      if local == CrLf {
        return data;
      }
      hide FromLine, Held;
      out := [];
      FromLineNothing(local, held);
      for i := 0 to |data|
        invariant out == FromLine(local, old(held), data[..i])
        invariant held == Held(local, old(held), data[..i])
      {
        assert data[..i + 1] == data[..i] + [data[i]];
        FromLineInPieces(local, old(held), data[..i], [data[i]]);
        FromLineOne(local, held, data[i]);
        ghost var was := out;
        var waiting := held;
        held := false;
        if waiting && data[i] != LF {
          out := out + [CR];
        }
        if data[i] == CR {
          held := true;
        } else {
          out := out + [data[i]];
        }
        assert out == was + ByteFromLine(waiting, data[i]);
      }
      assert data[..|data|] == data;
    }

    method Finished() returns (out: seq<byte>)
      modifies this
      ensures out == Finish(old(held)) && !held
    {
      out := [];
      if held {
        held := false;
        out := out + [CR];
      }
    }
  }

  lemma FromLineNothing(local: LineEnding, held: bool)
    ensures FromLine(local, held, []) == [] && Held(local, held, []) == held
  {
  }

  lemma FromLineOne(local: LineEnding, held: bool, b: byte)
    ensures FromLine(local, held, [b]) == if local.CrLf? then [b] else ByteFromLine(held, b)
    ensures Held(local, held, [b]) == if local.CrLf? then held else b == CR
  {
    assert local.Lf? ==> FromLine(local, b == CR, [b][1..]) == [];
  }

  /** The same result for every way of splitting the input. */
  lemma {:induction false} FromLineInPieces(local: LineEnding, held: bool, a: seq<byte>, b: seq<byte>)
    ensures FromLine(local, held, a + b) == FromLine(local, held, a) + FromLine(local, Held(local, held, a), b)
    ensures Held(local, held, a + b) == Held(local, Held(local, held, a), b)
    decreases |a|
  {
    hide ByteFromLine;
    if a == [] {
      assert a + b == b;
    } else if local.Lf? {
      var cr := a[0] == CR;
      assert (a + b)[1..] == a[1..] + b && (a + b)[0] == a[0];
      FromLineInPieces(local, cr, a[1..], b);
      assert Held(local, held, a) == Held(local, cr, a[1..]);
      assert FromLine(local, held, a + b) == ByteFromLine(held, a[0]) + FromLine(local, cr, a[1..] + b);
      assert FromLine(local, held, a) == ByteFromLine(held, a[0]) + FromLine(local, cr, a[1..]);
    }
  }

  /** What has been written before the end is a beginning of what will be kept. */
  lemma WrittenIsPrefix(local: LineEnding, data: seq<byte>, n: nat)
    requires n <= |data|
    ensures FromLine(local, false, data[..n]) <= Kept(local, data)
  {
    assert data == data[..n] + data[n..];
    FromLineInPieces(local, false, data[..n], data[n..]);
  }

  // ------------------------------------------------------------------
  // There and back
  // ------------------------------------------------------------------

  /** Each CR LF replaced by LF, and nothing else. */
  function Replaced(data: seq<byte>): (out: seq<byte>)
    ensures |out| <= |data|
  {
    if data == [] then []
    else if |data| > 1 && data[0] == CR && data[1] == LF then [LF] + Replaced(data[2..])
    else [data[0]] + Replaced(data[1..])
  }

  predicate HasCrLf(data: seq<byte>) {
    exists i | 0 <= i < |data| - 1 :: data[i] == CR && data[i + 1] == LF
  }

  /** All that comes of `data` when a carriage return may be waiting before it. */
  function Through(held: bool, data: seq<byte>): seq<byte> {
    FromLine(Lf, held, data) + Finish(Held(Lf, held, data))
  }

  lemma ThroughByBytes(held: bool, b: byte, rest: seq<byte>)
    ensures Through(held, [b] + rest) == ByteFromLine(held, b) + Through(b == CR, rest)
  {
    hide ByteFromLine;
    var all := [b] + rest;
    assert all[0] == b && all[1..] == rest;
    assert Held(Lf, held, all) == Held(Lf, b == CR, rest);
  }

  /** A conversion to the line's form is undone but for what it left alone. */
  lemma {:induction false} ToLineThrough(held: bool, data: seq<byte>)
    ensures Through(held, ToLine(held, data)) == Through(held, data)
    decreases |data|
  {
    hide Through;
    if data != [] {
      var b, rest := data[0], ToLine(data[0] == CR, data[1..]);
      assert data == [b] + data[1..];
      ThroughByBytes(held, b, data[1..]);
      ToLineThrough(b == CR, data[1..]);
      if b == LF && !held {
        assert ToLine(held, data) == [CR] + ([LF] + rest);
        ThroughByBytes(held, CR, [LF] + rest);
        ThroughByBytes(true, LF, rest);
        assert ByteFromLine(false, CR) == [] && ByteFromLine(true, LF) == [LF] == ByteFromLine(false, LF);
      } else {
        assert ToLine(held, data) == [b] + rest;
        ThroughByBytes(held, b, rest);
      }
    }
  }

  lemma ReplacedByBytes(b: byte, rest: seq<byte>)
    ensures Replaced([b] + rest)
         == if b == CR && rest != [] && rest[0] == LF then [LF] + Replaced(rest[1..]) else [b] + Replaced(rest)
  {
    var all := [b] + rest;
    assert all[1..] == rest;
    if rest != [] {
      assert all[2..] == rest[1..];
    }
  }

  lemma ThroughNothing(held: bool)
    ensures Through(held, []) == Replaced(if held then [CR] + [] else [])
  {
    assert Replaced([CR]) == [CR];
  }

  lemma {:induction false} ThroughReplaces(held: bool, data: seq<byte>)
    ensures Through(held, data) == Replaced(if held then [CR] + data else data)
    decreases |data|
  {
    hide Through, Replaced;
    if data == [] {
      ThroughNothing(held);
    } else {
      var b, rest := data[0], data[1..];
      assert data == [b] + rest;
      ThroughByBytes(held, b, rest);
      ThroughReplaces(b == CR, rest);
      ReplacedByBytes(b, rest);
      if held {
        ReplacedByBytes(CR, data);
        assert ByteFromLine(held, b) == if b == LF then [LF] else if b == CR then [CR] else [CR, b];
        assert b != CR ==> [CR, b] + Replaced(rest) == [CR] + ([b] + Replaced(rest));
      }
    }
  }

  /** A text file that makes the trip comes back with each CR LF a line feed. */
  lemma RoundTripReplaces(data: seq<byte>)
    ensures Kept(Lf, ToLine(false, data)) == Replaced(data)
  {
    ToLineThrough(false, data);
    ThroughReplaces(false, data);
  }

  lemma {:induction false} ReplacedIsSameExactly(data: seq<byte>)
    ensures Replaced(data) == data <==> !HasCrLf(data)
    ensures HasCrLf(data) ==> |Replaced(data)| < |data|
  {
    if data != [] {
      if |data| > 1 && data[0] == CR && data[1] == LF {
        assert HasCrLf(data);
      } else {
        ReplacedIsSameExactly(data[1..]);
        if HasCrLf(data) {
          var i :| 0 <= i < |data| - 1 && data[i] == CR && data[i + 1] == LF;
          assert data[1..][i - 1] == CR && data[1..][i] == LF;
        }
        if HasCrLf(data[1..]) {
          var i :| 0 <= i < |data| - 2 && data[1..][i] == CR && data[1..][i + 1] == LF;
          assert data[i + 1] == CR && data[i + 2] == LF;
        }
        assert Replaced(data)[1..] == Replaced(data[1..]);
      }
    }
  }

  /** It comes back unchanged exactly when it had no CR LF to begin with. */
  lemma RoundTripExactly(data: seq<byte>)
    ensures Kept(Lf, ToLine(false, data)) == data <==> !HasCrLf(data)
  {
    RoundTripReplaces(data);
    ReplacedIsSameExactly(data);
  }
}
