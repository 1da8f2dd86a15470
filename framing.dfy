/**
 * Telling a batch from a single request: skip the insignificant whitespace at
 * the head of the stream and look at the first byte that is left
 * (jsonrpc/server.go, lines 315-330). The reader is peeked and discarded, so
 * the decoder that follows sees the stream from that byte on.
 */
module Framing {
  import opened Wrappers
  import opened Json

  const Space: byte := 0x20
  const Tab: byte := 0x09
  const CarriageReturn: byte := 0x0D
  const LineFeed: byte := 0x0A
  const LeftBracket: byte := 0x5B

  /** The four whitespace bytes JSON allows between tokens; no others are skipped. */
  predicate IsWhitespace(b: byte) {
    b == Space || b == Tab || b == CarriageReturn || b == LineFeed
  }

  /** The length of the longest whitespace prefix of `s`. */
  function SkipWhitespace(s: seq<byte>): (n: nat)
    ensures n <= |s|
    ensures forall i :: 0 <= i < n ==> IsWhitespace(s[i])
    ensures n < |s| ==> !IsWhitespace(s[n])
  {
    if s != [] && IsWhitespace(s[0]) then 1 + SkipWhitespace(s[1..]) else 0
  }

  /** The stream holds a batch when its first significant byte opens an array. */
  predicate StartsBatch(s: seq<byte>) {
    var n := SkipWhitespace(s);
    n < |s| && s[n] == LeftBracket
  }

  /** What the decoder gets to read once the whitespace is gone. */
  function Significant(s: seq<byte>): seq<byte> {
    s[SkipWhitespace(s)..]
  }

  /** Empty or all-whitespace input is never a batch. */
  lemma BlankIsNotBatch(s: seq<byte>)
    requires forall i :: 0 <= i < |s| ==> IsWhitespace(s[i])
    ensures !StartsBatch(s) && Significant(s) == []
  {
  }

  /** Leading whitespace does not change the verdict or what the decoder reads. */
  lemma {:induction false} WhitespaceIsInsignificant(w: seq<byte>, s: seq<byte>)
    requires forall i :: 0 <= i < |w| ==> IsWhitespace(w[i])
    ensures SkipWhitespace(w + s) == |w| + SkipWhitespace(s)
    ensures StartsBatch(w + s) == StartsBatch(s)
    ensures Significant(w + s) == Significant(s)
  {
    if w != [] {
      assert (w + s)[1..] == w[1..] + s;
      WhitespaceIsInsignificant(w[1..], s);
    } else {
      assert w + s == s;
    }
  }

  /**
   * Only the bytes up to the first significant one are looked at: whatever
   * follows it never changes the verdict.
   */
  lemma {:induction false} LookaheadStopsAtFirstSignificantByte(s: seq<byte>, t: seq<byte>)
    requires exists i :: 0 <= i < |s| && !IsWhitespace(s[i])
    ensures SkipWhitespace(s + t) == SkipWhitespace(s)
    ensures StartsBatch(s + t) == StartsBatch(s)
  {
    if IsWhitespace(s[0]) {
      var i :| 0 <= i < |s| && !IsWhitespace(s[i]);
      assert 0 <= i - 1 < |s[1..]| && !IsWhitespace(s[1..][i - 1]);
      assert (s + t)[1..] == s[1..] + t;
      LookaheadStopsAtFirstSignificantByte(s[1..], t);
    }
  }

  /**
   * A buffered reader over the request stream: `data` is everything the
   * stream will yield and `pos` how much of it has been consumed.
   */
  class ByteReader {
    var data: seq<byte>
    var pos: nat

    ghost predicate Valid()
      reads this
    {
      pos <= |data|
    }

    constructor (data: seq<byte>)
      ensures Valid() && this.data == data && pos == 0
    {
      this.data := data;
      pos := 0;
    }

    /** The bytes not yet consumed. */
    function Unread(): seq<byte>
      reads this
      requires Valid()
    {
      data[pos..]
    }

    /** Look at the next byte without consuming it; None at end of stream. */
    function Peek(): Option<byte>
      reads this
      requires Valid()
    {
      if pos < |data| then Some(data[pos]) else None
    }

    /** Consume one byte, reporting how many were consumed. */
    method Discard() returns (discarded: nat)
      requires Valid()
      modifies this`pos
      ensures Valid()
      ensures discarded == (if old(pos) < |data| then 1 else 0)
      ensures pos == old(pos) + discarded
    {
      if pos < |data| {
        pos := pos + 1;
        discarded := 1;
      } else {
        discarded := 0;
      }
    }
  }

  /**
   * Peek and discard whitespace until another byte shows; report whether
   * that byte is `[`. The byte itself stays unread.
   */
  method IsBatch(reader: ByteReader) returns (batch: bool)
    requires reader.Valid()
    modifies reader
    ensures reader.Valid() && reader.data == old(reader.data)
    ensures batch == StartsBatch(old(reader.Unread()))
    ensures reader.Unread() == Significant(old(reader.Unread()))
  {
    ghost var start := reader.Unread();
    ghost var skipped := 0;
    while true
      invariant reader.Valid() && reader.data == old(reader.data)
      invariant skipped <= |start| && reader.Unread() == start[skipped..]
      invariant SkipWhitespace(start) == skipped + SkipWhitespace(reader.Unread())
      decreases |reader.data| - reader.pos
    {
      var next := reader.Peek();
      if next.None? {
        break;
      }
      if IsWhitespace(next.value) {
        var discarded := reader.Discard();
        if discarded != 1 {
          break;
        }
        assert start[skipped..][1..] == start[skipped + 1..];
        skipped := skipped + 1;
        continue;
      }
      return next.value == LeftBracket;
    }
    return false;
  }
}
