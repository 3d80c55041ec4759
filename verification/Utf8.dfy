/** UTF-8 at byte level, and the two places that cut encoded text: chunking for task-plan
    fragments and the byte-bounded prefix used for tool output. */
module Utf8 {
  import opened Text
  import opened Wrappers

  type Byte = b: int | 0 <= b < 256

  function Bytes(c: Scalar): (bs: seq<Byte>)
    ensures |bs| == Width(c)
  {
    var c1 := c / 64;
    var c2 := c1 / 64;
    if c < 0x80 then [c]
    else if c < 0x800 then [0xC0 + c1, 0x80 + c % 64]
    else if c < 0x1_0000 then [0xE0 + c2, 0x80 + c1 % 64, 0x80 + c % 64]
    else [0xF0 + c2 / 64, 0x80 + c2 % 64, 0x80 + c1 % 64, 0x80 + c % 64]
  }

  function Encode(t: Text): (bs: seq<Byte>)
    ensures |bs| == Size(t)
  {
    if t == [] then [] else Bytes(t[0]) + Encode(t[1..])
  }

  /** Length announced by a lead byte; 0 when the byte cannot start a scalar. */
  function Announced(b: Byte): nat {
    if b < 0x80 then 1 else if b < 0xC0 then 0
    else if b < 0xE0 then 2 else if b < 0xF0 then 3 else if b < 0xF8 then 4 else 0
  }

  function Assemble(bs: seq<Byte>): int
    requires 1 <= |bs| <= 4
  {
    var lead: int := bs[0];
    if |bs| == 1 then lead
    else if |bs| == 2 then (lead - 0xC0) * 64 + Tail(bs[1])
    else if |bs| == 3 then (lead - 0xE0) * 4096 + Tail(bs[1]) * 64 + Tail(bs[2])
    else (lead - 0xF0) * 26_2144 + Tail(bs[1]) * 4096 + Tail(bs[2]) * 64 + Tail(bs[3])
  }

  /** The six bits of a continuation byte. */
  function Tail(b: int): int { b - 0x80 }

  /** The scalar at the front of `bs`, if one is completely and canonically encoded there. */
  function First(bs: seq<Byte>): (r: Option<Scalar>)
    requires bs != []
    ensures r.Some? ==> Width(r.value) == Announced(bs[0]) <= |bs|
  {
    var n := Announced(bs[0]);
    if n == 0 || |bs| < n || exists i :: 1 <= i < n && !(0x80 <= bs[i] < 0xC0) then None
    else
      var c := Assemble(bs[..n]);
      if IsScalar(c) && Width(c) == n then Some(c) else None
  }

  /** Strict decoding: the text before the first error, and whether there was none. The error starts at
      byte `Size(text)`. */
  datatype Decoded = Decoded(text: Text, complete: bool)

  function Decode(bs: seq<Byte>): Decoded
    decreases |bs|
  {
    if bs == [] then Decoded([], true)
    else
      match First(bs)
      case None => Decoded([], false)
      case Some(c) =>
        Prepend([c], Decode(bs[Width(c)..]))
  }

  function Prepend(front: Text, d: Decoded): Decoded { Decoded(front + d.text, d.complete) }

  /** How many leading scalars of `t` fit in `n` bytes. */
  function Fit(t: Text, n: nat): (k: nat)
    ensures k <= |t|
  {
    if t == [] || Width(t[0]) > n then 0 else 1 + Fit(t[1..], n - Width(t[0]))
  }

  lemma AssembleBytes(c: Scalar)
    ensures Announced(Bytes(c)[0]) == Width(c) && Assemble(Bytes(c)) == c
  {
    var c1 := c / 64;
    var c2 := c1 / 64;
    assert c == 64 * c1 + c % 64 && c1 == 64 * c2 + c1 % 64 && c2 == 64 * (c2 / 64) + c2 % 64;
    assert c >= 0x1_0000 ==> c2 / 64 < 8;
  }

  lemma DecodeWhole(c: Scalar, tail: seq<Byte>)
    ensures Decode(Bytes(c) + tail) == Prepend([c], Decode(tail))
  {
    AssembleBytes(c);
    assert (Bytes(c) + tail)[..Width(c)] == Bytes(c) && (Bytes(c) + tail)[Width(c)..] == tail;
  }

  lemma DecodeSplit(c: Scalar, n: nat)
    requires 0 < n < Width(c)
    ensures Decode(Bytes(c)[..n]) == Decoded([], false)
  {
    AssembleBytes(c);
  }

  /** The scalars counted by `Fit` are the longest prefix within `n` bytes. */
  lemma {:induction false} FitIsLongest(t: Text, n: nat)
    ensures Longest(Utf8Bytes, t, n, Fit(t, n))
  {
    var k := Fit(t, n);
    if t != [] {
      if Width(t[0]) > n {
        assert t[..1][1..] == [];
      } else {
        FitIsLongest(t[1..], n - Width(t[0]));
        assert t[..k][1..] == t[1..][..k - 1];
        if k < |t| { assert t[..k + 1][1..] == t[1..][..k]; }
      }
    }
  }

  lemma {:induction false} EncodeConcat(a: Text, b: Text)
    ensures Encode(a + b) == Encode(a) + Encode(b)
  {
    if a == [] {
      assert a + b == b;
    } else {
      assert (a + b)[1..] == a[1..] + b;
      EncodeConcat(a[1..], b);
    }
  }

  lemma {:induction false} DecodeAfter(a: Text, tail: seq<Byte>)
    ensures Decode(Encode(a) + tail) == Prepend(a, Decode(tail))
  {
    if a == [] {
      assert Encode(a) + tail == tail;
    } else {
      var rest := Encode(a[1..]) + tail;
      assert Encode(a) + tail == Bytes(a[0]) + rest;
      calc {
        Decode(Encode(a) + tail);
        Decode(Bytes(a[0]) + rest);
        { DecodeWhole(a[0], rest); }
        Prepend([a[0]], Decode(rest));
        { DecodeAfter(a[1..], tail); }
        Prepend([a[0]], Prepend(a[1..], Decode(tail)));
        { assert [a[0]] + (a[1..] + Decode(tail).text) == a + Decode(tail).text; }
        Prepend(a, Decode(tail));
      }
    }
  }

  lemma CutMiddle(a: seq<Byte>, b: seq<Byte>, c: seq<Byte>, n: nat)
    requires |a| <= n <= |a| + |b|
    ensures (a + (b + c))[..n] == a + b[..n - |a|]
  {
  }

  lemma EncodeSplit(t: Text, n: nat, k: nat)
    requires Longest(Utf8Bytes, t, n, k) && n <= Size(t)
    ensures n == Size(t[..k]) ==> Encode(t)[..n] == Encode(t[..k]) + []
    ensures n != Size(t[..k]) ==> k < |t| && Size(t[..k]) < n < Size(t[..k]) + Width(t[k])
                                  && Encode(t)[..n] == Encode(t[..k]) + Bytes(t[k])[..n - Size(t[..k])]
  {
    var front, back := t[..k], t[k..];
    assert t == front + back;
    EncodeConcat(front, back);
    if n == Size(front) {
      CutMiddle(Encode(front), [], Encode(back), n);
      assert [] + Encode(back) == Encode(back);
    } else {
      assert t[..|t|] == t;
      WeightNext(t, k);
      assert back[0] == t[k];
      CutMiddle(Encode(front), Bytes(t[k]), Encode(back[1..]), n);
    }
  }

  lemma WeightNext(t: Text, k: nat)
    requires k < |t|
    ensures Size(t[..k + 1]) == Size(t[..k]) + Width(t[k])
  {
    assert t[..k + 1] == t[..k] + [t[k]];
    WeightConcat(Utf8Bytes, t[..k], [t[k]]);
  }

  /** Cutting an encoding at any byte and decoding gives exactly the scalars that lie whole before the
      cut, and reports an error precisely when the cut splits one. */
  lemma DecodeCut(t: Text, n: nat, k: nat)
    requires Longest(Utf8Bytes, t, n, k) && n <= Size(t)
    ensures Decode(Encode(t)[..n]) == Decoded(t[..k], Size(t[..k]) == n)
  {
    var size := Size(t[..k]);
    EncodeSplit(t, n, k);
    if n == size {
      DecodeAfter(t[..k], []);
    } else {
      var split := Bytes(t[k])[..n - size];
      calc {
        Decode(Encode(t)[..n]);
        Decode(Encode(t[..k]) + split);
        { DecodeAfter(t[..k], split); }
        Prepend(t[..k], Decode(split));
        { DecodeSplit(t[k], n - size); }
        Decoded(t[..k], false);
      }
    }
  }

  /** Decoding undoes encoding. */
  lemma DecodeEncode(t: Text)
    ensures Decode(Encode(t)) == Decoded(t, true)
  {
    DecodeAfter(t, []);
    assert Encode(t) + [] == Encode(t);
  }

  /** The byte-bounded prefix of a text. */
  function Prefix(t: Text, limit: nat): Text { t[..Fit(t, limit)] }

  /** It is what encoding, cutting at `limit` bytes and decoding with errors ignored gives: the only error a cut
      encoding can hold is its split tail. */
  lemma PrefixDecodes(t: Text, limit: nat)
    ensures Prefix(t, limit) == Decode(Encode(t)[..if limit < Size(t) then limit else Size(t)]).text
  {
    var n := if limit < Size(t) then limit else Size(t);
    var k := Fit(t, limit);
    FitIsLongest(t, limit);
    assert t[..|t|] == t;
    if k < |t| { WeightPrefix(Utf8Bytes, t, k + 1, |t|); }
    DecodeCut(t, n, k);
  }

  /** The bounded prefix is the longest one that fits. */
  lemma PrefixIsLongest(t: Text, limit: nat)
    ensures var p := Prefix(t, limit);
            && p <= t && Size(p) <= limit
            && (|p| < |t| ==> Size(t[..|p| + 1]) > limit)
    ensures Size(t) <= limit ==> Prefix(t, limit) == t
  {
    FitIsLongest(t, limit);
    var k := Fit(t, limit);
    assert t[..|t|] == t;
    if k < |t| { WeightPrefix(Utf8Bytes, t, k + 1, |t|); }
  }

  lemma SliceOfSuffix(bs: seq<Byte>, offset: nat, end: nat)
    requires offset <= end <= |bs|
    ensures bs[offset..end] == bs[offset..][..end - offset]
    ensures bs[end..] == bs[offset..][end - offset..]
  {
  }

  /** Decoding the window `offset..end` of an encoding whose text from `offset` on is `t`. */
  lemma DecodeWindow(encoded: seq<Byte>, offset: nat, end: nat, t: Text, k: nat)
    requires offset <= end <= |encoded| && encoded[offset..] == Encode(t)
    requires Longest(Utf8Bytes, t, end - offset, k)
    ensures Decode(encoded[offset..end]) == Decoded(t[..k], Size(t[..k]) == end - offset)
    ensures Longest(Utf8Bytes, t, Size(t[..k]), k)
  {
    DecodeCut(t, end - offset, k);
    SliceOfSuffix(encoded, offset, end);
    if k < |t| { WeightPrefix(Utf8Bytes, t, k, k + 1); }
  }

  /** The inner loop of the chunker: shrink the window until it ends on a scalar boundary. */
  method NextChunk(encoded: seq<Byte>, offset: nat, limit: nat, ghost left: Text)
    returns (end: nat, chunk: Text, ghost k: nat)
    requires offset < |encoded| && encoded[offset..] == Encode(left)
    ensures Longest(Utf8Bytes, left, limit, k) && chunk == left[..k]
    ensures end == offset + Size(chunk) <= |encoded|
  {
    end := if |encoded| < offset + limit then |encoded| else offset + limit;
    k := Fit(left, end - offset);
    FirstWindow(left, end - offset, limit);
    while end > offset
      invariant offset <= end <= |encoded| && Longest(Utf8Bytes, left, end - offset, k)
      decreases end
    {
      DecodeWindow(encoded, offset, end, left, k);
      var decoded := Decode(encoded[offset..end]);
      if decoded.complete {
        return end, decoded.text, k;
      }
      end := offset + Size(decoded.text);
    }
    chunk := [];
    ZeroSize(left[..k]);
  }

  lemma ZeroSize(t: Text)
    ensures Size(t) <= 0 ==> t == []
  {
  }

  lemma FirstWindow(left: Text, n: nat, limit: nat)
    requires n == if Size(left) < limit then Size(left) else limit
    ensures Longest(Utf8Bytes, left, n, Fit(left, n)) && Longest(Utf8Bytes, left, limit, Fit(left, n))
  {
    var k := Fit(left, n);
    FitIsLongest(left, n);
    assert left[..|left|] == left;
    if k < |left| { WeightPrefix(Utf8Bytes, left, k + 1, |left|); }
  }

  /** Byte-limited chunking. It fails exactly when some scalar is wider than the limit, so never from four
      bytes up; otherwise the chunks spell the input, each fits, and each is as long as it can be. */
  method Chunks(value: Text, limit: nat) returns (ok: bool, chunks: seq<Text>)
    ensures ok <==> forall c :: c in value ==> Width(c) <= limit
    ensures ok ==> Flatten(chunks) == value && Fitting(Utf8Bytes, limit, chunks)
    ensures ok && value != [] ==> Maximal(Utf8Bytes, limit, chunks)
    ensures value == [] ==> chunks == [[]]
  {
    var encoded := Encode(value);
    if encoded == [] { return true, [[]]; }
    chunks := [];
    var offset := 0;
    ghost var left := value;
    while offset < |encoded|
      invariant offset <= |encoded| && encoded[offset..] == Encode(left) && Cutting(Utf8Bytes, value, chunks, left, limit)
      decreases |encoded| - offset
    {
      var end, chunk, k := NextChunk(encoded, offset, limit, left);
      if end <= offset {
        Stuck(value, chunks, left, limit, k);
        return false, [];
      }
      CutOne(Utf8Bytes, value, chunks, left, limit, k);
      EncodeAfter(left, k);
      SliceOfSuffix(encoded, offset, end);
      chunks, left, offset := chunks + [chunk], left[k..], end;
    }
    Finished(value, chunks, left, limit);
    ok := true;
  }

  lemma EncodeAfter(t: Text, k: nat)
    requires k <= |t|
    ensures Size(t[..k]) <= |Encode(t)| && Encode(t)[Size(t[..k])..] == Encode(t[k..])
  {
    assert t == t[..k] + t[k..];
    EncodeConcat(t[..k], t[k..]);
  }

  lemma Stuck(value: Text, chunks: seq<Text>, left: Text, limit: nat, k: nat)
    requires Cutting(Utf8Bytes, value, chunks, left, limit) && left != []
    requires Longest(Utf8Bytes, left, limit, k) && Size(left[..k]) == 0
    ensures exists c :: c in value && Width(c) > limit
  {
    ZeroSize(left[..k]);
    assert left[..1][0] == left[0] && left[..1][1..] == [];
    assert left[0] in value;
  }

  lemma Finished(value: Text, chunks: seq<Text>, left: Text, limit: nat)
    requires Cutting(Utf8Bytes, value, chunks, left, limit) && Size(left) == 0
    ensures Flatten(chunks) == value && forall c :: c in value ==> Width(c) <= limit
  {
    ZeroSize(left);
    assert Flatten(chunks) + [] == Flatten(chunks);
    PiecesScalars(chunks, limit);
  }

  lemma {:induction false} FittingScalars(t: Text, limit: nat)
    requires Size(t) <= limit
    ensures forall c :: c in t ==> Width(c) <= limit
  {
    if t != [] { FittingScalars(t[1..], limit); }
  }

  lemma {:induction false} PiecesScalars(pieces: seq<Text>, limit: nat)
    requires Fitting(Utf8Bytes, limit, pieces)
    ensures forall c :: c in Flatten(pieces) ==> Width(c) <= limit
  {
    if pieces != [] {
      FittingScalars(pieces[0], limit);
      PiecesScalars(pieces[1..], limit);
    }
  }
}
