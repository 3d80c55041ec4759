/** Text as Unicode scalar values, its size in UTF-8 and in JSON, and splitting it into pieces. */
module Text {

  const MAX_WIDTH := 4        // bytes of one scalar in UTF-8 (section 3 of RFC 3629)
  const MAX_JSON_WIDTH := 6   // bytes of one scalar inside a JSON string: \u00XX

  predicate IsScalar(c: int) { 0 <= c < 0xD800 || 0xE000 <= c < 0x11_0000 }

  type Scalar = c: int | 0 <= c < 0xD800 || 0xE000 <= c < 0x11_0000

  type Text = seq<Scalar>

  function Literal(s: string): Text { seq(|s|, i requires 0 <= i < |s| => s[i] as int) }

  predicate Space(c: Scalar) {
    9 <= c <= 13 || 28 <= c <= 32 || c in {0x85, 0xA0, 0x1680, 0x2028, 0x2029, 0x202F, 0x205F, 0x3000}
    || 0x2000 <= c <= 0x200A
  }

  /** No white space at either end. */
  predicate Stripped(t: Text) { t == [] || (!Space(t[0]) && !Space(t[|t| - 1])) }

  function Width(c: Scalar): (w: nat)
    ensures 1 <= w <= MAX_WIDTH
  {
    if c < 0x80 then 1 else if c < 0x800 then 2 else if c < 0x1_0000 then 3 else 4
  }

  /** Size inside a JSON string that leaves non-ASCII text unescaped. */
  function JsonWidth(c: Scalar): (w: nat)
    ensures Width(c) <= w <= MAX_JSON_WIDTH
  {
    if c in {0x22, 0x5C, 8, 9, 10, 12, 13} then 2 else if c < 0x20 then 6 else Width(c)
  }

  datatype Measure = Utf8Bytes | JsonBytes

  function Unit(m: Measure, c: Scalar): (w: nat)
    ensures 1 <= w <= MAX_JSON_WIDTH
  {
    if m.Utf8Bytes? then Width(c) else JsonWidth(c)
  }

  function Weight(m: Measure, t: Text): nat {
    if t == [] then 0 else Unit(m, t[0]) + Weight(m, t[1..])
  }

  function Size(t: Text): nat { Weight(Utf8Bytes, t) }

  lemma {:induction false} WeightConcat(m: Measure, a: Text, b: Text)
    ensures Weight(m, a + b) == Weight(m, a) + Weight(m, b)
  {
    if a == [] {
      assert a + b == b;
    } else {
      assert (a + b)[1..] == a[1..] + b;
      WeightConcat(m, a[1..], b);
    }
  }

  lemma WeightPrefix(m: Measure, t: Text, i: nat, j: nat)
    requires i <= j <= |t|
    ensures Weight(m, t[..i]) <= Weight(m, t[..j]) <= Weight(m, t)
    ensures i < j ==> Weight(m, t[..i]) < Weight(m, t[..j])
  {
    assert t[..j] == t[..i] + t[i..j] && t == t[..j] + t[j..];
    WeightConcat(m, t[..i], t[i..j]);
    WeightConcat(m, t[..j], t[j..]);
  }

  lemma {:induction false} WeightBounds(m: Measure, t: Text)
    ensures |t| <= Weight(m, t) <= MAX_JSON_WIDTH * |t|
    ensures Size(t) <= Weight(m, t)
  {
    if t != [] { WeightBounds(m, t[1..]); }
  }

  /** Control characters: the text JSON escaping lengthens most. */
  function Controls(n: nat): Text { seq(n, i => 1) }

  lemma {:induction false} ControlsWeigh(n: nat)
    ensures Weight(JsonBytes, Controls(n)) == MAX_JSON_WIDTH * n && Size(Controls(n)) == n
  {
    if n > 0 {
      ControlsWeigh(n - 1);
      assert Controls(n)[1..] == Controls(n - 1);
    }
  }

  // ---------- Pieces ----------

  function Flatten(pieces: seq<Text>): Text {
    if pieces == [] then [] else pieces[0] + Flatten(pieces[1..])
  }

  lemma {:induction false} FlattenConcat(a: seq<Text>, b: seq<Text>)
    ensures Flatten(a + b) == Flatten(a) + Flatten(b)
  {
    if a == [] {
      assert a + b == b;
    } else {
      assert (a + b)[1..] == a[1..] + b;
      FlattenConcat(a[1..], b);
    }
  }

  lemma FlattenAppend(a: seq<Text>, t: Text)
    ensures Flatten(a + [t]) == Flatten(a) + t
  {
    FlattenConcat(a, [t]);
    assert Flatten([t]) == t + Flatten([]);
  }

  lemma FlattenNext(a: seq<Text>, i: nat)
    requires i < |a|
    ensures Flatten(a[..i + 1]) == Flatten(a[..i]) + a[i]
  {
    assert a[..i + 1] == a[..i] + [a[i]];
    FlattenAppend(a[..i], a[i]);
  }

  ghost predicate Fitting(m: Measure, limit: int, pieces: seq<Text>) {
    forall p :: p in pieces ==> Weight(m, p) <= limit
  }

  /** Every piece is as long as the limit allows: the next scalar would not have fitted. */
  ghost predicate Maximal(m: Measure, limit: int, pieces: seq<Text>) {
    && (forall i :: 0 <= i < |pieces| ==> pieces[i] != [])
    && (forall i :: 0 <= i < |pieces| - 1 ==> Weight(m, pieces[i] + pieces[i + 1][..1]) > limit)
  }

  /** No way of cutting a text into fitting pieces uses fewer of them than the maximal one. `ahead` is
      the text the maximal cut has already consumed beyond the other. */
  lemma {:induction false} MaximalIsShortest(m: Measure, limit: int, best: seq<Text>, other: seq<Text>, ahead: Text)
    requires Maximal(m, limit, best) && Fitting(m, limit, other)
    requires Flatten(other) == ahead + Flatten(best)
    ensures |best| <= |other|
    decreases |best|
  {
    if best != [] {
      assert Flatten(best) == best[0] + Flatten(best[1..]);
      assert other != [] && other[0] in other;
      var rest := Flatten(best[1..]);
      assert Flatten(other) == other[0] + Flatten(other[1..]) == ahead + best[0] + rest;
      if |other[0]| > |ahead + best[0]| {
        assert |best| > 1 && rest[..1] == best[1][..1];
        var long := best[0] + rest[..1];
        assert other[0] == (ahead + best[0] + rest)[..|other[0]|];
        assert other[0] == ahead + long + other[0][|ahead + long|..];
        WeightConcat(m, ahead, long);
        WeightConcat(m, ahead + long, other[0][|ahead + long|..]);
      } else {
        var ahead' := (ahead + best[0])[|other[0]|..];
        assert Flatten(other[1..]) == (ahead + best[0] + rest)[|other[0]|..] == ahead' + rest;
        MaximalIsShortest(m, limit, best[1..], other[1..], ahead');
      }
    }
  }

  // ---------- Cutting one piece at a time ----------

  /** The first `k` scalars are the longest prefix within the limit. */
  ghost predicate Longest(m: Measure, t: Text, limit: int, k: nat) {
    k <= |t| && Weight(m, t[..k]) <= limit && (k < |t| ==> limit < Weight(m, t[..k + 1]))
  }

  /** State of a chunking loop: the pieces so far and the text still to cut spell the input. */
  ghost predicate Cutting(m: Measure, value: Text, pieces: seq<Text>, left: Text, limit: int) {
    && Flatten(pieces) + left == value
    && Fitting(m, limit, pieces) && Maximal(m, limit, pieces)
    && (pieces != [] && left != [] ==> Weight(m, pieces[|pieces| - 1] + left[..1]) > limit)
  }

  lemma CutOne(m: Measure, value: Text, pieces: seq<Text>, left: Text, limit: int, k: nat)
    requires Cutting(m, value, pieces, left, limit) && 0 < k && Longest(m, left, limit, k)
    ensures Cutting(m, value, pieces + [left[..k]], left[k..], limit)
  {
    var piece, rest := left[..k], left[k..];
    FlattenAppend(pieces, piece);
    assert left == piece + rest && piece[..1] == left[..1];
    assert rest != [] ==> left[..k + 1] == piece + rest[..1];
  }
}
