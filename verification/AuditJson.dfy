/** A concrete codec for audit records: compact JSON with the members in a fixed order. It meets the hypotheses under
    which the writer and the verifier agree, with real bytes. */
module AuditJson {
  import opened Text
  import opened Utf8
  import opened Wrappers
  import opened AuditFile

  const QUOTE: Byte := 0x22
  const BACKSLASH: Byte := 0x5C

  // ---------- Numbers as fixed-width hexadecimal ----------

  function Pow16(w: nat): (p: nat)
    ensures p > 0
  {
    if w == 0 then 1 else 16 * Pow16(w - 1)
  }

  function HexDigit(d: nat): (b: Byte)
    requires d < 16
    ensures 0x30 <= b <= 0x66
  {
    if d < 10 then 0x30 + d else 0x57 + d
  }

  function Hex(n: nat, w: nat): (bs: seq<Byte>)
    ensures |bs| == w && forall i :: 0 <= i < w ==> 0x30 <= bs[i] <= 0x66
  {
    if w == 0 then [] else Hex(n / 16, w - 1) + [HexDigit(n % 16)]
  }

  lemma {:induction false} HexIsInjective(a: nat, b: nat, w: nat)
    requires a < Pow16(w) && b < Pow16(w) && Hex(a, w) == Hex(b, w)
    ensures a == b
  {
    if w > 0 {
      assert Hex(a, w)[..w - 1] == Hex(a / 16, w - 1) && Hex(b, w)[..w - 1] == Hex(b / 16, w - 1);
      HexIsInjective(a / 16, b / 16, w - 1);
      assert Hex(a, w)[w - 1] == HexDigit(a % 16) && Hex(b, w)[w - 1] == HexDigit(b % 16);
    }
  }

  lemma {:induction false} Pow16Double(w: nat)
    ensures Pow16(2 * w) == Pow16(w) * Pow16(w)
  {
    if w > 0 {
      Pow16Double(w - 1);
      var p := Pow16(w - 1);
      assert Pow16(2 * w) == 16 * (16 * Pow16(2 * (w - 1)));
      assert (16 * p) * (16 * p) == 256 * (p * p);
    }
  }

  lemma Widths()
    ensures Pow16(2) == 256 && Pow16(8) == 0x1_0000_0000 && Pow16(16) == TIME_BOUND && Pow16(32) == UUID_BOUND
  {
    assert Pow16(1) == 16;
    Pow16Double(1);
    Pow16Double(2);
    Pow16Double(4);
    Pow16Double(8);
    Pow16Double(16);
  }

  // ---------- Strings ----------

  /** One scalar inside a JSON string. */
  function Escape(c: Scalar): (bs: seq<Byte>)
    ensures |bs| == JsonWidth(c)
  {
    if c == 0x22 then [BACKSLASH, 0x22]
    else if c == 0x5C then [BACKSLASH, 0x5C]
    else if c == 8 then [BACKSLASH, 0x62]
    else if c == 9 then [BACKSLASH, 0x74]
    else if c == 10 then [BACKSLASH, 0x6E]
    else if c == 12 then [BACKSLASH, 0x66]
    else if c == 13 then [BACKSLASH, 0x72]
    else if c < 0x20 then [BACKSLASH, 0x75, 0x30, 0x30] + Hex(c, 2)
    else Bytes(c)
  }

  /** A string's contents and its closing quote. */
  function Quoted(t: Text): (bs: seq<Byte>)
    ensures |bs| == Weight(JsonBytes, t) + 1
  {
    if t == [] then [QUOTE] else Escape(t[0]) + Quoted(t[1..])
  }

  lemma BytesSplit(c: Scalar, d: Scalar, x: seq<Byte>, y: seq<Byte>)
    requires Bytes(c) + x == Bytes(d) + y
    ensures c == d && x == y
  {
    AssembleBytes(c);
    AssembleBytes(d);
    assert (Bytes(c) + x)[0] == Bytes(c)[0] && (Bytes(d) + y)[0] == Bytes(d)[0];
    Cancel(Bytes(c), x, Bytes(d), y);
  }

  lemma Cancel<T>(a: seq<T>, x: seq<T>, b: seq<T>, y: seq<T>)
    requires a + x == b + y && |a| == |b|
    ensures a == b && x == y
  {
    assert (a + x)[..|a|] == a && (b + y)[..|b|] == b;
    assert (a + x)[|a|..] == x && (b + y)[|b|..] == y;
  }

  lemma EscapeStarts(c: Scalar)
    ensures Escape(c)[0] != QUOTE && Escape(c)[0] != NEWLINE
    ensures Escape(c)[0] == BACKSLASH <==> (c < 0x20 || c == 0x22 || c == 0x5C)
  {
  }

  lemma EscapeSplit(c: Scalar, d: Scalar, x: seq<Byte>, y: seq<Byte>)
    requires Escape(c) + x == Escape(d) + y
    ensures c == d && x == y
  {
    EscapeStarts(c);
    EscapeStarts(d);
    assert (Escape(c) + x)[0] == Escape(c)[0] && (Escape(d) + y)[0] == Escape(d)[0];
    if Escape(c)[0] != BACKSLASH {
      BytesSplit(c, d, x, y);
    } else {
      assert (Escape(c) + x)[1] == Escape(c)[1] && (Escape(d) + y)[1] == Escape(d)[1];
      Cancel(Escape(c), x, Escape(d), y);
      if Escape(c)[1] == 0x75 {
        Widths();
        assert Escape(c)[4..] == Hex(c, 2) && Escape(d)[4..] == Hex(d, 2);
        HexIsInjective(c, d, 2);
      }
    }
  }

  lemma QuotedStarts(t: Text, x: seq<Byte>)
    ensures (Quoted(t) + x)[0] == QUOTE <==> t == []
    ensures t != [] ==> Quoted(t) + x == Escape(t[0]) + (Quoted(t[1..]) + x)
  {
    if t != [] {
      EscapeStarts(t[0]);
      Associate(Escape(t[0]), Quoted(t[1..]), x);
    }
  }

  lemma Associate(a: seq<Byte>, b: seq<Byte>, c: seq<Byte>)
    ensures a + b + c == a + (b + c)
  {
  }

  lemma {:induction false} QuotedSplit(a: Text, b: Text, x: seq<Byte>, y: seq<Byte>)
    requires Quoted(a) + x == Quoted(b) + y
    ensures a == b && x == y
    decreases |a|
  {
    QuotedStarts(a, x);
    QuotedStarts(b, y);
    if a == [] {
      Cancel(Quoted(a), x, Quoted(b), y);
    } else {
      EscapeSplit(a[0], b[0], Quoted(a[1..]) + x, Quoted(b[1..]) + y);
      QuotedSplit(a[1..], b[1..], x, y);
      assert a == [a[0]] + a[1..] && b == [b[0]] + b[1..];
    }
  }

  // ---------- Values and members ----------

  /** A hexadecimal number, a string, nothing, or text that already is JSON. */
  datatype Value = Num(number: nat, width: nat) | Words(text: Text) | Null | Raw(text: Text)

  function ValueBytes(v: Value): seq<Byte> {
    match v
    case Num(n, w) => [QUOTE] + Hex(n, w) + [QUOTE]
    case Words(t) => [QUOTE] + Quoted(t)
    case Null => [0x6E, 0x75, 0x6C, 0x6C]
    case Raw(t) => Encode(t)
  }

  predicate InRange(v: Value) { v.Num? ==> v.number < Pow16(v.width) }

  /** Values that can stand in the same place; raw text only in the last. */
  predicate Alike(v: Value, w: Value) {
    match v
    case Num(_, width) => w.Null? || (w.Num? && w.width == width)
    case Null => w.Null? || w.Num?
    case Words(_) => w.Words?
    case Raw(_) => w.Raw?
  }

  lemma NumberSplits(m: nat, n: nat, width: nat, x: seq<Byte>, y: seq<Byte>)
    requires m < Pow16(width) && n < Pow16(width) && ValueBytes(Num(m, width)) + x == ValueBytes(Num(n, width)) + y
    ensures m == n && x == y
  {
    var a, b := ValueBytes(Num(m, width)), ValueBytes(Num(n, width));
    Cancel(a, x, b, y);
    assert a[1..width + 1] == Hex(m, width) && b[1..width + 1] == Hex(n, width);
    HexIsInjective(m, n, width);
  }

  lemma WordsSplit(t: Text, u: Text, x: seq<Byte>, y: seq<Byte>)
    requires ValueBytes(Words(t)) + x == ValueBytes(Words(u)) + y
    ensures t == u && x == y
  {
    Associate([QUOTE], Quoted(t), x);
    Associate([QUOTE], Quoted(u), y);
    Cancel([QUOTE], Quoted(t) + x, [QUOTE], Quoted(u) + y);
    QuotedSplit(t, u, x, y);
  }

  lemma ValueStarts(v: Value, x: seq<Byte>)
    requires !v.Raw?
    ensures ValueBytes(v) != [] && (ValueBytes(v) + x)[0] == (if v.Null? then 0x6E else QUOTE)
  {
  }

  lemma ValueSplits(v: Value, w: Value, x: seq<Byte>, y: seq<Byte>)
    requires Alike(v, w) && InRange(v) && InRange(w) && !v.Raw? && ValueBytes(v) + x == ValueBytes(w) + y
    ensures v == w && x == y
  {
    ValueStarts(v, x);
    ValueStarts(w, y);
    match v
    case Num(n, width) => NumberSplits(n, w.number, width, x, y);
    case Words(t) => WordsSplit(t, w.text, x, y);
    case Null => Cancel(ValueBytes(v), x, ValueBytes(w), y);
  }

  datatype Member = Member(key: Text, value: Value)

  function KeyBytes(key: Text): seq<Byte> { [QUOTE] + Quoted(key) + [0x3A] }

  const CLOSE: seq<Byte> := [0x7D]
  const COMMA: seq<Byte> := [0x2C]

  /** The members after the opening brace, and the closing one. */
  function Body(ms: seq<Member>): seq<Byte>
    requires ms != []
    decreases |ms|, 1
  {
    KeyBytes(ms[0].key) + (ValueBytes(ms[0].value) + Rest(ms))
  }

  function Rest(ms: seq<Member>): seq<Byte>
    requires ms != []
    decreases |ms|, 0
  {
    if |ms| == 1 then CLOSE else COMMA + Body(ms[1..])
  }

  /** Two member lists of the same shape: same keys, values that can stand in the same place. */
  predicate SameShape(a: seq<Member>, b: seq<Member>) {
    && |a| == |b| > 0
    && forall i :: 0 <= i < |a| ==> Comparable(a[i], b[i]) && (a[i].value.Raw? ==> i == |a| - 1)
  }

  predicate Comparable(m: Member, n: Member) {
    m.key == n.key && Alike(m.value, n.value) && InRange(m.value) && InRange(n.value)
  }

  lemma {:induction false} BodyIsInjective(a: seq<Member>, b: seq<Member>)
    requires SameShape(a, b) && Body(a) == Body(b)
    ensures a == b
  {
    var v, w := a[0].value, b[0].value;
    Cancel(KeyBytes(a[0].key), ValueBytes(v) + Rest(a), KeyBytes(b[0].key), ValueBytes(w) + Rest(b));
    if v.Raw? {
      RawIsInjective(v.text, w.text);
      assert a == [a[0]] && b == [b[0]];
    } else {
      ValueSplits(v, w, Rest(a), Rest(b));
      if |a| > 1 {
        Cancel(COMMA, Body(a[1..]), COMMA, Body(b[1..]));
        BodyIsInjective(a[1..], b[1..]);
      }
      assert a == [a[0]] + a[1..] && b == [b[0]] + b[1..];
    }
  }

  lemma RawIsInjective(t: Text, u: Text)
    requires Encode(t) + CLOSE == Encode(u) + CLOSE
    ensures t == u
  {
    Cancel(Encode(t), CLOSE, Encode(u), CLOSE);
    DecodeEncode(t);
    DecodeEncode(u);
  }

  // ---------- Records ----------

  function Kind(l: Line): Text {
    match l
    case Header(_, _, _) => Literal("agent-audit-export-v1")
    case EntryLine(_) => Literal("audit-entry")
    case Trailer(_, _, _) => Literal("audit-trailer")
    case OtherObject => []
  }

  function Moment(t: Option<Time>): Value { if t.None? then Null else Num(t.value, 16) }

  function VerbNumber(v: Verb): nat { match v case Post => 0 case Put => 1 case Patch => 2 case Delete => 3 }

  function Identity(e: Entry): seq<Member> {
    [Member(Literal("id"), Num(e.id, 32)), Member(Literal("tenant_id"), Num(e.tenant, 32)),
     Member(Literal("occurred_at"), Num(e.time, 16)), Member(Literal("method"), Num(VerbNumber(e.verb), 2))]
  }

  function Content(e: Entry): seq<Member> {
    [Member(Literal("subject"), Words(e.subject)), Member(Literal("resource"), Words(e.resource)),
     Member(Literal("action"), Words(e.action)), Member(Literal("request_id"), Words(e.requestId)),
     Member(Literal("details"), Raw(e.details))]
  }

  function Fields(l: Line): seq<Member> {
    match l
    case Header(id, tenant, cutoff) =>
      [Member(Literal("export_id"), Num(id, 32)), Member(Literal("tenant_id"), Num(tenant, 32)),
       Member(Literal("cutoff_at"), Num(cutoff, 16))]
    case EntryLine(e) => Identity(e) + Content(e)
    case Trailer(count, first, last) =>
      [Member(Literal("record_count"), Num(count, 8)), Member(Literal("first_occurred_at"), Moment(first)),
       Member(Literal("last_occurred_at"), Moment(last))]
    case OtherObject => []
  }

  function TypeMember(l: Line): Member { Member(Literal("type"), Words(Kind(l))) }

  function Format(l: Line): seq<Byte> { [0x7B] + Body([TypeMember(l)] + Fields(l)) }

  predicate ControlFree(t: Text) { forall i :: 0 <= i < |t| ==> t[i] >= 0x20 }

  /** Reading a line back: the record it was printed from. */
  ghost function Parse(bs: seq<Byte>): Option<Line> {
    if exists l :: Good(l) && bs == Format(l) + [NEWLINE]
    then var l :| Good(l) && bs == Format(l) + [NEWLINE]; Some(l) else None
  }

  /** Printable with control-free details. */
  predicate Good(l: Line) {
    match l
    case Header(_, _, _) => true
    case EntryLine(e) => ControlFree(e.details)
    case Trailer(count, _, _) => count <= MAX_AUDIT_EXPORT_RECORDS
    case OtherObject => false
  }

  ghost function JsonCodec(): Codec {
    Codec((l: Line) => Format(l), (bs: seq<Byte>) => Parse(bs), (t: Text) => ControlFree(t))
  }

  lemma KindsDiffer(k: Line, l: Line)
    requires Good(k) && Good(l) && Kind(k) == Kind(l)
    ensures k.Header? == l.Header? && k.EntryLine? == l.EntryLine?
  {
    assert |Literal("agent-audit-export-v1")| == 21 && |Literal("audit-entry")| == 11 && |Literal("audit-trailer")| == 13;
  }

  lemma NumbersInRange(id: Uuid, t: Time, o: Option<Time>)
    ensures InRange(Num(id, 32)) && InRange(Num(t, 16)) && InRange(Moment(o))
  {
    Widths();
  }

  lemma SmallInRange(n: nat)
    ensures n < 256 ==> InRange(Num(n, 2))
    ensures n <= MAX_AUDIT_EXPORT_RECORDS ==> InRange(Num(n, 8))
  {
    Widths();
  }

  lemma IdentityShape(d: Entry, e: Entry, i: nat)
    requires i < 4
    ensures Comparable(Identity(d)[i], Identity(e)[i]) && !Identity(d)[i].value.Raw?
  {
    NumbersInRange(d.id, d.time, None);
    NumbersInRange(e.id, e.time, None);
    NumbersInRange(d.tenant, d.time, None);
    NumbersInRange(e.tenant, e.time, None);
    SmallInRange(VerbNumber(d.verb));
    SmallInRange(VerbNumber(e.verb));
  }

  lemma ContentShape(d: Entry, e: Entry, i: nat)
    requires i < 5
    ensures Comparable(Content(d)[i], Content(e)[i]) && (Content(d)[i].value.Raw? <==> i == 4)
  {
  }

  lemma EntryShape(d: Entry, e: Entry)
    ensures SameShape(Identity(d) + Content(d), Identity(e) + Content(e))
  {
    var a, b := Identity(d) + Content(d), Identity(e) + Content(e);
    forall i | 0 <= i < 9 ensures Comparable(a[i], b[i]) && (a[i].value.Raw? ==> i == 8) {
      if i < 4 { IdentityShape(d, e, i); } else { ContentShape(d, e, i - 4); }
    }
  }

  lemma TrailerShape(k: Line, l: Line)
    requires Good(k) && Good(l) && k.Trailer? && l.Trailer?
    ensures SameShape(Fields(k), Fields(l))
  {
    SmallInRange(k.count);
    SmallInRange(l.count);
    NumbersInRange(0, 0, k.first);
    NumbersInRange(0, 0, l.first);
    NumbersInRange(0, 0, k.last);
    NumbersInRange(0, 0, l.last);
    var a, b := Fields(k), Fields(l);
    assert Comparable(a[0], b[0]) && Comparable(a[1], b[1]) && Comparable(a[2], b[2]);
  }

  lemma HeaderShape(k: Line, l: Line)
    requires k.Header? && l.Header?
    ensures SameShape(Fields(k), Fields(l))
  {
    NumbersInRange(k.id, k.cutoff, None);
    NumbersInRange(l.id, l.cutoff, None);
    NumbersInRange(k.tenant, k.cutoff, None);
    NumbersInRange(l.tenant, l.cutoff, None);
    var a, b := Fields(k), Fields(l);
    assert Comparable(a[0], b[0]) && Comparable(a[1], b[1]) && Comparable(a[2], b[2]);
  }

  lemma SameKindSameShape(k: Line, l: Line)
    requires Good(k) && Good(l) && k.Header? == l.Header? && k.EntryLine? == l.EntryLine?
    ensures SameShape(Fields(k), Fields(l))
  {
    match k {
      case Header(_, _, _) => HeaderShape(k, l);
      case EntryLine(e) => EntryShape(e, l.entry);
      case Trailer(_, _, _) => TrailerShape(k, l);
    }
  }

  lemma FieldsDetermine(k: Line, l: Line)
    requires Good(k) && Good(l) && k.Header? == l.Header? && k.EntryLine? == l.EntryLine? && Fields(k) == Fields(l)
    ensures k == l
  {
    var a, b := Fields(k), Fields(l);
    assert a[0] == b[0] && a[1] == b[1] && a[2] == b[2];
    if k.EntryLine? { EntriesDetermined(k.entry, l.entry); }
  }

  lemma EntriesDetermined(d: Entry, e: Entry)
    requires Identity(d) + Content(d) == Identity(e) + Content(e)
    ensures d == e
  {
    Cancel(Identity(d), Content(d), Identity(e), Content(e));
    var a, b, p, q := Identity(d), Identity(e), Content(d), Content(e);
    assert a[0] == b[0] && a[1] == b[1] && a[2] == b[2] && a[3] == b[3];
    assert p[0] == q[0] && p[1] == q[1] && p[2] == q[2] && p[3] == q[3] && p[4] == q[4];
  }

  /** Different records print differently. */
  lemma FormatIsInjective(k: Line, l: Line)
    requires Good(k) && Good(l) && Format(k) == Format(l)
    ensures k == l
  {
    var a, b := [TypeMember(k)] + Fields(k), [TypeMember(l)] + Fields(l);
    Cancel([0x7B], Body(a), [0x7B], Body(b));
    Cancel(KeyBytes(a[0].key), ValueBytes(a[0].value) + Rest(a), KeyBytes(b[0].key), ValueBytes(b[0].value) + Rest(b));
    WordsSplit(Kind(k), Kind(l), Rest(a), Rest(b));
    KindsDiffer(k, l);
    SameKindSameShape(k, l);
    assert a[1..] == Fields(k) && b[1..] == Fields(l);
    Cancel(COMMA, Body(Fields(k)), COMMA, Body(Fields(l)));
    BodyIsInjective(Fields(k), Fields(l));
    FieldsDetermine(k, l);
  }

  // ---------- No newline ----------

  lemma EscapeIsClean(c: Scalar)
    ensures NEWLINE !in Escape(c)
  {
    if c >= 0x20 { BytesAreClean(c); }
  }

  lemma BytesAreClean(c: Scalar)
    requires c >= 0x20
    ensures NEWLINE !in Bytes(c)
  {
  }

  lemma {:induction false} QuotedIsClean(t: Text)
    ensures NEWLINE !in Quoted(t)
  {
    if t != [] {
      EscapeIsClean(t[0]);
      QuotedIsClean(t[1..]);
    }
  }

  lemma {:induction false} EncodeIsClean(t: Text)
    requires ControlFree(t)
    ensures NEWLINE !in Encode(t)
  {
    if t != [] {
      BytesAreClean(t[0]);
      EncodeIsClean(t[1..]);
    }
  }

  lemma ValueIsClean(v: Value)
    requires v.Raw? ==> ControlFree(v.text)
    ensures NEWLINE !in ValueBytes(v)
  {
    if v.Words? { QuotedIsClean(v.text); }
    if v.Raw? { EncodeIsClean(v.text); }
  }

  predicate RawControlFree(ms: seq<Member>) {
    forall i :: 0 <= i < |ms| && ms[i].value.Raw? ==> ControlFree(ms[i].value.text)
  }

  lemma {:induction false} BodyIsClean(ms: seq<Member>)
    requires ms != [] && RawControlFree(ms)
    ensures NEWLINE !in Body(ms)
  {
    QuotedIsClean(ms[0].key);
    ValueIsClean(ms[0].value);
    if |ms| > 1 { BodyIsClean(ms[1..]); }
  }

  // ---------- Size ----------

  function ValueSize(v: Value): nat {
    match v case Num(_, w) => 2 + w case Words(t) => 2 + Weight(JsonBytes, t) case Null => 4 case Raw(t) => Size(t)
  }

  function MemberSize(m: Member): nat { 4 + Weight(JsonBytes, m.key) + ValueSize(m.value) }

  /** Bytes of all members with their keys and separators. */
  function MembersSize(ms: seq<Member>): nat { if ms == [] then 0 else MemberSize(ms[0]) + MembersSize(ms[1..]) }

  lemma {:induction false} BodySize(ms: seq<Member>)
    requires ms != []
    ensures |Body(ms)| == MembersSize(ms)
  {
    if |ms| > 1 { BodySize(ms[1..]); }
  }

  lemma {:induction false} MembersSizeConcat(a: seq<Member>, b: seq<Member>)
    ensures MembersSize(a + b) == MembersSize(a) + MembersSize(b)
  {
    if a == [] {
      assert a + b == b;
    } else {
      MembersSizeConcat(a[1..], b);
      assert (a + b)[1..] == a[1..] + b;
    }
  }

  lemma OneSize(m: Member)
    ensures MembersSize([m]) == MemberSize(m)
  {
    assert [m][1..] == [];
  }

  lemma SizeOf3(a: Member, b: Member, c: Member)
    ensures MembersSize([a, b, c]) == MemberSize(a) + MemberSize(b) + MemberSize(c)
  {
    assert [a, b, c] == [a] + ([b] + [c]);
    MembersSizeConcat([a], [b] + [c]);
    MembersSizeConcat([b], [c]);
    OneSize(a);
    OneSize(b);
    OneSize(c);
  }

  /** A key of at most twenty characters and its punctuation. */
  lemma KeySize(m: Member)
    requires |m.key| <= 20
    ensures MemberSize(m) <= 124 + ValueSize(m.value)
  {
    WeightBounds(JsonBytes, m.key);
  }

  lemma ThreeSize(ms: seq<Member>)
    requires |ms| == 3 && forall i :: 0 <= i < 3 ==> |ms[i].key| <= 20 && ValueSize(ms[i].value) <= 34
    ensures MembersSize(ms) <= 474
  {
    SizeOf3(ms[0], ms[1], ms[2]);
    assert ms == [ms[0], ms[1], ms[2]];
    KeySize(ms[0]);
    KeySize(ms[1]);
    KeySize(ms[2]);
  }

  lemma IdentitySize(e: Entry)
    ensures MembersSize(Identity(e)) <= 632
  {
    var ms := Identity(e);
    assert ms == ms[..3] + [ms[3]];
    MembersSizeConcat(ms[..3], [ms[3]]);
    ThreeSize(ms[..3]);
    OneSize(ms[3]);
    KeySize(ms[3]);
  }

  lemma SizeOf5(a: Member, b: Member, c: Member, d: Member, e: Member)
    ensures MembersSize([a, b, c, d, e]) == MemberSize(a) + MemberSize(b) + MemberSize(c) + MemberSize(d) + MemberSize(e)
  {
    assert [a, b, c, d, e] == [a, b, c] + ([d] + [e]);
    MembersSizeConcat([a, b, c], [d] + [e]);
    MembersSizeConcat([d], [e]);
    SizeOf3(a, b, c);
    OneSize(d);
    OneSize(e);
  }

  lemma WordsSize(key: Text, t: Text)
    requires |key| <= 20
    ensures MemberSize(Member(key, Words(t))) <= 126 + Weight(JsonBytes, t)
    ensures MemberSize(Member(key, Raw(t))) <= 124 + Size(t)
  {
    KeySize(Member(key, Words(t)));
    KeySize(Member(key, Raw(t)));
  }

  function ContentWeight(e: Entry): nat {
    Weight(JsonBytes, e.subject) + Weight(JsonBytes, e.resource) + Weight(JsonBytes, e.action)
    + Weight(JsonBytes, e.requestId) + Size(e.details)
  }

  lemma ContentSize(e: Entry)
    ensures MembersSize(Content(e)) <= 628 + ContentWeight(e)
  {
    var ms := Content(e);
    SizeOf5(ms[0], ms[1], ms[2], ms[3], ms[4]);
    WordsSize(Literal("subject"), e.subject);
    WordsSize(Literal("resource"), e.resource);
    WordsSize(Literal("action"), e.action);
    WordsSize(Literal("request_id"), e.requestId);
    WordsSize(Literal("details"), e.details);
  }

  lemma EntrySize(e: Entry)
    ensures MembersSize(Identity(e) + Content(e)) <= 1260 + ContentWeight(e)
  {
    MembersSizeConcat(Identity(e), Content(e));
    IdentitySize(e);
    ContentSize(e);
  }

  lemma HeaderSize(l: Line)
    requires l.Header? || l.Trailer?
    ensures MembersSize(Fields(l)) <= 474
  {
    ThreeSize(Fields(l));
  }

  lemma TypeSize(l: Line)
    ensures MembersSize([TypeMember(l)]) <= 252
  {
    OneSize(TypeMember(l));
    WordsSize(Literal("type"), Kind(l));
    WeightBounds(JsonBytes, Kind(l));
  }

  lemma FormatSize(l: Line)
    requires Good(l)
    ensures |Format(l)| <= LineSize(l)
  {
    BodySize([TypeMember(l)] + Fields(l));
    MembersSizeConcat([TypeMember(l)], Fields(l));
    TypeSize(l);
    if l.EntryLine? { EntrySize(l.entry); } else { HeaderSize(l); }
  }

  // ---------- The codec is faithful ----------

  lemma FormatIsClean(l: Line)
    requires Good(l)
    ensures NEWLINE !in Format(l)
  {
    BodyIsClean([TypeMember(l)] + Fields(l));
  }

  lemma ParseFormat(l: Line)
    requires Good(l)
    ensures Parse(Format(l) + [NEWLINE]) == Some(l)
  {
    var bs := Format(l) + [NEWLINE];
    var m := Parse(bs).value;
    Cancel(Format(m), [NEWLINE], Format(l), [NEWLINE]);
    FormatIsInjective(m, l);
  }

  /** There is a codec of real bytes for which the writer and the verifier agree. */
  lemma JsonCodecIsFaithful()
    ensures Faithful(JsonCodec())
  {
    var codec := JsonCodec();
    forall l: Line | Printable(codec, l)
      ensures codec.parse(Printed(codec, l)) == Some(l) && NEWLINE !in codec.format(l) && |codec.format(l)| <= LineSize(l)
    {
      ParseFormat(l);
      FormatIsClean(l);
      FormatSize(l);
    }
  }
}
