/** The audit export file: its lines, what a proper one is, and the verifier that reads it back. */
module AuditFile {
  import opened Text
  import opened Utf8
  import opened Wrappers

  const NEWLINE: Byte := 10
  const MAX_AUDIT_ENTRY_BYTES := 1024 * 1024
  const MAX_AUDIT_LINE_BYTES := MAX_AUDIT_ENTRY_BYTES + 1024
  const MAX_AUDIT_DETAILS_BYTES := 1_000_000
  const MAX_AUDIT_EXPORT_BYTES := 1024 * 1024 * 1024
  const MAX_AUDIT_EXPORT_RECORDS := 10_000_000

  // ---------- Records and their JSON ----------

  const UUID_BOUND := 0x1_0000_0000_0000_0000_0000_0000_0000_0000
  const TIME_BOUND := 0x1_0000_0000_0000_0000

  /** A UUID as the number its 128 bits spell. */
  type Uuid = n: nat | n < UUID_BOUND

  /** A timestamp in microseconds. */
  type Time = n: nat | n < TIME_BOUND

  datatype Verb = Post | Put | Patch | Delete

  /** An audit entry; `details` is the canonical JSON of its details. */
  datatype Entry = Entry(id: Uuid, tenant: Uuid, time: Time, verb: Verb, subject: Text, resource: Text, action: Text,
                         requestId: Text, details: Text)

  predicate ActionText(t: Text) {
    && 1 <= |t| <= 255 && 0x61 <= t[0] <= 0x7A
    && forall i :: 0 <= i < |t| ==> 0x61 <= t[i] <= 0x7A || 0x30 <= t[i] <= 0x39 || t[i] in {0x5F, 0x2E, 0x3A, 0x2D}
  }

  predicate ValidEntry(codec: Codec, e: Entry) {
    && 1 <= |e.subject| <= 255 && Stripped(e.subject) && 1 <= |e.resource| <= 4096 && ActionText(e.action)
    && 1 <= |e.requestId| <= 255
    && codec.canonical(e.details) && Size(e.details) <= MAX_AUDIT_DETAILS_BYTES
  }

  datatype Line =
    | Header(id: Uuid, tenant: Uuid, cutoff: Time)
    | EntryLine(entry: Entry)
    | Trailer(count: nat, first: Option<Time>, last: Option<Time>)
    | OtherObject

  /** The records an export can hold. */
  predicate Printable(codec: Codec, l: Line) {
    match l
    case Header(_, _, _) => true
    case EntryLine(e) => ValidEntry(codec, e)
    case Trailer(count, _, _) => count <= MAX_AUDIT_EXPORT_RECORDS
    case OtherObject => false
  }

  /** At most this many bytes of JSON; the constants bound keys, identifiers, times and punctuation. */
  function LineSize(l: Line): nat {
    match l
    case EntryLine(e) =>
      2048 + Weight(JsonBytes, e.subject) + Weight(JsonBytes, e.resource) + Weight(JsonBytes, e.action)
      + Weight(JsonBytes, e.requestId) + Size(e.details)
    case _ => 2048
  }

  /** Printing a record as JSON, reading a line back, and which texts are the canonical JSON of an entry's details. */
  datatype Codec = Codec(format: Line -> seq<Byte>, parse: seq<Byte> -> Option<Line>, canonical: Text -> bool)

  function Printed(codec: Codec, l: Line): seq<Byte> { codec.format(l) + [NEWLINE] }

  /** On every printable record the decoder inverts the printer, which emits no newline and stays within the size. */
  ghost predicate Faithful(codec: Codec) {
    forall l: Line :: Printable(codec, l) ==>
      && codec.parse(Printed(codec, l)) == Some(l) && NEWLINE !in codec.format(l) && |codec.format(l)| <= LineSize(l)
  }

  /** Every record fits the line limit: the details limit leaves room for the worst escaping of every other field. */
  lemma LineFits(codec: Codec, l: Line)
    requires Faithful(codec) && Printable(codec, l)
    ensures |Printed(codec, l)| <= MAX_AUDIT_LINE_BYTES
  {
    assert |codec.format(l)| <= LineSize(l);
    if l.EntryLine? {
      WeightBounds(JsonBytes, l.entry.subject);
      WeightBounds(JsonBytes, l.entry.resource);
      WeightBounds(JsonBytes, l.entry.action);
      WeightBounds(JsonBytes, l.entry.requestId);
    }
  }

  // ---------- Splitting a file into lines ----------

  /** Up to and including the first newline, or everything. */
  function FirstLine(file: seq<Byte>): (line: seq<Byte>)
    ensures line <= file && (file != [] ==> line != [])
  {
    if file == [] then [] else if file[0] == NEWLINE then file[..1] else [file[0]] + FirstLine(file[1..])
  }

  function Lines(file: seq<Byte>): (lines: seq<seq<Byte>>)
    ensures file == [] <==> lines == []
    decreases |file|
  {
    if file == [] then [] else [FirstLine(file)] + Lines(file[|FirstLine(file)|..])
  }

  predicate Whole(line: seq<Byte>) { line != [] && line[|line| - 1] == NEWLINE && |line| <= MAX_AUDIT_LINE_BYTES }

  lemma {:induction false} FirstPrinted(body: seq<Byte>, rest: seq<Byte>)
    requires NEWLINE !in body
    ensures FirstLine(body + [NEWLINE] + rest) == body + [NEWLINE]
  {
    var file := body + [NEWLINE] + rest;
    if body == [] {
      assert file[..1] == [NEWLINE];
    } else {
      assert file[1..] == body[1..] + [NEWLINE] + rest;
      FirstPrinted(body[1..], rest);
    }
  }

  function Render(codec: Codec, lines: seq<Line>): seq<Byte> {
    if lines == [] then [] else Render(codec, lines[..|lines| - 1]) + Printed(codec, lines[|lines| - 1])
  }

  lemma {:induction false} LinesAppend(file: seq<Byte>, body: seq<Byte>)
    requires NEWLINE !in body && (file == [] || file[|file| - 1] == NEWLINE)
    ensures Lines(file + body + [NEWLINE]) == Lines(file) + [body + [NEWLINE]]
    decreases |file|
  {
    if file == [] {
      FirstPrinted(body, []);
      assert file + body + [NEWLINE] == body + [NEWLINE] + [] == body + [NEWLINE];
    } else {
      var line := FirstLine(file);
      FirstOfLonger(file, body + [NEWLINE]);
      assert file + (body + [NEWLINE]) == file + body + [NEWLINE];
      var rest := file[|line|..];
      assert (file + body + [NEWLINE])[|line|..] == rest + body + [NEWLINE];
      LinesAppend(rest, body);
    }
  }

  lemma {:induction false} FirstOfLonger(file: seq<Byte>, more: seq<Byte>)
    requires file != [] && file[|file| - 1] == NEWLINE
    ensures FirstLine(file + more) == FirstLine(file)
    ensures FirstLine(file)[|FirstLine(file)| - 1] == NEWLINE
  {
    assert (file + more)[0] == file[0];
    if file[0] != NEWLINE {
      assert (file + more)[1..] == file[1..] + more;
      FirstOfLonger(file[1..], more);
    } else {
      assert (file + more)[..1] == file[..1];
    }
  }

  /** Reading a rendered file back line by line gives the printed records. */
  lemma {:induction false} LinesOfRender(codec: Codec, lines: seq<Line>)
    requires Faithful(codec) && forall i :: 0 <= i < |lines| ==> Printable(codec, lines[i])
    ensures Lines(Render(codec, lines)) == seq(|lines|, i requires 0 <= i < |lines| => Printed(codec, lines[i]))
  {
    if lines != [] {
      var last := |lines| - 1;
      LinesOfRender(codec, lines[..last]);
      var file, body := Render(codec, lines[..last]), codec.format(lines[last]);
      assert file + body + [NEWLINE] == file + (body + [NEWLINE]);
      LinesAppend(file, body);
    }
  }

  // ---------- What a proper export is ----------

  datatype AuditExport = AuditExport(id: Uuid, tenant: Uuid, cutoff: Time, created: Time, size: nat, sha256: nat,
                                     count: nat, first: Option<Time>, last: Option<Time>, completed: Time)

  /** What the metadata of a completed export must satisfy to exist. */
  predicate ValidExport(x: AuditExport) {
    && x.count <= MAX_AUDIT_EXPORT_RECORDS
    && (if x.count == 0 then x.first.None? && x.last.None? else x.first.Some? && x.last.Some?)
    && x.completed >= x.created
    && (x.last.Some? ==> x.last.value <= x.cutoff)
    && (x.first.Some? && x.last.Some? ==> x.first.value <= x.last.value)
  }

  predicate Precedes(a: Entry, b: Entry) { a.time < b.time || (a.time == b.time && a.id < b.id) }

  predicate InScope(e: Entry, x: AuditExport) { e.tenant == x.tenant && e.time <= x.cutoff }

  /** The entry on line `i`, if it holds one. */
  function EntryAt(codec: Codec, lines: seq<seq<Byte>>, i: nat): Option<Entry>
    requires i < |lines|
  {
    match codec.parse(lines[i])
    case Some(EntryLine(e)) => Some(e)
    case _ => None
  }

  predicate Follows(previous: Option<Entry>, e: Entry) { previous.Some? ==> Precedes(previous.value, e) }

  /** Line `i` is an entry in scope that follows the entry before it. */
  predicate GoodEntry(codec: Codec, lines: seq<seq<Byte>>, x: AuditExport, i: nat)
    requires 1 <= i < |lines|
  {
    var e := EntryAt(codec, lines, i);
    && e.Some? && InScope(e.value, x)
    && (i > 1 ==> Follows(EntryAt(codec, lines, i - 1), e.value))
  }

  function HeaderOf(x: AuditExport): Line { Header(x.id, x.tenant, x.cutoff) }

  function TrailerOf(x: AuditExport): Line { Trailer(x.count, x.first, x.last) }

  function TimeAt(codec: Codec, lines: seq<seq<Byte>>, i: nat): Option<Time>
    requires i < |lines|
  {
    match EntryAt(codec, lines, i) case Some(e) => Some(e.time) case None => None
  }

  /** One header, then in-scope entries in strictly increasing order, then one trailer; counts and times as claimed. */
  ghost predicate ProperLines(codec: Codec, lines: seq<seq<Byte>>, x: AuditExport) {
    var n := |lines|;
    && n >= 2 && (forall i :: 0 <= i < n ==> Whole(lines[i]))
    && codec.parse(lines[0]) == Some(HeaderOf(x)) && codec.parse(lines[n - 1]) == Some(TrailerOf(x))
    && (forall i :: 1 <= i < n - 1 ==> GoodEntry(codec, lines, x, i))
    && x.count == n - 2
    && x.first == (if n == 2 then None else TimeAt(codec, lines, 1))
    && x.last == (if n == 2 then None else TimeAt(codec, lines, n - 2))
  }

  ghost predicate ProperFile(codec: Codec, file: seq<Byte>, x: AuditExport, sha256: seq<Byte> -> nat) {
    && ProperLines(codec, Lines(file), x)
    && |file| == x.size <= MAX_AUDIT_EXPORT_BYTES && sha256(file) == x.sha256
  }

  // ---------- The verifier ----------

  /** What the verifier remembers between lines. */
  datatype Scan = Scan(header: bool, trailer: bool, first: Option<Time>, last: Option<Time>, previous: Option<Entry>,
                       count: nat)

  /** After `k` lines: nothing wrong so far, and the memory says what they held. */
  ghost predicate Scanned(codec: Codec, lines: seq<seq<Byte>>, x: AuditExport, k: nat, s: Scan) {
    var m := if s.trailer then k - 1 else k;
    && k <= |lines| && s.header == (k > 0) && (s.trailer ==> k >= 2)
    && (forall i :: 0 <= i < k ==> Whole(lines[i]))
    && (k > 0 ==> codec.parse(lines[0]) == Some(HeaderOf(x)))
    && (s.trailer ==> codec.parse(lines[k - 1]) == Some(TrailerOf(x)))
    && (forall i :: 1 <= i < m ==> GoodEntry(codec, lines, x, i))
    && s.count == (if m <= 1 then 0 else m - 1)
    && s.first == (if m <= 1 then None else TimeAt(codec, lines, 1))
    && s.last == (if m <= 1 then None else TimeAt(codec, lines, m - 1))
    && s.previous == (if m <= 1 then None else EntryAt(codec, lines, m - 1))
  }

  /** One line against what has been seen. A refusal means the file is not proper. */
  method CheckLine(codec: Codec, ghost lines: seq<seq<Byte>>, raw: seq<Byte>, x: AuditExport, ghost k: nat, s: Scan)
    returns (ok: bool, s': Scan)
    requires Scanned(codec, lines, x, k, s) && k < |lines| && raw == lines[k] && Whole(raw)
    ensures ok ==> Scanned(codec, lines, x, k + 1, s')
    ensures !ok ==> !ProperLines(codec, lines, x)
  {
    var value := codec.parse(raw);
    if k > 0 && EntryAt(codec, lines, k).None? { assert !GoodEntry(codec, lines, x, k); }
    if value.None? { return false, s; }
    if !s.header { return value.value == HeaderOf(x), s.(header := true); }
    if s.trailer {
      assert EntryAt(codec, lines, k - 1).None? && !GoodEntry(codec, lines, x, k - 1);
      return false, s;
    }
    match value.value
    case Trailer(_, _, _) => return value.value == TrailerOf(x), s.(trailer := true);
    case EntryLine(e) =>
      if k > 1 { assert GoodEntry(codec, lines, x, 1); }
      ok := InScope(e, x) && Follows(s.previous, e);
      assert ok <==> GoodEntry(codec, lines, x, k);
      s' := s.(first := if s.first.Some? then s.first else Some(e.time), last := Some(e.time), previous := Some(e),
               count := s.count + 1);
    case _ => return false, s;
  }

  /** At most `limit` bytes of the next line of what is left to read. */
  function ReadLine(rest: seq<Byte>, limit: nat): seq<Byte> {
    var line := FirstLine(rest);
    if |line| <= limit then line else line[..limit]
  }

  /** The lines of a file are those read so far and those of what is left. */
  ghost predicate ReadTo(lines: seq<seq<Byte>>, read: seq<seq<Byte>>, rest: seq<Byte>) { lines == read + Lines(rest) }

  /** What the next read finds: the next line, or too much of it. */
  lemma NextLine(lines: seq<seq<Byte>>, read: seq<seq<Byte>>, rest: seq<Byte>)
    requires ReadTo(lines, read, rest) && rest != []
    ensures var raw := ReadLine(rest, MAX_AUDIT_LINE_BYTES + 1);
            && 0 < |raw| <= |rest| && |read| < |lines|
            && (|raw| <= MAX_AUDIT_LINE_BYTES ==> raw == lines[|read|] && ReadTo(lines, read + [raw], rest[|raw|..]))
            && (|raw| > MAX_AUDIT_LINE_BYTES ==> !Whole(lines[|read|]))
  {
    var line := FirstLine(rest);
    assert Lines(rest) == [line] + Lines(rest[|line|..]);
    assert lines == (read + [line]) + Lines(rest[|line|..]);
    assert lines[|read|] == line;
  }

  /** Check the line just read. */
  method TakeLine(codec: Codec, ghost lines: seq<seq<Byte>>, ghost k: nat, raw: seq<Byte>, observed: nat, x: AuditExport,
                  s: Scan)
    returns (ok: bool, s': Scan)
    requires k < |lines| && Scanned(codec, lines, x, k, s) && raw != []
    requires if |raw| <= MAX_AUDIT_LINE_BYTES then raw == lines[k] else !Whole(lines[k])
    ensures ok ==> |raw| <= MAX_AUDIT_LINE_BYTES && observed <= MAX_AUDIT_EXPORT_BYTES
    ensures ok ==> Scanned(codec, lines, x, k + 1, s')
    ensures !ok ==> !ProperLines(codec, lines, x) || observed > MAX_AUDIT_EXPORT_BYTES
  {
    if |raw| > MAX_AUDIT_LINE_BYTES || observed > MAX_AUDIT_EXPORT_BYTES || raw[|raw| - 1] != NEWLINE { return false, s; }
    ok, s' := CheckLine(codec, lines, raw, x, k, s);
  }

  /** The verifier accepts exactly the proper files. */
  method VerifyFile(codec: Codec, file: seq<Byte>, x: AuditExport, sha256: seq<Byte> -> nat) returns (ok: bool)
    ensures ok <==> ProperFile(codec, file, x, sha256)
  {
    if |file| != x.size { return false; }
    var observed, rest, s := 0, file, Scan(false, false, None, None, None, 0);
    ghost var lines, read := Lines(file), [];
    StartReading(file);
    while rest != []
      invariant observed + |rest| == |file| && observed <= MAX_AUDIT_EXPORT_BYTES
      invariant ReadTo(lines, read, rest) && Scanned(codec, lines, x, |read|, s)
      decreases |rest|
    {
      NextLine(lines, read, rest);
      var raw := ReadLine(rest, MAX_AUDIT_LINE_BYTES + 1);
      observed := observed + |raw|;
      ok, s := TakeLine(codec, lines, |read|, raw, observed, x, s);
      if !ok { return; }
      rest, read := rest[|raw|..], read + [raw];
    }
    Concluded(codec, lines, read, x, s);
    ok := s.header && s.trailer && observed == x.size && sha256(file) == x.sha256
          && s.count == x.count && s.first == x.first && s.last == x.last;
  }

  lemma StartReading(file: seq<Byte>)
    ensures ReadTo(Lines(file), [], file)
  {
    assert Lines(file) == [] + Lines(file);
  }

  lemma Concluded(codec: Codec, lines: seq<seq<Byte>>, read: seq<seq<Byte>>, x: AuditExport, s: Scan)
    requires ReadTo(lines, read, []) && Scanned(codec, lines, x, |read|, s)
    ensures ProperLines(codec, lines, x) <==>
      s.header && s.trailer && s.count == x.count && s.first == x.first && s.last == x.last
  {
    var n := |lines|;
    if n >= 2 && !s.trailer { assert GoodEntry(codec, lines, x, n - 1); }
  }

  // ---------- What acceptance implies ----------

  lemma {:induction false} TimesIncrease(codec: Codec, lines: seq<seq<Byte>>, x: AuditExport, i: nat)
    requires ProperLines(codec, lines, x) && 1 <= i < |lines| - 1
    ensures EntryAt(codec, lines, 1).Some? && EntryAt(codec, lines, i).Some?
    ensures EntryAt(codec, lines, 1).value.time <= EntryAt(codec, lines, i).value.time
  {
    assert GoodEntry(codec, lines, x, i);
    if i > 1 { TimesIncrease(codec, lines, x, i - 1); }
  }

  /** The time range an accepted file claims is a range within the cutoff. */
  lemma ProperRange(codec: Codec, lines: seq<seq<Byte>>, x: AuditExport)
    requires ProperLines(codec, lines, x)
    ensures x.count == 0 <==> x.first.None?
    ensures x.first.Some? <==> x.last.Some?
    ensures x.first.Some? ==> x.first.value <= x.last.value <= x.cutoff
  {
    var n := |lines|;
    if n > 2 {
      TimesIncrease(codec, lines, x, n - 2);
      assert GoodEntry(codec, lines, x, n - 2);
    }
  }

  /** All entries of an accepted file are in strictly increasing order of time and identifier, not only neighbours. */
  lemma {:induction false} ProperOrder(codec: Codec, lines: seq<seq<Byte>>, x: AuditExport, i: nat, j: nat)
    requires ProperLines(codec, lines, x) && 1 <= i < j < |lines| - 1
    ensures EntryAt(codec, lines, i).Some? && EntryAt(codec, lines, j).Some?
    ensures Precedes(EntryAt(codec, lines, i).value, EntryAt(codec, lines, j).value)
  {
    assert GoodEntry(codec, lines, x, i) && GoodEntry(codec, lines, x, j);
    if i < j - 1 { ProperOrder(codec, lines, x, i, j - 1); }
  }
}
