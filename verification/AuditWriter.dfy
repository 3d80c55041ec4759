/** The bounded audit writer, and the export built on it. */
module AuditWriter {
  import opened Utf8
  import opened AuditFile
  import opened Wrappers

  datatype Scope = Scope(id: Uuid, tenant: Uuid, cutoff: Time)

  datatype Limits = Limits(maxBytes: nat, maxRecords: nat)

  /** The records of an export: one header, the entries, and after finishing one trailer. */
  function Records(scope: Scope, entries: seq<Entry>): (lines: seq<Line>)
    ensures |lines| == |entries| + 1
  {
    [Header(scope.id, scope.tenant, scope.cutoff)]
    + seq(|entries|, i requires 0 <= i < |entries| => EntryLine(entries[i]))
  }

  function FirstTime(entries: seq<Entry>): Option<Time> { if entries == [] then None else Some(entries[0].time) }

  function LastTime(entries: seq<Entry>): Option<Time> {
    if entries == [] then None else Some(entries[|entries| - 1].time)
  }

  function Closing(entries: seq<Entry>): Line { Trailer(|entries|, FirstTime(entries), LastTime(entries)) }

  /** Entry `i` is valid, in scope, and after the one before it. */
  predicate Placed(codec: Codec, scope: Scope, entries: seq<Entry>, i: nat)
    requires i < |entries|
  {
    && ValidEntry(codec, entries[i]) && entries[i].tenant == scope.tenant && entries[i].time <= scope.cutoff
    && (i > 0 ==> Precedes(entries[i - 1], entries[i]))
  }

  ghost predicate Ordered(codec: Codec, scope: Scope, entries: seq<Entry>) {
    forall i :: 0 <= i < |entries| ==> Placed(codec, scope, entries, i)
  }

  /** What the writer accepts: ordered entries within both limits. */
  ghost predicate Acceptable(codec: Codec, scope: Scope, limits: Limits, entries: seq<Entry>) {
    && Ordered(codec, scope, entries) && |entries| <= limits.maxRecords
    && |Render(codec, Records(scope, entries))| <= limits.maxBytes
  }

  class Writer {
    const codec: Codec
    const scope: Scope
    const limits: Limits
    var file: seq<Byte>
    var writtenBytes: nat
    var lastKey: Option<Entry>
    var recordCount: nat
    var first: Option<Time>
    var last: Option<Time>
    ghost var lines: seq<Line>

    constructor (codec: Codec, scope: Scope, limits: Limits)
      ensures this.codec == codec && this.scope == scope && this.limits == limits && Bounded() && lines == []
      ensures lastKey.None? && recordCount == 0 && first.None? && last.None?
    {
      this.codec, this.scope, this.limits := codec, scope, limits;
      file, writtenBytes, lastKey, recordCount, first, last, lines := [], 0, None, 0, None, None, [];
    }

    /** The file holds exactly the records written, within the byte limit. */
    ghost predicate Bounded()
      reads this
    {
      file == Render(codec, lines) && writtenBytes == |file| <= limits.maxBytes
    }

    /** The header and these entries have been written, and the counters say so. */
    ghost predicate Holds(entries: seq<Entry>)
      reads this
    {
      && Bounded() && lines == Records(scope, entries) && Ordered(codec, scope, entries)
      && recordCount == |entries| <= limits.maxRecords
      && first == FirstTime(entries) && last == LastTime(entries)
      && lastKey == (if entries == [] then None else Some(entries[|entries| - 1]))
    }

    method WriteJson(l: Line) returns (ok: bool)
      requires Bounded()
      modifies this`file, this`writtenBytes, this`lines
      ensures Bounded() && lines == if ok then old(lines) + [l] else old(lines)
      ensures ok <==> old(writtenBytes) + |Printed(codec, l)| <= limits.maxBytes
    {
      var payload := Printed(codec, l);
      if writtenBytes + |payload| > limits.maxBytes { return false; }
      RenderNext(codec, lines, l);
      file, writtenBytes, lines := file + payload, writtenBytes + |payload|, lines + [l];
      return true;
    }

    method WriteHeader() returns (ok: bool)
      requires Bounded() && lines == [] && lastKey.None? && recordCount == 0 && first.None? && last.None?
      modifies this`file, this`writtenBytes, this`lines
      ensures ok ==> Holds([])
      ensures ok <==> Acceptable(codec, scope, limits, [])
    {
      RenderNext(codec, [], Header(scope.id, scope.tenant, scope.cutoff));
      ok := WriteJson(Header(scope.id, scope.tenant, scope.cutoff));
      NoEntries(codec, scope);
    }

    /** One entry, refused when it is out of scope, out of order or over a limit. */
    method WriteEntry(e: Entry, ghost entries: seq<Entry>) returns (ok: bool)
      requires Holds(entries) && ValidEntry(codec, e)
      modifies this
      ensures ok ==> Holds(entries + [e])
      ensures ok <==> Acceptable(codec, scope, limits, entries + [e])
    {
      NextAcceptable(codec, scope, limits, entries, e);
      if e.tenant != scope.tenant || e.time > scope.cutoff { return false; }
      if lastKey.Some? && !Precedes(lastKey.value, e) { return false; }
      if recordCount >= limits.maxRecords { return false; }
      ok := WriteJson(EntryLine(e));
      if !ok { return; }
      recordCount := recordCount + 1;
      first := if first.Some? then first else Some(e.time);
      last := Some(e.time);
      lastKey := Some(e);
      OneMore(codec, scope, entries, e);
    }

    /** A batch of entries in order. */
    method WriteEntries(batch: seq<Entry>, ghost entries: seq<Entry>) returns (ok: bool)
      requires Holds(entries) && forall i :: 0 <= i < |batch| ==> ValidEntry(codec, batch[i])
      modifies this
      ensures ok ==> Holds(entries + batch)
      ensures ok <==> Acceptable(codec, scope, limits, entries + batch)
    {
      assert entries + batch[..0] == entries && batch[..|batch|] == batch;
      for i := 0 to |batch|
        invariant Holds(entries + batch[..i])
      {
        assert entries + batch[..i] + [batch[i]] == entries + batch[..i + 1];
        assert entries + batch[..i + 1] + batch[i + 1..] == entries + batch;
        if Acceptable(codec, scope, limits, entries + batch) {
          AcceptablePrefix(codec, scope, limits, entries + batch[..i + 1], batch[i + 1..]);
        }
        ok := WriteEntry(batch[i], entries + batch[..i]);
        if !ok { return; }
      }
      return true;
    }

    method Finish(ghost entries: seq<Entry>) returns (ok: bool)
      requires Holds(entries)
      modifies this`file, this`writtenBytes, this`lines
      ensures ok ==> Bounded() && lines == AllRecords(scope, entries)
      ensures ok <==> |Render(codec, AllRecords(scope, entries))| <= limits.maxBytes
    {
      RenderNext(codec, lines, Closing(entries));
      ok := WriteJson(Trailer(recordCount, first, last));
    }
  }

  lemma RenderNext(codec: Codec, lines: seq<Line>, l: Line)
    ensures Render(codec, lines + [l]) == Render(codec, lines) + Printed(codec, l)
  {
    assert (lines + [l])[..|lines|] == lines;
  }

  lemma NoEntries(codec: Codec, scope: Scope)
    ensures [] + [Header(scope.id, scope.tenant, scope.cutoff)] == Records(scope, []) && Ordered(codec, scope, [])
  {
  }

  lemma OneMore(codec: Codec, scope: Scope, entries: seq<Entry>, e: Entry)
    requires Ordered(codec, scope, entries) && ValidEntry(codec, e) && e.tenant == scope.tenant && e.time <= scope.cutoff
    requires entries != [] ==> Precedes(entries[|entries| - 1], e)
    ensures Ordered(codec, scope, entries + [e])
    ensures Records(scope, entries + [e]) == Records(scope, entries) + [EntryLine(e)]
  {
    var more := entries + [e];
    forall i | 0 <= i < |more| ensures Placed(codec, scope, more, i) {
      if i < |entries| { assert Placed(codec, scope, entries, i); }
    }
  }

  lemma NextAcceptable(codec: Codec, scope: Scope, limits: Limits, entries: seq<Entry>, e: Entry)
    requires Ordered(codec, scope, entries) && ValidEntry(codec, e)
    ensures Acceptable(codec, scope, limits, entries + [e]) <==>
      && e.tenant == scope.tenant && e.time <= scope.cutoff
      && (entries != [] ==> Precedes(entries[|entries| - 1], e)) && |entries| < limits.maxRecords
      && |Render(codec, Records(scope, entries))| + |Printed(codec, EntryLine(e))| <= limits.maxBytes
  {
    var more := entries + [e];
    assert Records(scope, more) == Records(scope, entries) + [EntryLine(e)];
    RenderNext(codec, Records(scope, entries), EntryLine(e));
    if Ordered(codec, scope, more) {
      assert Placed(codec, scope, more, |entries|);
    } else if e.tenant == scope.tenant && e.time <= scope.cutoff && entries == [] {
      OneMore(codec, scope, entries, e);
    } else if e.tenant == scope.tenant && e.time <= scope.cutoff && Precedes(entries[|entries| - 1], e) {
      OneMore(codec, scope, entries, e);
    }
  }

  lemma {:induction false} RenderGrows(codec: Codec, lines: seq<Line>, n: nat)
    requires n <= |lines|
    ensures |Render(codec, lines[..n])| <= |Render(codec, lines)|
  {
    if n < |lines| {
      RenderGrows(codec, lines[..|lines| - 1], n);
      assert lines[..|lines| - 1][..n] == lines[..n];
    } else {
      assert lines[..n] == lines;
    }
  }

  /** The writer never accepts more after refusing less. */
  lemma AcceptablePrefix(codec: Codec, scope: Scope, limits: Limits, entries: seq<Entry>, more: seq<Entry>)
    requires Acceptable(codec, scope, limits, entries + more)
    ensures Acceptable(codec, scope, limits, entries)
  {
    var all := entries + more;
    forall i | 0 <= i < |entries| ensures Placed(codec, scope, entries, i) { assert Placed(codec, scope, all, i); }
    assert Records(scope, all)[..|entries| + 1] == Records(scope, entries);
    RenderGrows(codec, Records(scope, all), |entries| + 1);
  }

  // ---------- The export ----------

  /** The metadata built from the writer's counters and the stored object. */
  function Metadata(scope: Scope, entries: seq<Entry>, file: seq<Byte>, sha256: seq<Byte> -> nat, clock: Time): AuditExport {
    AuditExport(scope.id, scope.tenant, scope.cutoff, scope.cutoff, |file|, sha256(file), |entries|, FirstTime(entries),
                LastTime(entries), clock)
  }

  lemma PrintedIsWhole(codec: Codec, l: Line)
    requires Faithful(codec) && Printable(codec, l)
    ensures Whole(Printed(codec, l)) && codec.parse(Printed(codec, l)) == Some(l)
  {
    LineFits(codec, l);
  }

  function AllRecords(scope: Scope, entries: seq<Entry>): (all: seq<Line>)
    ensures |all| == |entries| + 2
  {
    Records(scope, entries) + [Closing(entries)]
  }

  /** Line by line, what was written is read back whole. */
  ghost predicate ReadsBack(codec: Codec, lines: seq<seq<Byte>>, all: seq<Line>) {
    |lines| == |all| && forall i :: 0 <= i < |lines| ==> Whole(lines[i]) && codec.parse(lines[i]) == Some(all[i])
  }

  lemma RecordAt(scope: Scope, entries: seq<Entry>, i: nat)
    requires i < |entries| + 2
    ensures AllRecords(scope, entries)[i] ==
      if i == 0 then Header(scope.id, scope.tenant, scope.cutoff)
      else if i <= |entries| then EntryLine(entries[i - 1]) else Closing(entries)
  {
  }

  lemma WrittenReadsBack(codec: Codec, scope: Scope, entries: seq<Entry>)
    requires Faithful(codec) && Ordered(codec, scope, entries) && |entries| <= MAX_AUDIT_EXPORT_RECORDS
    ensures ReadsBack(codec, Lines(Render(codec, AllRecords(scope, entries))), AllRecords(scope, entries))
  {
    var all := AllRecords(scope, entries);
    forall i | 0 <= i < |all|
      ensures Printable(codec, all[i]) && Whole(Printed(codec, all[i])) && codec.parse(Printed(codec, all[i])) == Some(all[i])
    {
      RecordAt(scope, entries, i);
      if 1 <= i <= |entries| { assert Placed(codec, scope, entries, i - 1); }
      PrintedIsWhole(codec, all[i]);
    }
    LinesOfRender(codec, all);
  }

  lemma EntryReadsBack(codec: Codec, lines: seq<seq<Byte>>, scope: Scope, entries: seq<Entry>, i: nat)
    requires ReadsBack(codec, lines, AllRecords(scope, entries)) && 1 <= i <= |entries|
    ensures EntryAt(codec, lines, i) == Some(entries[i - 1])
  {
    RecordAt(scope, entries, i);
  }

  lemma ReadBackIsProper(codec: Codec, lines: seq<seq<Byte>>, scope: Scope, entries: seq<Entry>, x: AuditExport)
    requires ReadsBack(codec, lines, AllRecords(scope, entries)) && Ordered(codec, scope, entries)
    requires HeaderOf(x) == Header(scope.id, scope.tenant, scope.cutoff) && TrailerOf(x) == Closing(entries)
    ensures ProperLines(codec, lines, x)
  {
    RecordAt(scope, entries, 0);
    RecordAt(scope, entries, |entries| + 1);
    forall i | 1 <= i < |lines| - 1 ensures GoodEntry(codec, lines, x, i) {
      assert Placed(codec, scope, entries, i - 1);
      EntryReadsBack(codec, lines, scope, entries, i);
      if i > 1 { EntryReadsBack(codec, lines, scope, entries, i - 1); }
    }
    if entries != [] {
      EntryReadsBack(codec, lines, scope, entries, 1);
      EntryReadsBack(codec, lines, scope, entries, |entries|);
    }
  }

  /** Whatever ordered entries were written, the file and the metadata built from it are proper. */
  lemma WrittenIsProper(codec: Codec, scope: Scope, entries: seq<Entry>, sha256: seq<Byte> -> nat, clock: Time)
    requires Faithful(codec) && Ordered(codec, scope, entries) && |entries| <= MAX_AUDIT_EXPORT_RECORDS
    requires |Render(codec, AllRecords(scope, entries))| <= MAX_AUDIT_EXPORT_BYTES
    ensures var file := Render(codec, AllRecords(scope, entries));
            ProperFile(codec, file, Metadata(scope, entries, file, sha256, clock), sha256)
  {
    var file := Render(codec, AllRecords(scope, entries));
    WrittenReadsBack(codec, scope, entries);
    ReadBackIsProper(codec, Lines(file), scope, entries, Metadata(scope, entries, file, sha256, clock));
  }

  function Flat(batches: seq<seq<Entry>>, n: nat): seq<Entry>
    requires n <= |batches|
  {
    if n == 0 then [] else Flat(batches, n - 1) + batches[n - 1]
  }

  /** Everything the writer is asked to write is acceptable. */
  ghost predicate Writable(codec: Codec, scope: Scope, limits: Limits, entries: seq<Entry>) {
    && Ordered(codec, scope, entries) && |entries| <= limits.maxRecords
    && |Render(codec, AllRecords(scope, entries))| <= limits.maxBytes
  }

  lemma WritableIsAcceptable(codec: Codec, scope: Scope, limits: Limits, entries: seq<Entry>)
    requires Writable(codec, scope, limits, entries)
    ensures Acceptable(codec, scope, limits, entries)
  {
    RenderNext(codec, Records(scope, entries), Closing(entries));
  }

  lemma {:induction false} FlatPrefix(batches: seq<seq<Entry>>, n: nat, m: nat)
    requires n <= m <= |batches|
    ensures Flat(batches, n) <= Flat(batches, m)
  {
    if n < m { FlatPrefix(batches, n, m - 1); }
  }

  lemma WritableBatches(codec: Codec, scope: Scope, limits: Limits, batches: seq<seq<Entry>>, n: nat)
    requires n <= |batches| && Writable(codec, scope, limits, Flat(batches, |batches|))
    ensures Acceptable(codec, scope, limits, Flat(batches, n))
  {
    var part, all := Flat(batches, n), Flat(batches, |batches|);
    FlatPrefix(batches, n, |batches|);
    WritableIsAcceptable(codec, scope, limits, all);
    assert all == part + all[|part|..];
    AcceptablePrefix(codec, scope, limits, part, all[|part|..]);
  }

  /** Write every batch between a header and a trailer: it succeeds exactly when all of it is writable. */
  method WriteAll(codec: Codec, scope: Scope, limits: Limits, batches: seq<seq<Entry>>)
    returns (ok: bool, file: seq<Byte>, count: nat, first: Option<Time>, last: Option<Time>)
    requires forall b, i :: 0 <= b < |batches| && 0 <= i < |batches[b]| ==> ValidEntry(codec, batches[b][i])
    ensures ok <==> Writable(codec, scope, limits, Flat(batches, |batches|))
    ensures ok ==> file == Render(codec, AllRecords(scope, Flat(batches, |batches|)))
    ensures ok ==> Trailer(count, first, last) == Closing(Flat(batches, |batches|))
  {
    file, count, first, last := [], 0, None, None;
    ghost var entries := Flat(batches, |batches|);
    if Writable(codec, scope, limits, entries) { WritableBatches(codec, scope, limits, batches, 0); }
    var w := new Writer(codec, scope, limits);
    ok := w.WriteHeader();
    if !ok { return; }
    for b := 0 to |batches|
      invariant w.codec == codec && w.scope == scope && w.limits == limits && fresh(w) && w.Holds(Flat(batches, b))
    {
      if Writable(codec, scope, limits, entries) { WritableBatches(codec, scope, limits, batches, b + 1); }
      ok := w.WriteEntries(batches[b], Flat(batches, b));
      if !ok { return; }
    }
    ok := w.Finish(entries);
    file, count, first, last := w.file, w.recordCount, w.first, w.last;
  }

  /** Export every batch. Once written, the metadata can be built exactly if the clock has not gone back behind the cutoff,
      and then the verifier accepts the file. */
  method Export(codec: Codec, scope: Scope, limits: Limits, batches: seq<seq<Entry>>, sha256: seq<Byte> -> nat, clock: Time)
    returns (file: seq<Byte>, x: Option<AuditExport>)
    requires Faithful(codec) && limits.maxBytes <= MAX_AUDIT_EXPORT_BYTES
    requires limits.maxRecords <= MAX_AUDIT_EXPORT_RECORDS
    requires forall b, i :: 0 <= b < |batches| && 0 <= i < |batches[b]| ==> ValidEntry(codec, batches[b][i])
    ensures x.Some? <==> Writable(codec, scope, limits, Flat(batches, |batches|)) && clock >= scope.cutoff
    ensures x.Some? ==> file == Render(codec, AllRecords(scope, Flat(batches, |batches|)))
    ensures x.Some? ==> ValidExport(x.value) && ProperFile(codec, file, x.value, sha256)
  {
    x := None;
    var ok, count, first, last;
    ok, file, count, first, last := WriteAll(codec, scope, limits, batches);
    if !ok { return; }
    WrittenIsProper(codec, scope, Flat(batches, |batches|), sha256, clock);
    var built := AuditExport(scope.id, scope.tenant, scope.cutoff, scope.cutoff, |file|, sha256(file), count, first, last,
                             clock);
    ProperRange(codec, Lines(file), built);
    if ValidExport(built) { x := Some(built); }
  }
}
