/** JSON result sizes and the automaton that consumes one tool stream. */
module ToolRun {
  import opened Text
  import opened Utf8
  import opened ToolOutput
  import opened Wrappers

  // ---------- JSON objects and their canonical size ----------

  datatype Value = Str(text: Text) | Other(bytes: nat)

  datatype Member = Member(key: Text, value: Value)

  type Object = seq<Member>

  const REVISION_KEY: Text :=   // workspace_revision
    [119, 111, 114, 107, 115, 112, 97, 99, 101, 95, 114, 101, 118, 105, 115, 105, 111, 110]
  const MAX_REVISION := 255
  const METADATA_RESERVE := 2048

  function ValueSize(v: Value): nat { if v.Str? then 2 + Weight(JsonBytes, v.text) else v.bytes }

  function MemberSize(m: Member): nat { 3 + Weight(JsonBytes, m.key) + ValueSize(m.value) }

  function MembersSize(o: Object): nat { if o == [] then 0 else MemberSize(o[0]) + MembersSize(o[1..]) }

  /** Compact serialization: braces, members and the commas between them. */
  function ObjectSize(o: Object): nat { 2 + MembersSize(o) + if o == [] then 0 else |o| - 1 }

  function Set(o: Object, key: Text, value: Value): Object {
    if o == [] then [Member(key, value)]
    else if o[0].key == key then [Member(key, value)] + o[1..]
    else [o[0]] + Set(o[1..], key, value)
  }

  function Lookup(o: Object, key: Text): Option<Value> {
    if o == [] then None else if o[0].key == key then Some(o[0].value) else Lookup(o[1..], key)
  }

  lemma {:induction false} SetLookup(o: Object, key: Text, value: Value, other: Text)
    ensures Lookup(Set(o, key, value), other) == if other == key then Some(value) else Lookup(o, other)
  {
    if o != [] && o[0].key != key {
      assert Set(o, key, value)[1..] == Set(o[1..], key, value);
      SetLookup(o[1..], key, value, other);
    } else if o != [] {
      assert Set(o, key, value)[1..] == o[1..];
    }
  }

  lemma {:induction false} SetSize(o: Object, key: Text, value: Value)
    ensures MembersSize(Set(o, key, value)) <= MembersSize(o) + MemberSize(Member(key, value))
    ensures |Set(o, key, value)| <= |o| + 1
  {
    if o != [] && o[0].key != key {
      assert Set(o, key, value)[1..] == Set(o[1..], key, value);
      SetSize(o[1..], key, value);
    } else if o != [] {
      assert Set(o, key, value)[1..] == o[1..];
    }
  }

  predicate ValidRevision(t: Text) {
    0 < |t| <= MAX_REVISION && 0 !in t && Stripped(t)
  }

  /** What a checkpointed tool may return: the reserve is withheld for the revision added afterwards. */
  function ResultLimit(maxResultBytes: nat, checkpointed: bool): nat {
    if !checkpointed then maxResultBytes
    else if maxResultBytes - METADATA_RESERVE > 1 then maxResultBytes - METADATA_RESERVE else 1
  }

  /** The reserve always suffices: a result accepted under the reduced limit still fits with any valid revision. */
  lemma ReserveSuffices(o: Object, revision: Text, maxResultBytes: nat)
    requires ValidRevision(revision) && ObjectSize(o) <= ResultLimit(maxResultBytes, true)
    ensures ObjectSize(Set(o, REVISION_KEY, Str(revision))) <= maxResultBytes
  {
    SetSize(o, REVISION_KEY, Str(revision));
    WeightBounds(JsonBytes, revision);
    WeightBounds(JsonBytes, REVISION_KEY);
  }

  // ---------- One tool stream ----------

  datatype StreamItem = Chunk(channel: Channel, chunk: Text) | Done(result: Object) | Unsupported

  /** How the stream stops once its items have been delivered. */
  datatype StreamEnd = Ended | TimedOut | DomainError | Crashed | Cancelled

  /** A stream: its items, how it stops after the last of them, and how closing it goes when it is left before that. */
  datatype Stream = Stream(items: seq<StreamItem>, ending: StreamEnd, closing: StreamEnd)

  datatype RunResult =
    | Ran(output: seq<Output>, result: Object)
    | Failed(output: seq<Output>, code: string)
    | CancelledRun

  datatype Limits = Limits(maxOutputBytes: nat, maxResultBytes: nat)

  /** Arbitrary redaction of text and of JSON objects. */
  datatype Redaction = Redaction(text: Text -> Text, json: Object -> Object)

  /** Output bytes in the first `n` items. */
  function ChunkBytes(items: seq<StreamItem>, n: nat): nat
    requires n <= |items|
  {
    if n == 0 then 0
    else ChunkBytes(items, n - 1) + match items[n - 1] case Chunk(_, c) => Size(c) case _ => 0
  }

  /** The channel-tagged characters of the first `n` items. */
  function Spoken(items: seq<StreamItem>, n: nat): seq<(Channel, Scalar)>
    requires n <= |items|
  {
    if n == 0 then []
    else Spoken(items, n - 1) + match items[n - 1] case Chunk(ch, c) => Tag(ch, c) case _ => []
  }

  predicate ChunksOnly(items: seq<StreamItem>, n: int)
    requires n <= |items|
  {
    forall i :: 0 <= i < n ==> items[i].Chunk?
  }

  /** Chunk text is never empty, as its type requires. */
  predicate TextChunks(items: seq<StreamItem>) {
    forall i :: 0 <= i < |items| && items[i].Chunk? ==> items[i].chunk != []
  }

  /** Output within its limit, then exactly one result, then nothing. */
  predicate GoodStream(items: seq<StreamItem>, maxOutputBytes: nat) {
    && items != [] && items[|items| - 1].Done? && ChunksOnly(items, |items| - 1)
    && ChunkBytes(items, |items|) <= maxOutputBytes
  }

  /** The first `n` items keep the protocol: output within its limit, and at most one result, last. */
  predicate Protocol(items: seq<StreamItem>, n: nat, maxOutputBytes: nat)
    requires n <= |items|
  {
    ChunksOnly(items, n - 1) && (n > 0 ==> !items[n - 1].Unsupported?) && ChunkBytes(items, n) <= maxOutputBytes
  }

  /** A stream that ends without breaking the protocol, with its result or before it. */
  predicate Clean(items: seq<StreamItem>, maxOutputBytes: nat) { Protocol(items, |items|, maxOutputBytes) }

  /** Item `k` is the first to break it. */
  predicate BreaksAt(items: seq<StreamItem>, k: nat, maxOutputBytes: nat) {
    k < |items| && Protocol(items, k, maxOutputBytes) && !Protocol(items, k + 1, maxOutputBytes)
  }

  /** It is a chunk where one may be, so it must be too long. */
  predicate Excess(items: seq<StreamItem>, k: nat)
    requires k < |items|
  {
    items[k].Chunk? && ChunksOnly(items, k)
  }

  function BreakCode(items: seq<StreamItem>, k: nat): string
    requires k < |items|
  {
    if Excess(items, k) then "tool_output_limit" else "invalid_tool_stream"
  }

  lemma ProtocolShrinks(items: seq<StreamItem>, m: nat, n: nat, maxOutputBytes: nat)
    requires m <= n <= |items| && Protocol(items, n, maxOutputBytes)
    ensures Protocol(items, m, maxOutputBytes)
  {
    Grow(items, m, n);
  }

  /** The protocol is broken at one item, and at none exactly when the stream is clean. */
  lemma BreaksOnce(items: seq<StreamItem>, j: nat, k: nat, maxOutputBytes: nat)
    requires BreaksAt(items, j, maxOutputBytes)
    ensures !Clean(items, maxOutputBytes) && (BreaksAt(items, k, maxOutputBytes) ==> k == j)
  {
    if Clean(items, maxOutputBytes) { ProtocolShrinks(items, j + 1, |items|, maxOutputBytes); }
    if BreaksAt(items, k, maxOutputBytes) && j < k { ProtocolShrinks(items, j + 1, k, maxOutputBytes); }
    if BreaksAt(items, k, maxOutputBytes) && k < j { ProtocolShrinks(items, k + 1, j, maxOutputBytes); }
  }

  ghost predicate Captures(items: seq<StreamItem>, n: nat, output: seq<Output>)
    requires n <= |items|
  {
    Tagged(output) == Spoken(items, n) && Unmarked(output) && (TextChunks(items) ==> NoEmptyChunk(output))
  }

  /** One output chunk of the stream, appended within the remaining budget. */
  method TakeChunk(items: seq<StreamItem>, i: nat, output: seq<Output>, remaining: nat)
    returns (r: seq<Output>, left: nat, overflow: bool)
    requires i < |items| && items[i].Chunk? && Captures(items, i, output)
    requires output != [] || remaining >= MAX_WIDTH
    ensures overflow <==> Size(items[i].chunk) > remaining
    ensures r != [] && if overflow then MarkedTruncated(r) else left == remaining - Size(items[i].chunk)
    ensures !overflow ==> Captures(items, i + 1, r) && Total(r) + left == Total(output) + remaining
    ensures overflow ==> Total(r) + MAX_WIDTH > Total(output) + remaining
    ensures Spoken(items, i) <= Tagged(r) <= Spoken(items, i + 1) && (TextChunks(items) ==> NoEmptyChunk(r))
  {
    CutSpoken(items, i, remaining);
    r, left, overflow := AppendBounded(output, items[i].channel, items[i].chunk, remaining);
  }

  /** After `i` items that kept the protocol: the budget left, the output captured and the result seen, if any. */
  ghost predicate Collecting(items: seq<StreamItem>, i: nat, output: seq<Output>, remaining: nat,
                             completion: Option<Object>, maxOutputBytes: nat)
  {
    && i <= |items| && ChunkBytes(items, i) + remaining == Total(output) + remaining == maxOutputBytes
    && (completion.None? ==> ChunksOnly(items, i))
    && (completion.Some? ==>
          i > 0 && ChunksOnly(items, i - 1) && items[i - 1].Done? && completion == Some(items[i - 1].result))
    && (output == [] ==> remaining == maxOutputBytes)
    && Captures(items, i, output)
  }

  /** What was heard of a stream broken at item `k`: everything before it, and a part of an overflowing chunk. */
  ghost predicate HeardTo(items: seq<StreamItem>, k: nat, output: seq<Output>)
    requires k < |items|
  {
    && Spoken(items, k) <= Tagged(output) <= Spoken(items, k + 1)
    && (!Excess(items, k) ==> Tagged(output) == Spoken(items, k))
  }

  ghost predicate Broken(items: seq<StreamItem>, output: seq<Output>, failure: string, maxOutputBytes: nat) {
    && (exists k ::
          && BreaksAt(items, k, maxOutputBytes) && failure == BreakCode(items, k) && HeardTo(items, k, output)
          && (Excess(items, k) ==> MarkedTruncated(output) && Total(output) + MAX_WIDTH > maxOutputBytes))
    && (TextChunks(items) ==> NoEmptyChunk(output))
  }

  lemma OutOfPlace(items: seq<StreamItem>, i: nat, output: seq<Output>, remaining: nat, completion: Option<Object>,
                   maxOutputBytes: nat)
    requires i < |items| && Collecting(items, i, output, remaining, completion, maxOutputBytes)
    requires completion.Some? || items[i].Unsupported?
    ensures Broken(items, output, "invalid_tool_stream", maxOutputBytes)
  {
    assert BreaksAt(items, i, maxOutputBytes) && HeardTo(items, i, output);
  }

  lemma Overflows(items: seq<StreamItem>, i: nat, r: seq<Output>, maxOutputBytes: nat)
    requires i < |items| && Protocol(items, i, maxOutputBytes) && Excess(items, i)
    requires ChunkBytes(items, i) + Size(items[i].chunk) > maxOutputBytes
    requires Spoken(items, i) <= Tagged(r) <= Spoken(items, i + 1)
    requires MarkedTruncated(r) && Total(r) + MAX_WIDTH > maxOutputBytes && (TextChunks(items) ==> NoEmptyChunk(r))
    ensures Broken(items, r, "tool_output_limit", maxOutputBytes)
  {
    assert BreaksAt(items, i, maxOutputBytes);
    assert HeardTo(items, i, r);
  }

  /** One item of the stream. */
  method TakeItem(items: seq<StreamItem>, i: nat, output: seq<Output>, remaining: nat, completion: Option<Object>,
                  ghost maxOutputBytes: nat)
    returns (r: seq<Output>, left: nat, done: Option<Object>, failure: string)
    requires i < |items| && Collecting(items, i, output, remaining, completion, maxOutputBytes)
    requires maxOutputBytes >= MAX_WIDTH
    ensures if failure == "" then Collecting(items, i + 1, r, left, done, maxOutputBytes)
            else Broken(items, r, failure, maxOutputBytes)
  {
    r, left, done, failure := output, remaining, completion, "";
    if completion.Some? || items[i].Unsupported? {
      OutOfPlace(items, i, output, remaining, completion, maxOutputBytes);
      failure := "invalid_tool_stream";
    } else if items[i].Chunk? {
      var overflow;
      r, left, overflow := TakeChunk(items, i, output, remaining);
      if overflow {
        Overflows(items, i, r, maxOutputBytes);
        failure := "tool_output_limit";
      }
    } else {
      done := Some(items[i].result);
    }
  }

  /** The streaming loop. It stops at the first item that breaks the protocol; the captured output never exceeds the
      limit and says when it was cut. */
  method Collect(items: seq<StreamItem>, maxOutputBytes: nat)
    returns (output: seq<Output>, failure: string, completion: Option<Object>)
    requires maxOutputBytes >= MAX_WIDTH
    ensures failure == "" <==> Clean(items, maxOutputBytes)
    ensures failure == "" ==> completion == if ChunksOnly(items, |items|) then None else Some(items[|items| - 1].result)
    ensures failure == "" ==> Captures(items, |items|, output)
    ensures failure != "" ==> Broken(items, output, failure, maxOutputBytes)
  {
    output, failure, completion := [], "", None;
    var remaining := maxOutputBytes;
    for i := 0 to |items|
      invariant Collecting(items, i, output, remaining, completion, maxOutputBytes)
    {
      output, remaining, completion, failure := TakeItem(items, i, output, remaining, completion, maxOutputBytes);
      if failure != "" {
        ghost var k :| BreaksAt(items, k, maxOutputBytes);
        BreaksOnce(items, k, k, maxOutputBytes);
        return;
      }
    }
    failure := "";
  }

  lemma {:induction false} Grow(items: seq<StreamItem>, i: nat, j: nat)
    requires i <= j <= |items|
    ensures ChunkBytes(items, i) <= ChunkBytes(items, j) && Spoken(items, i) <= Spoken(items, j)
  {
    if i < j { Grow(items, i, j - 1); }
  }

  lemma CutSpoken(items: seq<StreamItem>, i: nat, remaining: nat)
    requires i < |items| && items[i].Chunk?
    ensures Spoken(items, i) + Tag(items[i].channel, Prefix(items[i].chunk, remaining)) <= Spoken(items, i + 1)
    ensures Size(items[i].chunk) <= remaining ==> Prefix(items[i].chunk, remaining) == items[i].chunk
  {
    PrefixIsLongest(items[i].chunk, remaining);
    assert Tag(items[i].channel, Prefix(items[i].chunk, remaining)) <= Tag(items[i].channel, items[i].chunk);
  }

  /** How a run ends: a stream that breaks the protocol is left there and closed, one that keeps it has stopped. */
  function Stop(stream: Stream, maxOutputBytes: nat): StreamEnd {
    if Clean(stream.items, maxOutputBytes) then stream.ending else stream.closing
  }

  /** The code for a stream that raised, or else the given one. */
  function RaisedCode(stop: StreamEnd, otherwise: string): string {
    match stop
    case TimedOut => "tool_timeout"
    case DomainError => "domain_error"
    case Crashed => "tool_execution_failed"
    case _ => otherwise
  }

  /** The code for a stream that kept the protocol and still gave no usable result. */
  function ShortfallCode(items: seq<StreamItem>): string {
    if ChunksOnly(items, |items|) then "invalid_tool_stream" else "tool_result_limit"
  }

  /** The merged output of a stream: the one merged form of all that was said, or of what was said up to the break. */
  ghost predicate Merges(items: seq<StreamItem>, maxOutputBytes: nat, merged: seq<Output>) {
    && Alternating(merged) && (TextChunks(items) ==> NoEmptyChunk(merged))
    && if Clean(items, maxOutputBytes) then Tagged(merged) == Spoken(items, |items|) && Unmarked(merged)
       else exists k :: BreaksAt(items, k, maxOutputBytes) && HeardTo(items, k, merged)
  }

  /** The output a run reports: the merged output of the stream, redacted and cut to the limit. */
  ghost predicate Delivers(items: seq<StreamItem>, maxOutputBytes: nat, redact: Text -> Text, output: seq<Output>) {
    && (exists merged ::
          Merges(items, maxOutputBytes, merged) && CutTo(output, Redacted(merged, redact), maxOutputBytes))
    && (KeepsText(redact) && TextChunks(items) ==> NoEmptyChunk(output))
  }

  /** Why a run failed; output that was cut while it streamed stays marked. */
  ghost predicate FailsWith(stream: Stream, maxOutputBytes: nat, output: seq<Output>, code: string) {
    if Clean(stream.items, maxOutputBytes) then code == RaisedCode(stream.ending, ShortfallCode(stream.items))
    else
      exists k :: BreaksAt(stream.items, k, maxOutputBytes)
                  && code == RaisedCode(stream.closing, BreakCode(stream.items, k))
                  && (Excess(stream.items, k) ==> MarkedTruncated(output))
  }

  /** What one tool run yields: a result exactly when the stream is good and both the result and its redaction fit, a
      cancellation exactly when the stream was cancelled as it stopped or was closed, and otherwise a failure whose code
      says why; and, unless it was cancelled, the output of the stream. */
  ghost predicate Yields(stream: Stream, limits: Limits, checkpointed: bool, r: Redaction, run: RunResult) {
    && (run.Ran? <==>
          && stream.ending.Ended? && GoodStream(stream.items, limits.maxOutputBytes)
          && ObjectSize(stream.items[|stream.items| - 1].result) <= ResultLimit(limits.maxResultBytes, checkpointed)
          && ObjectSize(r.json(stream.items[|stream.items| - 1].result))
             <= ResultLimit(limits.maxResultBytes, checkpointed))
    && (run.Ran? ==> run.result == r.json(stream.items[|stream.items| - 1].result))
    && (run.CancelledRun? <==> Stop(stream, limits.maxOutputBytes).Cancelled?)
    && (run.Failed? ==> FailsWith(stream, limits.maxOutputBytes, run.output, run.code))
    && (!run.CancelledRun? ==> Delivers(stream.items, limits.maxOutputBytes, r.text, run.output))
  }

  lemma MergedDelivers(items: seq<StreamItem>, maxOutputBytes: nat, redact: Text -> Text, output: seq<Output>,
                       failure: string, merged: seq<Output>, reported: seq<Output>)
    requires if Clean(items, maxOutputBytes) then Captures(items, |items|, output)
             else Broken(items, output, failure, maxOutputBytes)
    requires Tagged(merged) == Tagged(output) && Alternating(merged)
    requires (NoEmptyChunk(output) ==> NoEmptyChunk(merged)) && (Unmarked(output) ==> Unmarked(merged))
    requires CutTo(reported, Redacted(merged, redact), maxOutputBytes)
    requires KeepsText(redact) && NoEmptyChunk(output) ==> NoEmptyChunk(reported)
    ensures Delivers(items, maxOutputBytes, redact, reported)
  {
    if !Clean(items, maxOutputBytes) {
      var k :| BreaksAt(items, k, maxOutputBytes) && failure == BreakCode(items, k) && HeardTo(items, k, output);
      assert HeardTo(items, k, merged);
    }
    assert Merges(items, maxOutputBytes, merged);
  }

  lemma GoodIsClean(items: seq<StreamItem>, maxOutputBytes: nat)
    requires GoodStream(items, maxOutputBytes)
    ensures Clean(items, maxOutputBytes)
  {
  }

  lemma BrokenFails(stream: Stream, maxOutputBytes: nat, output: seq<Output>, failure: string, reported: seq<Output>)
    requires !Clean(stream.items, maxOutputBytes) && Broken(stream.items, output, failure, maxOutputBytes)
    requires MarkedTruncated(output) ==> MarkedTruncated(reported)
    ensures FailsWith(stream, maxOutputBytes, reported, RaisedCode(stream.closing, failure))
  {
    var k :| && BreaksAt(stream.items, k, maxOutputBytes) && failure == BreakCode(stream.items, k)
             && (Excess(stream.items, k) ==> MarkedTruncated(output));
  }

  /** A stream that broke the protocol, and was closed without being cancelled, fails. */
  lemma BrokenYields(stream: Stream, limits: Limits, checkpointed: bool, r: Redaction, code: string,
                     reported: seq<Output>)
    requires !Clean(stream.items, limits.maxOutputBytes) && !stream.closing.Cancelled?
    requires FailsWith(stream, limits.maxOutputBytes, reported, code)
    requires Delivers(stream.items, limits.maxOutputBytes, r.text, reported)
    ensures Yields(stream, limits, checkpointed, r, Failed(reported, code))
  {
    if GoodStream(stream.items, limits.maxOutputBytes) { GoodIsClean(stream.items, limits.maxOutputBytes); }
  }

  /** How a stream that kept the protocol and was not cancelled is judged. */
  method Judge(stream: Stream, limits: Limits, checkpointed: bool, r: Redaction, reported: seq<Output>,
               completion: Option<Object>)
    returns (run: RunResult)
    requires Clean(stream.items, limits.maxOutputBytes) && !stream.ending.Cancelled?
    requires completion == if ChunksOnly(stream.items, |stream.items|) then None
                           else Some(stream.items[|stream.items| - 1].result)
    requires Delivers(stream.items, limits.maxOutputBytes, r.text, reported)
    ensures Yields(stream, limits, checkpointed, r, run)
  {
    if !stream.ending.Ended? { return Failed(reported, RaisedCode(stream.ending, "")); }
    if completion.None? { return Failed(reported, "invalid_tool_stream"); }
    var limit := ResultLimit(limits.maxResultBytes, checkpointed);
    var safe := r.json(completion.value);
    if ObjectSize(completion.value) > limit || ObjectSize(safe) > limit { return Failed(reported, "tool_result_limit"); }
    return Ran(reported, safe);
  }

  /** Run one tool. */
  method Run(stream: Stream, limits: Limits, checkpointed: bool, r: Redaction) returns (run: RunResult)
    requires limits.maxOutputBytes >= MAX_WIDTH
    ensures Yields(stream, limits, checkpointed, r, run)
  {
    var output, failure, completion := Collect(stream.items, limits.maxOutputBytes);
    var stop := if failure == "" then stream.ending else stream.closing;
    if stop.Cancelled? { return CancelledRun; }
    var reported, merged := CoalesceAndRedact(output, limits.maxOutputBytes, r.text);
    MergedDelivers(stream.items, limits.maxOutputBytes, r.text, output, failure, merged, reported);
    if failure != "" {
      BrokenFails(stream, limits.maxOutputBytes, output, failure, reported);
      BrokenYields(stream, limits, checkpointed, r, RaisedCode(stop, failure), reported);
      return Failed(reported, RaisedCode(stop, failure));
    }
    run := Judge(stream, limits, checkpointed, r, reported, completion);
  }

  /** A clean stream whose redacted output fits determines what is yielded. */
  lemma CleanStreamsAreDetermined(stream: Stream, limits: Limits, checkpointed: bool, r: Redaction,
                                  merged: seq<Output>, a: RunResult, b: RunResult)
    requires Clean(stream.items, limits.maxOutputBytes) && TextChunks(stream.items)
    requires Merges(stream.items, limits.maxOutputBytes, merged)
    requires Total(Redacted(merged, r.text)) <= limits.maxOutputBytes
    requires Yields(stream, limits, checkpointed, r, a) && Yields(stream, limits, checkpointed, r, b)
    ensures a == b && (!a.CancelledRun? ==> a.output == Redacted(merged, r.text))
  {
    if !a.CancelledRun? {
      DeliversOnly(stream.items, limits.maxOutputBytes, r.text, merged, a.output);
      DeliversOnly(stream.items, limits.maxOutputBytes, r.text, merged, b.output);
    }
  }

  lemma DeliversOnly(items: seq<StreamItem>, maxOutputBytes: nat, redact: Text -> Text, merged: seq<Output>,
                     output: seq<Output>)
    requires Clean(items, maxOutputBytes) && TextChunks(items) && Merges(items, maxOutputBytes, merged)
    requires Total(Redacted(merged, redact)) <= maxOutputBytes && Delivers(items, maxOutputBytes, redact, output)
    ensures output == Redacted(merged, redact)
  {
    var other :| Merges(items, maxOutputBytes, other) && CutTo(output, Redacted(other, redact), maxOutputBytes);
    MergedIsUnique(merged, other);
  }

  /** A tool that says one thing and returns yields exactly that. */
  lemma OneChunkYields(channel: Channel, chunk: Text, result: Object, closing: StreamEnd, limits: Limits,
                       checkpointed: bool, r: Redaction, run: RunResult)
    requires chunk != [] && r.text(chunk) != []
    requires Size(chunk) <= limits.maxOutputBytes && Size(r.text(chunk)) <= limits.maxOutputBytes
    requires ObjectSize(result) <= ResultLimit(limits.maxResultBytes, checkpointed)
    requires ObjectSize(r.json(result)) <= ResultLimit(limits.maxResultBytes, checkpointed)
    ensures Yields(Stream([Chunk(channel, chunk), Done(result)], Ended, closing), limits, checkpointed, r, run) <==>
      run == Ran([Output(channel, r.text(chunk), false)], r.json(result))
  {
    var items := [Chunk(channel, chunk), Done(result)];
    var merged := [Output(channel, chunk, false)];
    OneChunkMerges(channel, chunk, result, limits.maxOutputBytes, r.text);
    var whole := [Output(channel, r.text(chunk), false)];
    assert Redacted(merged, r.text) == whole;
    if run == Ran(whole, r.json(result)) {
      assert CutTo(run.output, Redacted(merged, r.text), limits.maxOutputBytes);
    } else if Yields(Stream(items, Ended, closing), limits, checkpointed, r, run) {
      DeliversOnly(items, limits.maxOutputBytes, r.text, merged, run.output);
    }
  }

  lemma OneChunkMerges(channel: Channel, chunk: Text, result: Object, maxOutputBytes: nat, redact: Text -> Text)
    requires chunk != [] && Size(chunk) <= maxOutputBytes && Size(redact(chunk)) <= maxOutputBytes
    ensures var items, merged := [Chunk(channel, chunk), Done(result)], [Output(channel, chunk, false)];
            && Clean(items, maxOutputBytes) && GoodStream(items, maxOutputBytes) && TextChunks(items)
            && Merges(items, maxOutputBytes, merged) && Total(Redacted(merged, redact)) <= maxOutputBytes
  {
    var items, merged := [Chunk(channel, chunk), Done(result)], [Output(channel, chunk, false)];
    assert ChunkBytes(items, 2) == ChunkBytes(items, 1) == ChunkBytes(items, 0) + Size(chunk);
    assert Spoken(items, 2) == Spoken(items, 1) == Spoken(items, 0) + Tag(channel, chunk);
    assert merged[..0] == [] && Tagged(merged) == Tagged(merged[..0]) + Tag(channel, chunk);
    var whole := Redacted(merged, redact);
    assert whole[..0] == [] && Total(whole) == Total(whole[..0]) + Size(redact(chunk));
  }

  /** A tool that crashes before it says anything yields exactly that failure. */
  lemma SilentCrashYields(closing: StreamEnd, limits: Limits, checkpointed: bool, r: Redaction, run: RunResult)
    ensures Yields(Stream([], Crashed, closing), limits, checkpointed, r, run) <==>
      run == Failed([], "tool_execution_failed")
  {
    var stream := Stream([], Crashed, closing);
    assert Clean(stream.items, limits.maxOutputBytes) && Merges(stream.items, limits.maxOutputBytes, []);
    assert Redacted([], r.text) == [];
    if run == Failed([], "tool_execution_failed") {
      assert CutTo(run.output, Redacted([], r.text), limits.maxOutputBytes);
    } else if Yields(stream, limits, checkpointed, r, run) {
      DeliversOnly(stream.items, limits.maxOutputBytes, r.text, [], run.output);
    }
  }
}
