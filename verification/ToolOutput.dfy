/** Bounded tool output: append, coalesce, redact, truncate. */
module ToolOutput {
  import opened Text
  import opened Utf8

  datatype Channel = Stdout | Stderr

  datatype Output = Output(channel: Channel, chunk: Text, truncated: bool)

  function Total(output: seq<Output>): nat {
    if output == [] then 0 else Total(output[..|output| - 1]) + Size(output[|output| - 1].chunk)
  }

  /** The output as one channel-tagged character stream: what merging must not change and truncating may only cut. */
  function Tagged(output: seq<Output>): seq<(Channel, Scalar)> {
    if output == [] then []
    else Tagged(output[..|output| - 1]) + Tag(output[|output| - 1].channel, output[|output| - 1].chunk)
  }

  function Tag(channel: Channel, t: Text): seq<(Channel, Scalar)> {
    seq(|t|, i requires 0 <= i < |t| => (channel, t[i]))
  }

  predicate NoEmptyChunk(output: seq<Output>) { forall i :: 0 <= i < |output| ==> output[i].chunk != [] }

  predicate MarkedTruncated(output: seq<Output>) { output != [] && output[|output| - 1].truncated }

  predicate Unmarked(output: seq<Output>) { forall i :: 0 <= i < |output| ==> !output[i].truncated }

  /** A cut of `whole`: its first entries as they are, of which the last may be shortened and marked. */
  predicate CutOf(output: seq<Output>, whole: seq<Output>) {
    && |output| <= |whole|
    && (forall i :: 0 <= i < |output| - 1 ==> output[i] == whole[i])
    && (output != [] ==>
          var last := |output| - 1; output[last].channel == whole[last].channel && output[last].chunk <= whole[last].chunk)
  }

  function Mark(output: seq<Output>): (marked: seq<Output>)
    ensures output != [] ==> MarkedTruncated(marked)
    ensures |marked| == |output| && Total(marked) == Total(output) && Tagged(marked) == Tagged(output)
    ensures NoEmptyChunk(output) ==> NoEmptyChunk(marked)
    ensures forall whole :: CutOf(output, whole) ==> CutOf(marked, whole)
  {
    if output == [] then []
    else
      var last := |output| - 1;
      var marked := output[..last] + [output[last].(truncated := true)];
      assert marked[..last] == output[..last];
      marked
  }

  lemma AppendTotals(output: seq<Output>, item: Output)
    ensures Total(output + [item]) == Total(output) + Size(item.chunk)
    ensures Tagged(output + [item]) == Tagged(output) + Tag(item.channel, item.chunk)
  {
    assert (output + [item])[..|output|] == output;
  }

  /** Append a chunk within the remaining budget, keeping the longest prefix that fits when it overflows. */
  method AppendBounded(output: seq<Output>, channel: Channel, chunk: Text, remaining: nat)
    returns (r: seq<Output>, left: nat, overflow: bool)
    ensures overflow <==> Size(chunk) > remaining
    ensures Total(r) + left <= Total(output) + remaining
    ensures !overflow ==> Total(r) + left == Total(output) + remaining && r == output + [Output(channel, chunk, false)]
    ensures overflow ==> left == 0 && (r != [] ==> MarkedTruncated(r))
    ensures overflow && (output != [] || remaining >= MAX_WIDTH) ==> r != []
    ensures overflow ==> Total(r) + MAX_WIDTH > Total(output) + remaining
    ensures Tagged(r) == Tagged(output) + Tag(channel, Prefix(chunk, remaining))
    ensures CutOf(r, output + [Output(channel, chunk, false)])
    ensures NoEmptyChunk(output) && chunk != [] ==> NoEmptyChunk(r)
  {
    PrefixIsLongest(chunk, remaining);
    if Size(chunk) > remaining { PrefixFills(chunk, remaining); }
    if Size(chunk) <= remaining {
      AppendTotals(output, Output(channel, chunk, false));
      return output + [Output(channel, chunk, false)], remaining - Size(chunk), false;
    }
    var prefix := Prefix(chunk, remaining);
    if prefix != [] {
      AppendTotals(output, Output(channel, prefix, true));
      return output + [Output(channel, prefix, true)], 0, true;
    }
    if remaining >= MAX_WIDTH { FirstScalarFits(chunk, remaining); }
    assert Tagged(output) == Tagged(output) + Tag(channel, prefix);
    return Mark(output), 0, true;
  }

  /** What a cut leaves unused is less than one scalar. */
  lemma PrefixFills(chunk: Text, remaining: nat)
    requires Size(chunk) > remaining
    ensures Size(Prefix(chunk, remaining)) + MAX_WIDTH > remaining
  {
    PrefixIsLongest(chunk, remaining);
    var k := |Prefix(chunk, remaining)|;
    assert chunk[..k] == Prefix(chunk, remaining) && chunk[..|chunk|] == chunk;
    WeightNext(chunk, k);
  }

  lemma FirstScalarFits(chunk: Text, remaining: nat)
    requires remaining >= MAX_WIDTH && Size(chunk) > 0
    ensures Prefix(chunk, remaining) != []
  {
    PrefixIsLongest(chunk, remaining);
    assert chunk[..1][0] == chunk[0] && chunk[..1][1..] == [];
  }

  predicate Alternating(output: seq<Output>) {
    forall i :: 0 <= i < |output| - 1 ==> output[i].channel != output[i + 1].channel
  }

  /** Add one entry to merged output, joining it to a last entry on the same channel. */
  function MergeInto(merged: seq<Output>, item: Output): (r: seq<Output>)
    ensures r != [] && (item.truncated ==> MarkedTruncated(r))
    ensures Alternating(merged) ==> Alternating(r)
    ensures NoEmptyChunk(merged) && item.chunk != [] ==> NoEmptyChunk(r)
    ensures Unmarked(merged) && !item.truncated ==> Unmarked(r)
  {
    if merged != [] && merged[|merged| - 1].channel == item.channel then
      var previous := merged[|merged| - 1];
      merged[..|merged| - 1]
      + [Output(item.channel, previous.chunk + item.chunk, previous.truncated || item.truncated)]
    else merged + [item]
  }

  lemma MergeIntoTagged(merged: seq<Output>, item: Output)
    ensures Tagged(MergeInto(merged, item)) == Tagged(merged) + Tag(item.channel, item.chunk)
  {
    if merged != [] && merged[|merged| - 1].channel == item.channel {
      MergeTagged(merged[..|merged| - 1], merged[|merged| - 1], item);
      assert merged == merged[..|merged| - 1] + [merged[|merged| - 1]];
    } else {
      AppendTotals(merged, item);
    }
  }

  /** Merge neighbours on the same channel; the character stream does not change. */
  method Coalesce(output: seq<Output>) returns (merged: seq<Output>)
    ensures Tagged(merged) == Tagged(output) && Alternating(merged)
    ensures MarkedTruncated(output) ==> MarkedTruncated(merged)
    ensures NoEmptyChunk(output) ==> NoEmptyChunk(merged)
    ensures Unmarked(output) ==> Unmarked(merged)
  {
    merged := [];
    assert output[..0] == [] && output[..|output|] == output;
    for i := 0 to |output|
      invariant Tagged(merged) == Tagged(output[..i]) && Alternating(merged)
      invariant i > 0 && output[i - 1].truncated ==> MarkedTruncated(merged)
      invariant NoEmptyChunk(output) ==> NoEmptyChunk(merged)
      invariant Unmarked(output) ==> Unmarked(merged)
    {
      NextTagged(output, i);
      MergeIntoTagged(merged, output[i]);
      merged := MergeInto(merged, output[i]);
    }
  }

  lemma NextTagged(output: seq<Output>, i: nat)
    requires i < |output|
    ensures Tagged(output[..i + 1]) == Tagged(output[..i]) + Tag(output[i].channel, output[i].chunk)
  {
    assert output[..i + 1][..i] == output[..i];
  }

  lemma TagConcat(channel: Channel, a: Text, b: Text)
    ensures Tag(channel, a + b) == Tag(channel, a) + Tag(channel, b)
  {
  }

  lemma MergeTagged(front: seq<Output>, a: Output, b: Output)
    requires a.channel == b.channel
    ensures Tagged(front + [Output(b.channel, a.chunk + b.chunk, a.truncated || b.truncated)])
         == Tagged(front + [a]) + Tag(b.channel, b.chunk)
  {
    var merged := Output(b.channel, a.chunk + b.chunk, a.truncated || b.truncated);
    calc {
      Tagged(front + [merged]);
      { AppendTotals(front, merged); }
      Tagged(front) + Tag(b.channel, a.chunk + b.chunk);
      { TagConcat(b.channel, a.chunk, b.chunk); }
      Tagged(front) + (Tag(a.channel, a.chunk) + Tag(b.channel, b.chunk));
      (Tagged(front) + Tag(a.channel, a.chunk)) + Tag(b.channel, b.chunk);
      { AppendTotals(front, a); }
      Tagged(front + [a]) + Tag(b.channel, b.chunk);
    }
  }

  /** Each entry after redaction by an arbitrary function. */
  function Redacted(output: seq<Output>, redact: Text -> Text): (r: seq<Output>)
    ensures |r| == |output|
  {
    seq(|output|, i requires 0 <= i < |output| => output[i].(chunk := redact(output[i].chunk)))
  }

  /** The redactor replaces secrets by a marker, so it never empties a text. */
  ghost predicate KeepsText(redact: Text -> Text) { forall t :: t != [] ==> redact(t) != [] }

  // ---------- Merged output is unique ----------

  /** Where the last entry of merged output begins in the stream, the channel changes. */
  lemma LastRun(output: seq<Output>)
    requires output != [] && Alternating(output) && NoEmptyChunk(output)
    ensures var n, last := |Tagged(output)|, output[|output| - 1];
            && 0 < |last.chunk| <= n && Tagged(output) == Tagged(output[..|output| - 1]) + Tag(last.channel, last.chunk)
            && (|last.chunk| < n ==> Tagged(output)[n - |last.chunk| - 1].0 != last.channel)
  {
    var front := output[..|output| - 1];
    if front != [] {
      var previous := front[|front| - 1];
      assert Tagged(front)[|Tagged(front)| - 1] == Tag(previous.channel, previous.chunk)[|previous.chunk| - 1];
    }
  }

  lemma SameLast(a: seq<Output>, b: seq<Output>)
    requires a != [] && b != [] && Alternating(a) && Alternating(b) && NoEmptyChunk(a) && NoEmptyChunk(b)
    requires Tagged(a) == Tagged(b)
    ensures a[|a| - 1].channel == b[|b| - 1].channel && |a[|a| - 1].chunk| <= |b[|b| - 1].chunk|
  {
    var t, last, other := Tagged(a), a[|a| - 1], b[|b| - 1];
    LastRun(a);
    assert forall j :: |t| - |last.chunk| <= j < |t| ==> t[j].0 == last.channel;
    LastRun(b);
    assert t[|t| - 1].0 == other.channel;
  }

  /** Only one sequence of entries that alternate channels, none empty or marked, spells a given stream. */
  lemma {:induction false} MergedIsUnique(a: seq<Output>, b: seq<Output>)
    requires Alternating(a) && Alternating(b) && NoEmptyChunk(a) && NoEmptyChunk(b) && Unmarked(a) && Unmarked(b)
    requires Tagged(a) == Tagged(b)
    ensures a == b
  {
    if a == [] || b == [] {
      if a != [] { LastRun(a); }
      if b != [] { LastRun(b); }
    } else {
      SameLast(a, b);
      SameLast(b, a);
      SplitLast(a, b);
      MergedIsUnique(a[..|a| - 1], b[..|b| - 1]);
    }
  }

  lemma SplitLast(a: seq<Output>, b: seq<Output>)
    requires a != [] && b != [] && Tagged(a) == Tagged(b) && Unmarked(a) && Unmarked(b)
    requires a[|a| - 1].channel == b[|b| - 1].channel && |a[|a| - 1].chunk| == |b[|b| - 1].chunk|
    ensures a[|a| - 1] == b[|b| - 1] && Tagged(a[..|a| - 1]) == Tagged(b[..|b| - 1])
  {
    var t, n, last, other := Tagged(a), |Tagged(a)| - |a[|a| - 1].chunk|, a[|a| - 1], b[|b| - 1];
    assert t[..n] == Tagged(a[..|a| - 1]) && t[..n] == Tagged(b[..|b| - 1]);
    assert t[n..] == Tag(last.channel, last.chunk) && t[n..] == Tag(other.channel, other.chunk);
    forall i | 0 <= i < |last.chunk| ensures last.chunk[i] == other.chunk[i] {
      assert t[n..][i] == (last.channel, last.chunk[i]) && t[n..][i] == (other.channel, other.chunk[i]);
    }
  }

  // ---------- Redaction and truncation ----------

  lemma {:induction false} TotalGrows(output: seq<Output>, i: nat, j: nat)
    requires i <= j <= |output|
    ensures Total(output[..i]) <= Total(output[..j])
  {
    if i < j {
      TotalGrows(output, i, j - 1);
      assert output[..j][..j - 1] == output[..j - 1];
    }
  }

  lemma TotalNext(output: seq<Output>, i: nat)
    requires i < |output|
    ensures Total(output[..i]) + Size(output[i].chunk) == Total(output[..i + 1]) <= Total(output)
  {
    assert output[..i + 1][..i] == output[..i] && output[..|output|] == output;
    TotalGrows(output, i + 1, |output|);
  }

  /** All of `whole` when that fits, and otherwise as much of it as does, marked. */
  predicate CutTo(output: seq<Output>, whole: seq<Output>, limit: nat) {
    && CutOf(output, whole) && Total(output) <= limit
    && if Total(whole) <= limit then output == whole
       else MarkedTruncated(output) && Total(output) + MAX_WIDTH > limit
  }

  lemma CutOfLonger(output: seq<Output>, whole: seq<Output>, i: nat)
    requires i < |whole| && CutOf(output, whole[..i] + [whole[i].(truncated := false)])
    ensures CutOf(output, whole)
  {
  }

  /** The next entry of the redacted output, within what remains of the limit. */
  method RedactNext(bounded: seq<Output>, item: Output, remaining: nat, redact: Text -> Text,
                    ghost whole: seq<Output>, ghost i: nat)
    returns (r: seq<Output>, left: nat, overflow: bool)
    requires i < |whole| && bounded == whole[..i] && whole[i] == item.(chunk := redact(item.chunk))
    requires i > 0 || remaining >= MAX_WIDTH
    ensures !overflow ==> r == whole[..i + 1] && Total(r) + left == Total(bounded) + remaining
    ensures overflow ==> CutOf(r, whole) && MarkedTruncated(r) && Total(r) <= Total(bounded) + remaining < Total(whole)
    ensures overflow ==> Total(r) + MAX_WIDTH > Total(bounded) + remaining
    ensures NoEmptyChunk(bounded) && whole[i].chunk != [] ==> NoEmptyChunk(r)
  {
    TotalNext(whole, i);
    r, left, overflow := AppendBounded(bounded, item.channel, redact(item.chunk), remaining);
    if overflow { CutOfLonger(r, whole, i); }
    if item.truncated { r := Mark(r); }
  }

  /** Coalescing, redaction and truncation together. For any redactor the result is the redacted output cut to the
      limit. Its last entry says when something was cut, here or before. */
  method CoalesceAndRedact(output: seq<Output>, limit: nat, redact: Text -> Text)
    returns (bounded: seq<Output>, ghost merged: seq<Output>)
    requires limit >= MAX_WIDTH
    ensures Tagged(merged) == Tagged(output) && Alternating(merged)
    ensures (NoEmptyChunk(output) ==> NoEmptyChunk(merged)) && (Unmarked(output) ==> Unmarked(merged))
    ensures CutTo(bounded, Redacted(merged, redact), limit)
    ensures MarkedTruncated(output) ==> MarkedTruncated(bounded)
    ensures KeepsText(redact) && NoEmptyChunk(output) ==> NoEmptyChunk(bounded)
  {
    var items := Coalesce(output);
    merged := items;
    ghost var whole := Redacted(items, redact);
    bounded := [];
    var remaining := limit;
    for i := 0 to |items|
      invariant Total(bounded) + remaining == limit && bounded == whole[..i]
      invariant KeepsText(redact) && NoEmptyChunk(output) ==> NoEmptyChunk(bounded)
    {
      var overflow;
      bounded, remaining, overflow := RedactNext(bounded, items[i], remaining, redact, whole, i);
      if overflow { return; }
    }
    assert whole[..|whole|] == whole;
  }
}
