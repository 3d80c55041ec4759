/** Bounded context assembly: joining fragments into messages, fitting a summary next to the critical
    ones, and the build that decides what is kept and what is dropped. */
module Context {
  import opened Text
  import opened Conversation

  const MAX_CONTEXT_FRAGMENTS := 8192
  const MAX_CONTEXT_MESSAGES := 4096
  const MAX_CONTEXT_ITEM_BYTES := 1024 * 1024
  const SYSTEM_FRAME := 66   // {"role":"system","content":"","tool_call_id":null,"tool_calls":[]}

  type Msg = Message<Text>

  datatype Fragment = Fragment(id: string, message: Msg, critical: bool)

  datatype Outcome<T> = Ok(value: T) | Err(code: string)

  const SEPARATOR: Text := [10, 10]

  function SystemMessage(content: Text): Msg { Message(System, "", [], content) }

  // ---------- Assembling fragments into messages ----------

  function Systems(f: seq<Fragment>): seq<Text> {
    if f == [] then []
    else if f[0].message.role.System? then [f[0].message.content] + Systems(f[1..]) else Systems(f[1..])
  }

  function Others(f: seq<Fragment>): seq<Msg> {
    if f == [] then []
    else if f[0].message.role.System? then Others(f[1..]) else [f[0].message] + Others(f[1..])
  }

  function Join(parts: seq<Text>): Text {
    if parts == [] then [] else if |parts| == 1 then parts[0] else parts[0] + SEPARATOR + Join(parts[1..])
  }

  function Merged(f: seq<Fragment>): seq<Msg> {
    (if Systems(f) == [] then [] else [SystemMessage(Join(Systems(f)))]) + Others(f)
  }

  function Assemble(f: seq<Fragment>): Outcome<seq<Msg>> {
    if Merged(f) == [] then Err("context_empty")
    else if |Merged(f)| > MAX_CONTEXT_MESSAGES then Err("context_message_limit")
    else Ok(Merged(f))
  }

  ghost predicate Subsequence<T>(a: seq<T>, b: seq<T>) {
    a == [] || (b != [] && ((a[0] == b[0] && Subsequence(a[1..], b[1..])) || Subsequence(a, b[1..])))
  }

  /** The parts occur in the text as blocks, in order and without overlap. */
  ghost predicate OrderedBlocks(parts: seq<Text>, text: Text) {
    parts == [] || exists at :: BlockAt(parts[0], text, at) && OrderedBlocks(parts[1..], text[at + |parts[0]|..])
  }

  ghost predicate BlockAt(part: Text, text: Text, at: int) {
    0 <= at && at + |part| <= |text| && text[at..at + |part|] == part
  }

  lemma BlocksAfter(parts: seq<Text>, front: Text, text: Text)
    requires OrderedBlocks(parts, text)
    ensures OrderedBlocks(parts, front + text)
  {
    if parts != [] {
      var at :| BlockAt(parts[0], text, at) && OrderedBlocks(parts[1..], text[at + |parts[0]|..]);
      assert (front + text)[|front| + at + |parts[0]|..] == text[at + |parts[0]|..];
      assert BlockAt(parts[0], front + text, |front| + at);
    }
  }

  /** Nothing joined is lost: any subsequence of the joined parts is found in the text, in order. */
  lemma {:induction false} JoinedBlocks(a: seq<Text>, b: seq<Text>)
    requires Subsequence(a, b)
    ensures OrderedBlocks(a, Join(b))
    decreases |b|
  {
    if a != [] {
      var rest := if |b| == 1 then [] else SEPARATOR + Join(b[1..]);
      assert Join(b) == b[0] + rest;
      if a[0] == b[0] && Subsequence(a[1..], b[1..]) {
        JoinedBlocks(a[1..], b[1..]);
        if |b| > 1 { BlocksAfter(a[1..], SEPARATOR, Join(b[1..])); }
        assert BlockAt(a[0], Join(b), 0) && Join(b)[|a[0]|..] == rest;
      } else {
        JoinedBlocks(a, b[1..]);
        BlocksAfter(a, b[0] + SEPARATOR, Join(b[1..]));
        assert b[0] + SEPARATOR + Join(b[1..]) == Join(b);
      }
    }
  }

  // ---------- Fitting a summary ----------

  /** A token estimator: any function of the messages; a negative value is rejected, zero counts as one. */
  type Estimator = seq<Msg> -> int

  function Estimate(e: Estimator, messages: seq<Msg>): Outcome<nat> {
    var n := e(messages);
    if n < 0 then Err("context_estimator_invalid") else Ok(if n < 1 then 1 else n)
  }

  function SummaryFragment(text: Text): Fragment {
    Fragment("new-compacted-summary", SystemMessage(Literal("Compacted prior context:\n") + text), false)
  }

  predicate WithinBudget(e: Estimator, f: seq<Fragment>, available: int) {
    var messages := Assemble(f);
    messages.Ok? && e(messages.value) >= 0 && Estimate(e, messages.value).value <= available
  }

  /** The first `k` scalars of the summary fit next to the critical fragments. */
  predicate Fits(e: Estimator, summary: Text, critical: seq<Fragment>, available: int, k: nat)
    requires k <= |summary|
  {
    WithinBudget(e, [SummaryFragment(summary[..k])] + critical, available)
  }

  predicate Oversized(m: Msg) { SYSTEM_FRAME + Weight(JsonBytes, m.content) > MAX_CONTEXT_ITEM_BYTES }

  /** The fragments cannot be assembled, or the estimator refuses the result. */
  predicate Unmeasurable(e: Estimator, f: seq<Fragment>) {
    Assemble(f).Err? || e(Assemble(f).value) < 0
  }

  /** Some candidate prefix cannot even be tried. */
  ghost predicate CannotFit(e: Estimator, summary: Text, critical: seq<Fragment>) {
    exists k :: 0 <= k <= |summary| && Untriable(e, summary[..k], critical)
  }

  predicate Untriable(e: Estimator, text: Text, critical: seq<Fragment>) {
    Oversized(SummaryFragment(text).message) || Unmeasurable(e, [SummaryFragment(text)] + critical)
  }

  /** One token per serialized byte; `frame` gives the bytes of every field but the content. */
  function ListBytes(frame: (Role, string, seq<string>) -> nat, messages: seq<Msg>): nat {
    if messages == [] then 0
    else
      frame(messages[0].role, messages[0].callId, messages[0].calls) + Weight(JsonBytes, messages[0].content)
      + (if |messages| > 1 then 1 else 0) + ListBytes(frame, messages[1..])
  }

  function Utf8Estimate(frame: (Role, string, seq<string>) -> nat, messages: seq<Msg>): int {
    2 + ListBytes(frame, messages)
  }

  ghost predicate IsUtf8Estimator(e: Estimator, frame: (Role, string, seq<string>) -> nat) {
    forall messages :: e(messages) == Utf8Estimate(frame, messages)
  }

  /** The assembled messages next to a candidate summary differ from those next to the empty one only in the first
      content, which carries the extra text. */
  lemma MergedWithSummary(text: Text, critical: seq<Fragment>)
    ensures var merged, bare := Merged([SummaryFragment(text)] + critical), Merged([SummaryFragment([])] + critical);
            && merged != [] && bare != [] && merged[1..] == bare[1..] && |merged| == |bare|
            && merged[0] == SystemMessage(merged[0].content) && bare[0] == SystemMessage(bare[0].content)
            && Weight(JsonBytes, merged[0].content) == Weight(JsonBytes, bare[0].content) + Weight(JsonBytes, text)
  {
    HeadOfMerged(text, critical);
    HeadOfMerged([], critical);
    var head := Literal("Compacted prior context:\n");
    var tail := if Systems(critical) == [] then [] else SEPARATOR + Join(Systems(critical));
    WeightConcat(JsonBytes, head + text, tail);
    WeightConcat(JsonBytes, head, text);
    WeightConcat(JsonBytes, head + [], tail);
    WeightConcat(JsonBytes, head, []);
  }

  lemma HeadOfMerged(text: Text, critical: seq<Fragment>)
    ensures Merged([SummaryFragment(text)] + critical)
         == [SystemMessage((Literal("Compacted prior context:\n") + text)
                           + if Systems(critical) == [] then [] else SEPARATOR + Join(Systems(critical)))]
            + Others(critical)
  {
    var f := [SummaryFragment(text)] + critical;
    assert f[1..] == critical;
    var head := Literal("Compacted prior context:\n") + text;
    assert Systems(f) == [head] + Systems(critical) && Systems(f)[1..] == Systems(critical);
    assert Others(f) == Others(critical);
    assert head + SEPARATOR + Join(Systems(critical)) == head + (SEPARATOR + Join(Systems(critical)));
    assert head + [] == head;
  }

  lemma Utf8Cost(e: Estimator, frame: (Role, string, seq<string>) -> nat, text: Text, critical: seq<Fragment>)
    requires IsUtf8Estimator(e, frame)
    ensures e(Merged([SummaryFragment(text)] + critical))
         == e(Merged([SummaryFragment([])] + critical)) + Weight(JsonBytes, text)
  {
    MergedWithSummary(text, critical);
  }

  lemma FitsShorter(e: Estimator, frame: (Role, string, seq<string>) -> nat,
                    summary: Text, critical: seq<Fragment>, available: int, i: nat, j: nat)
    requires IsUtf8Estimator(e, frame) && i <= j <= |summary| && Fits(e, summary, critical, available, j)
    ensures Fits(e, summary, critical, available, i)
  {
    Utf8Cost(e, frame, summary[..i], critical);
    Utf8Cost(e, frame, summary[..j], critical);
    MergedWithSummary(summary[..i], critical);
    MergedWithSummary(summary[..j], critical);
    WeightPrefix(JsonBytes, summary, i, j);
  }

  /** With the UTF-8 estimator the bisection finds the longest fitting prefix, and nothing exactly when no non-empty
      prefix fits. */
  lemma Utf8SummaryIsLongest(e: Estimator, frame: (Role, string, seq<string>) -> nat,
                             summary: Text, critical: seq<Fragment>, available: int, kept: nat, k: nat)
    requires IsUtf8Estimator(e, frame) && kept < k <= |summary|
    requires !Fits(e, summary, critical, available, kept + 1) || !Fits(e, summary, critical, available, 0)
    ensures !Fits(e, summary, critical, available, k)
  {
    if Fits(e, summary, critical, available, k) {
      FitsShorter(e, frame, summary, critical, available, kept + 1, k);
      FitsShorter(e, frame, summary, critical, available, 0, k);
    }
  }

  // ---------- The bisection ----------

  /** The candidates tried while every one of them fits. */
  function Rung(n: nat, j: nat): (k: nat)
    ensures k <= n
  {
    if j == 0 then n / 2 else (Rung(n, j - 1) + 1 + n) / 2
  }

  lemma {:induction false} RungsRise(n: nat, i: nat, j: nat)
    requires i <= j
    ensures Rung(n, i) <= Rung(n, j)
  {
    if i < j { RungsRise(n, i, j - 1); }
  }

  /** Shorter candidates do no worse: they can be tried, and fit, whenever a longer one does. */
  ghost predicate Regular(try: nat -> Outcome<bool>, n: nat) {
    forall i: nat, j: nat :: i <= j <= n ==> (try(i).Err? ==> try(j).Err?) && (try(j) == Ok(true) ==> try(i) == Ok(true))
  }

  /** Rung `i` is reached and cannot be tried. */
  predicate FailsAt(try: nat -> Outcome<bool>, n: nat, i: nat) {
    try(Rung(n, i)).Err? && (i > 0 ==> try(Rung(n, i - 1)) == Ok(true))
  }

  /** The bisection is still climbing, having passed `j` rungs, or has come down from rung `j`, which did not fit. */
  ghost predicate Climbing(try: nat -> Outcome<bool>, n: nat, low: int, high: int, j: nat) {
    if high == n then if j == 0 then low == 0 else low == Rung(n, j - 1) + 1 && try(Rung(n, j - 1)) == Ok(true)
    else high < Rung(n, j) && try(Rung(n, j)) == Ok(false)
  }

  lemma NeverFailed(try: nat -> Outcome<bool>, n: nat, low: int, high: int, j: nat, i: nat)
    requires Regular(try, n) && low == high + 1 && Climbing(try, n, low, high, j)
    ensures !FailsAt(try, n, i)
  {
    if high < n {
      if i <= j { RungsRise(n, i, j); } else { RungsRise(n, j, i - 1); }
    }
  }

  /** The result of bisecting for the last of the candidates 0 to `n` that fits: it fits and the next one does not. */
  ghost predicate Bisected(try: nat -> Outcome<bool>, n: nat, r: Outcome<nat>) {
    && (r.Err? ==> exists k: nat :: k <= n && try(k).Err? && try(k).code == r.code)
    && (r.Ok? ==> r.value <= n && (r.value > 0 ==> try(r.value) == Ok(true)))
    && (r.Ok? && r.value < n ==> try(r.value + 1) == Ok(false) || try(0) == Ok(false))
  }

  /** When shorter candidates do no worse, it fails exactly if a rung it reaches cannot be tried. */
  method Bisect(n: nat, try: nat -> Outcome<bool>) returns (r: Outcome<nat>)
    ensures Bisected(try, n, r)
    ensures Regular(try, n) ==> (r.Err? <==> exists i: nat :: FailsAt(try, n, i))
  {
    var low, high, best := 0, n, 0;
    ghost var j := 0;
    while low <= high
      invariant 0 <= low <= high + 1 <= n + 1 && best == if low > 0 then low - 1 else 0
      invariant low > 0 ==> try(low - 1) == Ok(true)
      invariant high < n ==> try(high + 1) == Ok(false)
      invariant Climbing(try, n, low, high, j)
      decreases high - low + 1
    {
      var midpoint := (low + high) / 2;
      assert high == n ==> midpoint == Rung(n, j);
      assert Regular(try, n) && high < n ==> try(midpoint).Ok?;
      var fits := try(midpoint);
      if fits.Err? {
        assert Regular(try, n) ==> FailsAt(try, n, j);
        return Err(fits.code);
      }
      if fits.value {
        if high == n { j := j + 1; }
        best, low := midpoint, midpoint + 1;
      } else {
        high := midpoint - 1;
      }
    }
    if Regular(try, n) {
      forall i: nat ensures !FailsAt(try, n, i) { NeverFailed(try, n, low, high, j, i); }
    }
    return Ok(best);
  }

  // ---------- Fitting a summary ----------

  /** Estimate a candidate summary next to the critical fragments. */
  function Trial(e: Estimator, text: Text, critical: seq<Fragment>, available: int): (r: Outcome<bool>)
    ensures r.Err? <==> Untriable(e, text, critical)
    ensures r.Ok? ==> (r.value <==> WithinBudget(e, [SummaryFragment(text)] + critical, available))
  {
    var fragment := SummaryFragment(text);
    var messages := Assemble([fragment] + critical);
    if Oversized(fragment.message) then Err("context_fragment_size")
    else if messages.Err? then Err(messages.code)
    else
      var estimate := Estimate(e, messages.value);
      if estimate.Err? then Err(estimate.code) else Ok(estimate.value <= available)
  }

  function Trials(e: Estimator, summary: Text, critical: seq<Fragment>, available: int): nat -> Outcome<bool> {
    (k: nat) => if k <= |summary| then Trial(e, summary[..k], critical, available) else Ok(false)
  }

  predicate TooLong(summary: Text, k: nat)
    requires k <= |summary|
  {
    Oversized(SummaryFragment(summary[..k]).message)
  }

  lemma TooLongGrows(summary: Text, i: nat, j: nat)
    requires i <= j <= |summary| && TooLong(summary, i)
    ensures TooLong(summary, j)
  {
    var head := Literal("Compacted prior context:\n");
    WeightConcat(JsonBytes, head, summary[..i]);
    WeightConcat(JsonBytes, head, summary[..j]);
    WeightPrefix(JsonBytes, summary, i, j);
  }

  /** So many critical messages that none can be added. */
  predicate Crowded(critical: seq<Fragment>) { |Others(critical)| >= MAX_CONTEXT_MESSAGES }

  ghost predicate MeasuresUtf8(e: Estimator) { exists frame :: IsUtf8Estimator(e, frame) }

  /** With the UTF-8 estimator a text cannot be tried exactly when it is too long or there are too many messages. */
  lemma UntriableExactly(e: Estimator, text: Text, critical: seq<Fragment>)
    requires MeasuresUtf8(e)
    ensures Untriable(e, text, critical) <==> Oversized(SummaryFragment(text).message) || Crowded(critical)
  {
    HeadOfMerged(text, critical);
  }

  lemma TrialExactly(e: Estimator, summary: Text, critical: seq<Fragment>, available: int, k: nat)
    requires MeasuresUtf8(e) && k <= |summary|
    ensures var r := Trials(e, summary, critical, available)(k);
            && (r.Err? <==> TooLong(summary, k) || Crowded(critical))
            && (r == Ok(true) <==> !TooLong(summary, k) && Fits(e, summary, critical, available, k))
  {
    UntriableExactly(e, summary[..k], critical);
  }

  lemma TrialsAreRegular(e: Estimator, summary: Text, critical: seq<Fragment>, available: int)
    requires MeasuresUtf8(e)
    ensures Regular(Trials(e, summary, critical, available), |summary|)
  {
    var try := Trials(e, summary, critical, available);
    var frame :| IsUtf8Estimator(e, frame);
    forall i: nat, j: nat | i <= j <= |summary|
      ensures (try(i).Err? ==> try(j).Err?) && (try(j) == Ok(true) ==> try(i) == Ok(true))
    {
      TrialExactly(e, summary, critical, available, i);
      TrialExactly(e, summary, critical, available, j);
      if TooLong(summary, i) { TooLongGrows(summary, i, j); }
      if Fits(e, summary, critical, available, j) { FitsShorter(e, frame, summary, critical, available, i, j); }
    }
  }

  /** A prefix is tried that is too long for a fragment: the first one, or the next after one that fits. */
  ghost predicate Overshoots(e: Estimator, summary: Text, critical: seq<Fragment>, available: int) {
    exists i: nat :: OvershootsAt(e, summary, critical, available, i)
  }

  predicate OvershootsAt(e: Estimator, summary: Text, critical: seq<Fragment>, available: int, i: nat) {
    && TooLong(summary, Rung(|summary|, i))
    && (i > 0 ==> Fits(e, summary, critical, available, Rung(|summary|, i - 1)))
  }

  /** The trial that fails, in terms of the summary: any trial when the messages are too many, and otherwise a rung that
      is too long. */
  lemma FailsExactly(e: Estimator, summary: Text, critical: seq<Fragment>, available: int)
    requires MeasuresUtf8(e)
    ensures (exists i: nat :: FailsAt(Trials(e, summary, critical, available), |summary|, i))
      <==> Crowded(critical) || Overshoots(e, summary, critical, available)
  {
    var try, n := Trials(e, summary, critical, available), |summary|;
    if Crowded(critical) {
      TrialExactly(e, summary, critical, available, Rung(n, 0));
      assert FailsAt(try, n, 0);
    } else {
      forall i: nat ensures FailsAt(try, n, i) ==> OvershootsAt(e, summary, critical, available, i) {
        TrialExactly(e, summary, critical, available, Rung(n, i));
        if i > 0 { TrialExactly(e, summary, critical, available, Rung(n, i - 1)); }
      }
      if i: nat :| OvershootsAt(e, summary, critical, available, i) {
        FirstOvershot(e, summary, critical, available, i);
      }
    }
  }

  lemma {:induction false} FirstOvershot(e: Estimator, summary: Text, critical: seq<Fragment>, available: int, i: nat)
    requires MeasuresUtf8(e) && OvershootsAt(e, summary, critical, available, i)
    ensures exists k: nat :: FailsAt(Trials(e, summary, critical, available), |summary|, k)
  {
    var n := |summary|;
    TrialExactly(e, summary, critical, available, Rung(n, i));
    if i > 0 {
      TrialExactly(e, summary, critical, available, Rung(n, i - 1));
      if TooLong(summary, Rung(n, i - 1)) {
        var frame :| IsUtf8Estimator(e, frame);
        if i > 1 {
          RungsRise(n, i - 2, i - 1);
          FitsShorter(e, frame, summary, critical, available, Rung(n, i - 2), Rung(n, i - 1));
        }
        FirstOvershot(e, summary, critical, available, i - 1);
      } else {
        assert FailsAt(Trials(e, summary, critical, available), n, i);
      }
    } else {
      assert FailsAt(Trials(e, summary, critical, available), n, i);
    }
  }

  /** The longest prefix that fits, and empty exactly when no non-empty one does. */
  ghost predicate LongestFit(e: Estimator, summary: Text, critical: seq<Fragment>, available: int, kept: nat) {
    && kept <= |summary|
    && (forall k :: kept < k <= |summary| ==> !Fits(e, summary, critical, available, k))
    && (kept == 0 <==> forall k :: 0 < k <= |summary| ==> !Fits(e, summary, critical, available, k))
  }

  lemma FittedIsLongest(e: Estimator, summary: Text, critical: seq<Fragment>, available: int, kept: nat)
    requires MeasuresUtf8(e) && kept <= |summary| && (kept > 0 ==> Fits(e, summary, critical, available, kept))
    requires kept < |summary| ==>
      !Fits(e, summary, critical, available, kept + 1) || !Fits(e, summary, critical, available, 0)
    ensures LongestFit(e, summary, critical, available, kept)
  {
    var frame :| IsUtf8Estimator(e, frame);
    forall k | kept < k <= |summary| ensures !Fits(e, summary, critical, available, k) {
      Utf8SummaryIsLongest(e, frame, summary, critical, available, kept, k);
    }
  }

  /** What fitting a summary achieves whatever the estimator: what is kept fits, and one scalar more would not. */
  ghost predicate Fitted(e: Estimator, summary: Text, critical: seq<Fragment>, available: int, r: Outcome<Text>) {
    && (r.Err? ==> CannotFit(e, summary, critical))
    && (r.Ok? ==> r.value <= summary && (r.value != [] ==> Fits(e, summary, critical, available, |r.value|)))
    && (r.Ok? && |r.value| < |summary| ==>
          !Fits(e, summary, critical, available, |r.value| + 1) || !Fits(e, summary, critical, available, 0))
  }

  function Cut(summary: Text, kept: Outcome<nat>): Outcome<Text>
    requires kept.Ok? ==> kept.value <= |summary|
  {
    if kept.Err? then Err(kept.code) else Ok(summary[..kept.value])
  }

  lemma BisectedFits(e: Estimator, summary: Text, critical: seq<Fragment>, available: int, kept: Outcome<nat>)
    requires Bisected(Trials(e, summary, critical, available), |summary|, kept)
    ensures Fitted(e, summary, critical, available, Cut(summary, kept))
  {
    var try := Trials(e, summary, critical, available);
    if kept.Err? {
      var k: nat :| k <= |summary| && try(k).Err?;
      assert Untriable(e, summary[..k], critical);
    }
  }

  /** What it achieves with the UTF-8 estimator: the longest prefix that fits, and a failure exactly when the critical
      messages leave no room for another or a prefix is tried that is too long for a fragment. */
  ghost predicate FittedExactly(e: Estimator, summary: Text, critical: seq<Fragment>, available: int, r: Outcome<Text>) {
    && (r.Err? <==> Crowded(critical) || Overshoots(e, summary, critical, available))
    && (r.Ok? ==> LongestFit(e, summary, critical, available, |r.value|))
  }

  lemma BisectedFitsExactly(e: Estimator, summary: Text, critical: seq<Fragment>, available: int, kept: Outcome<nat>)
    requires MeasuresUtf8(e) && Bisected(Trials(e, summary, critical, available), |summary|, kept)
    requires Regular(Trials(e, summary, critical, available), |summary|) ==>
      (kept.Err? <==> exists i: nat :: FailsAt(Trials(e, summary, critical, available), |summary|, i))
    ensures FittedExactly(e, summary, critical, available, Cut(summary, kept))
  {
    TrialsAreRegular(e, summary, critical, available);
    FailsExactly(e, summary, critical, available);
    BisectedFits(e, summary, critical, available, kept);
    if kept.Ok? { FittedIsLongest(e, summary, critical, available, kept.value); }
  }

  /** Fit a summary next to the critical fragments. */
  method FitSummary(e: Estimator, summary: Text, critical: seq<Fragment>, available: int)
    returns (r: Outcome<Text>)
    ensures Fitted(e, summary, critical, available, r)
    ensures MeasuresUtf8(e) ==> FittedExactly(e, summary, critical, available, r)
  {
    var kept := Bisect(|summary|, Trials(e, summary, critical, available));
    BisectedFits(e, summary, critical, available, kept);
    if MeasuresUtf8(e) { BisectedFitsExactly(e, summary, critical, available, kept); }
    r := Cut(summary, kept);
  }

  // ---------- When fitting fails ----------

  /** It never does while the whole summary would do as a fragment and there is room for a message. */
  lemma ShortSummariesFit(e: Estimator, summary: Text, critical: seq<Fragment>, available: int)
    requires !Oversized(SummaryFragment(summary).message)
    ensures !Overshoots(e, summary, critical, available)
  {
    forall i: nat ensures !TooLong(summary, Rung(|summary|, i)) {
      if TooLong(summary, Rung(|summary|, i)) { TooLongGrows(summary, Rung(|summary|, i), |summary|); }
      assert summary[..|summary|] == summary;
    }
  }

  const MAX_CONTEXT_SUMMARY_BYTES := 256 * 1024

  /** It does for a summary of control characters of the largest size allowed: half of it fits a large budget, and of
      three quarters no fragment can be made. */
  lemma ControlsOvershoot(e: Estimator, frame: (Role, string, seq<string>) -> nat, available: int)
    requires IsUtf8Estimator(e, frame) && frame(System, "", []) <= SYSTEM_FRAME && available >= 800_000
    ensures Size(Controls(MAX_CONTEXT_SUMMARY_BYTES)) == MAX_CONTEXT_SUMMARY_BYTES
    ensures Overshoots(e, Controls(MAX_CONTEXT_SUMMARY_BYTES), [], available)
  {
    var summary := Controls(MAX_CONTEXT_SUMMARY_BYTES);
    ControlsWeigh(MAX_CONTEXT_SUMMARY_BYTES);
    assert Rung(MAX_CONTEXT_SUMMARY_BYTES, 0) == 131_072 && Rung(MAX_CONTEXT_SUMMARY_BYTES, 1) == 196_608;
    PrefixOfControls(MAX_CONTEXT_SUMMARY_BYTES, 131_072);
    PrefixOfControls(MAX_CONTEXT_SUMMARY_BYTES, 196_608);
    ControlsCost(e, frame, 131_072);
    assert OvershootsAt(e, summary, [], available, 1);
  }

  lemma PrefixOfControls(n: nat, k: nat)
    requires k <= n
    ensures Controls(n)[..k] == Controls(k)
    ensures SYSTEM_FRAME + MAX_JSON_WIDTH * k > MAX_CONTEXT_ITEM_BYTES ==> TooLong(Controls(n), k)
  {
    assert Controls(n)[..k] == Controls(k);
    ControlsWeigh(k);
    WeightConcat(JsonBytes, Literal("Compacted prior context:\n"), Controls(k));
  }

  /** The summary alone is one message. */
  lemma SummaryAlone(text: Text)
    ensures Assemble([SummaryFragment(text)] + []) == Ok([SummaryFragment(text).message])
  {
    HeadOfMerged(text, []);
    var content := SummaryFragment(text).message.content;
    assert content + [] == content && [SystemMessage(content)] + Others([]) == [SystemMessage(content)];
  }

  lemma HeadIsShort(text: Text)
    ensures Weight(JsonBytes, SummaryFragment(text).message.content) <= 150 + Weight(JsonBytes, text)
  {
    var head := Literal("Compacted prior context:\n");
    WeightConcat(JsonBytes, head, text);
    WeightBounds(JsonBytes, head);
  }

  lemma OneMessage(frame: (Role, string, seq<string>) -> nat, m: Msg)
    ensures Utf8Estimate(frame, [m]) == 2 + frame(m.role, m.callId, m.calls) + Weight(JsonBytes, m.content)
  {
    var messages := [m];
    assert messages[1..] == [] && ListBytes(frame, messages[1..]) == 0;
  }

  lemma ControlsCost(e: Estimator, frame: (Role, string, seq<string>) -> nat, k: nat)
    requires IsUtf8Estimator(e, frame) && frame(System, "", []) <= SYSTEM_FRAME
    ensures WithinBudget(e, [SummaryFragment(Controls(k))] + [], 1000 + MAX_JSON_WIDTH * k)
  {
    SummaryAlone(Controls(k));
    HeadIsShort(Controls(k));
    OneMessage(frame, SummaryFragment(Controls(k)).message);
    ControlsWeigh(k);
  }

  /** And it does next to as many critical messages as a request may have, none of them a system message, though these
      can be sent by themselves. */
  lemma FullConversationIsCrowded(critical: seq<Fragment>)
    requires |critical| == MAX_CONTEXT_MESSAGES && forall i :: 0 <= i < |critical| ==> !critical[i].message.role.System?
    ensures Crowded(critical) && Assemble(critical).Ok?
  {
    NoSystems(critical);
  }

  lemma {:induction false} NoSystems(f: seq<Fragment>)
    requires forall i :: 0 <= i < |f| ==> !f[i].message.role.System?
    ensures Systems(f) == [] && |Others(f)| == |f|
  {
    if f != [] { NoSystems(f[1..]); }
  }

  // ---------- The build ----------

  function Critical(f: seq<Fragment>, wanted: bool): seq<Fragment> {
    if f == [] then []
    else if f[0].critical == wanted then [f[0]] + Critical(f[1..], wanted) else Critical(f[1..], wanted)
  }

  function Ids(f: seq<Fragment>): (ids: seq<string>)
    ensures |ids| == |f|
  {
    seq(|f|, i requires 0 <= i < |f| => f[i].id)
  }

  predicate Distinct(ids: seq<string>) { forall i, j :: 0 <= i < j < |ids| ==> ids[i] != ids[j] }

  datatype Build = Build(messages: seq<Msg>, estimated: nat, budget: int, compressed: bool, summary: Text,
                         retained: seq<string>, dropped: seq<string>)

  datatype Request = Request(available: Outcome<int>, previousSummary: Text, force: bool)

  /** Critical and noncritical fragments partition the fragment identifiers. */
  lemma {:induction false} CriticalPartition(f: seq<Fragment>)
    ensures multiset(Ids(Critical(f, true))) + multiset(Ids(Critical(f, false))) == multiset(Ids(f))
  {
    if f != [] {
      var head, rest := f[0], f[1..];
      CriticalPartition(rest);
      assert f == [head] + rest;
      IdsCons(head, rest);
      IdsCons(head, Critical(rest, head.critical));
      assert Critical(f, !head.critical) == Critical(rest, !head.critical);
      assert Critical(f, head.critical) == [head] + Critical(rest, head.critical);
    }
  }

  lemma {:induction false} CriticalSizes(f: seq<Fragment>)
    ensures |Critical(f, true)| + |Critical(f, false)| == |f|
  {
    if f != [] { CriticalSizes(f[1..]); }
  }

  lemma IdsCons(head: Fragment, rest: seq<Fragment>)
    ensures multiset(Ids([head] + rest)) == multiset{head.id} + multiset(Ids(rest))
  {
    assert Ids([head] + rest) == [head.id] + Ids(rest);
  }

  /** Contributions are gathered in order, under the fragment limit. */
  method Gather(contributions: seq<seq<Fragment>>) returns (r: Outcome<seq<Fragment>>)
    ensures r.Ok? ==> |r.value| <= MAX_CONTEXT_FRAGMENTS || contributions == []
    ensures r.Ok? ==> r.value == Concat(contributions)
    ensures r.Err? ==> |Concat(contributions)| > MAX_CONTEXT_FRAGMENTS
  {
    var fragments := [];
    for i := 0 to |contributions|
      invariant fragments == Concat(contributions[..i]) && |fragments| <= MAX_CONTEXT_FRAGMENTS
    {
      ConcatNext(contributions, i);
      fragments := fragments + contributions[i];
      if |fragments| > MAX_CONTEXT_FRAGMENTS {
        ConcatGrows(contributions, i + 1, |contributions|);
        assert contributions[..|contributions|] == contributions;
        return Err("context_fragment_limit");
      }
    }
    assert contributions[..|contributions|] == contributions;
    return Ok(fragments);
  }

  function Concat(parts: seq<seq<Fragment>>): seq<Fragment> {
    if parts == [] then [] else Concat(parts[..|parts| - 1]) + parts[|parts| - 1]
  }

  lemma ConcatNext(parts: seq<seq<Fragment>>, i: nat)
    requires i < |parts|
    ensures Concat(parts[..i + 1]) == Concat(parts[..i]) + parts[i]
  {
    assert parts[..i + 1][..i] == parts[..i];
  }

  lemma {:induction false} ConcatGrows(parts: seq<seq<Fragment>>, i: nat, j: nat)
    requires i <= j <= |parts|
    ensures |Concat(parts[..i])| <= |Concat(parts[..j])|
  {
    if i < j {
      ConcatGrows(parts, i, j - 1);
      ConcatNext(parts, j - 1);
    }
  }

  /** Add the previous summary in front of the gathered fragments, refusing reused identifiers. */
  method WithPrevious(gathered: seq<Fragment>, previousSummary: Text) returns (r: Outcome<seq<Fragment>>)
    ensures r.Ok? ==> r.value == AllFragments(gathered, previousSummary)
    ensures r.Ok? <==>
      && Distinct(Ids(AllFragments(gathered, previousSummary)))
      && (previousSummary != [] ==> !Oversized(PreviousFragment(previousSummary).message))
  {
    var all := AllFragments(gathered, previousSummary);
    assert previousSummary == [] ==> all == gathered;
    assert previousSummary != [] ==> Ids(all) == [PREVIOUS_ID] + Ids(gathered);
    WithoutFirst(PREVIOUS_ID, Ids(gathered));
    if !Distinct(Ids(gathered)) { return Err("context_fragment_conflict"); }
    if previousSummary == [] { return Ok(gathered); }
    if PREVIOUS_ID in Ids(gathered) { return Err("context_fragment_conflict"); }
    var previous := PreviousFragment(previousSummary);
    if Oversized(previous.message) { return Err("context_fragment_size"); }
    return Ok([previous] + gathered);
  }

  lemma WithoutFirst(id: string, ids: seq<string>)
    ensures Distinct([id] + ids) <==> Distinct(ids) && id !in ids
  {
    var all := [id] + ids;
    if Distinct(all) {
      forall i, j | 0 <= i < j < |ids| ensures ids[i] != ids[j] { assert all[i + 1] != all[j + 1]; }
      forall i | 0 <= i < |ids| ensures ids[i] != id { assert all[0] != all[i + 1]; }
    }
  }

  const PREVIOUS_ID := "previous-compacted-summary"

  function PreviousFragment(summary: Text): Fragment {
    Fragment(PREVIOUS_ID, SystemMessage(Literal("Previous compacted context:\n") + summary), false)
  }

  function AllFragments(gathered: seq<Fragment>, previousSummary: Text): seq<Fragment> {
    (if previousSummary == [] then [] else [PreviousFragment(previousSummary)]) + gathered
  }

  /** Identifiers outside the retained set, in fragment order. */
  function IdsOutside(f: seq<Fragment>, retained: set<string>): seq<string> {
    if f == [] then []
    else if f[0].id in retained then IdsOutside(f[1..], retained) else [f[0].id] + IdsOutside(f[1..], retained)
  }

  lemma DroppedAreNoncritical(f: seq<Fragment>)
    requires Distinct(Ids(f))
    ensures IdsOutside(f, CriticalIds(f)) == Ids(Critical(f, false))
  {
    forall i | 0 <= i < |f| ensures f[i].id in CriticalIds(f) <==> f[i].critical { KeptId(f, f[i]); }
    OutsideAreNoncritical(f, CriticalIds(f));
  }

  lemma {:induction false} OutsideAreNoncritical(f: seq<Fragment>, retained: set<string>)
    requires forall i :: 0 <= i < |f| ==> (f[i].id in retained <==> f[i].critical)
    ensures IdsOutside(f, retained) == Ids(Critical(f, false))
  {
    if f != [] {
      OutsideAreNoncritical(f[1..], retained);
      var rest := Critical(f[1..], false);
      assert Ids([f[0]] + rest) == [f[0].id] + Ids(rest);
      assert [] + rest == rest;
    }
  }

  lemma {:induction false} CriticalMember(f: seq<Fragment>, x: Fragment)
    ensures x in Critical(f, true) <==> x in f && x.critical
  {
    if f != [] { CriticalMember(f[1..], x); }
  }

  lemma SameFragment(f: seq<Fragment>, x: Fragment, y: Fragment)
    requires Distinct(Ids(f)) && x in f && y in f && x.id == y.id
    ensures x == y
  {
    var i :| 0 <= i < |f| && f[i] == x;
    var j :| 0 <= j < |f| && f[j] == y;
    assert Ids(f)[i] == Ids(f)[j];
  }

  lemma KeptId(f: seq<Fragment>, x: Fragment)
    requires Distinct(Ids(f)) && x in f
    ensures x.id in CriticalIds(f) <==> x.critical
  {
    if x.id in CriticalIds(f) {
      var y :| y in f && y.critical && y.id == x.id;
      SameFragment(f, x, y);
    }
  }

  ghost function CriticalIds(f: seq<Fragment>): set<string> { set x | x in f && x.critical :: x.id }

  lemma CriticalIdsOf(f: seq<Fragment>, kept: set<string>)
    requires kept == set x | x in Critical(f, true) :: x.id
    ensures kept == CriticalIds(f)
  {
    forall id ensures id in kept <==> id in CriticalIds(f) {
      if id in kept {
        var x :| x in Critical(f, true) && x.id == id;
        CriticalMember(f, x);
      }
      if id in CriticalIds(f) {
        var x :| x in f && x.critical && x.id == id;
        CriticalMember(f, x);
      }
    }
  }

  /** What a returned build promises about the fragments it was made from. */
  ghost predicate Keeps(all: seq<Fragment>, b: Build) {
    var front := Front(b.summary);
    || (b.messages == Merged(all) && b.retained == Ids(all) && b.dropped == [] && b.summary == [] && !b.compressed)
    || (&& (b.compressed <==> Critical(all, false) != []) && b.messages == Merged(front + Critical(all, true))
        && b.retained == Ids(front) + Ids(Critical(all, true))
        && b.dropped == Ids(Critical(all, false)))
  }

  function Front(summary: Text): seq<Fragment> { if summary == [] then [] else [SummaryFragment(summary)] }

  /** Why a summary of the noncritical fragments cannot be had. */
  ghost predicate NoSummary(critical: seq<Fragment>, noncritical: seq<Fragment>, e: Estimator,
                            compress: seq<Fragment> -> Outcome<Text>)
  {
    && noncritical != []
    && (compress(noncritical).Err? || CannotFit(e, compress(noncritical).value, critical))
  }

  /** Why fragments over the budget, or compacted on demand, cannot be compacted: the critical ones alone are too much,
      there is no summary, or nothing is left to say. */
  ghost predicate CannotCompact(all: seq<Fragment>, available: int, e: Estimator, compress: seq<Fragment> -> Outcome<Text>) {
    var critical, noncritical := Critical(all, true), Critical(all, false);
    || (critical != [] && !WithinBudget(e, critical, available))
    || NoSummary(critical, noncritical, e, compress)
    || (critical == [] && EmptySummary(critical, noncritical, available, e, compress))
    || |all| > MAX_CONTEXT_FRAGMENTS
  }

  /** There is nothing to summarise, or not one character of it fits. */
  ghost predicate EmptySummary(critical: seq<Fragment>, noncritical: seq<Fragment>, available: int, e: Estimator,
                               compress: seq<Fragment> -> Outcome<Text>)
  {
    noncritical == [] || (compress(noncritical).Ok? && NothingFits(e, compress(noncritical).value, critical, available))
  }

  ghost predicate NothingFits(e: Estimator, summary: Text, critical: seq<Fragment>, available: int) {
    summary == [] || !Fits(e, summary, critical, available, 1) || !Fits(e, summary, critical, available, 0)
  }

  /** A compressed text cut to what fits beside the critical fragments; nothing when none of it does. */
  method FreshSummary(critical: seq<Fragment>, noncritical: seq<Fragment>, available: int, e: Estimator,
                      compress: seq<Fragment> -> Outcome<Text>)
    returns (r: Outcome<Text>)
    ensures r.Ok? && r.value != [] ==> noncritical != [] && WithinBudget(e, Front(r.value) + critical, available)
    ensures r.Ok? && r.value == [] ==> EmptySummary(critical, noncritical, available, e, compress)
    ensures r.Err? ==> NoSummary(critical, noncritical, e, compress)
  {
    if noncritical == [] { return Ok([]); }
    r := compress(noncritical);
    if r.Ok? && r.value != [] {
      ghost var whole := r.value;
      r := FitSummary(e, r.value, critical, available);
      assert r.Ok? ==> r.value == whole[..|r.value|];
    }
  }

  /** Compaction: keep the critical fragments and whatever prefix of a fresh summary fits beside them. */
  method Compact(all: seq<Fragment>, available: int, e: Estimator, compress: seq<Fragment> -> Outcome<Text>)
    returns (r: Outcome<Build>)
    requires Distinct(Ids(all))
    ensures r.Ok? ==> e(r.value.messages) >= 0 && r.value.estimated == Estimate(e, r.value.messages).value
    ensures r.Ok? ==> r.value.estimated <= r.value.budget == available && Keeps(all, r.value)
    ensures r.Err? ==> CannotCompact(all, available, e, compress)
  {
    var critical, noncritical := Critical(all, true), Critical(all, false);
    if critical != [] {
      var messages := Assemble(critical);
      if messages.Err? { return Err(messages.code); }
      var tokens := Estimate(e, messages.value);
      if tokens.Err? { return Err(tokens.code); }
      if tokens.value > available { return Err("context_critical_limit"); }
    }
    var added := FreshSummary(critical, noncritical, available, e, compress);
    if added.Err? { return Err(added.code); }
    var retained := Front(added.value) + critical;
    assert added.value == [] ==> retained == critical;
    var messages := Assemble(retained);
    if messages.Err? { return Err(messages.code); }
    var estimated := Estimate(e, messages.value);
    assert estimated.Ok?;   // what is retained has been estimated before, alone or next to the summary
    r := Report(all, messages.value, estimated.value, available, added.value);
  }

  /** The build result: what was kept, and every identifier that is not one of the critical ones as dropped. */
  method Report(all: seq<Fragment>, messages: seq<Msg>, estimated: nat, available: int, summary: Text)
    returns (r: Outcome<Build>)
    requires Distinct(Ids(all)) && messages == Merged(Front(summary) + Critical(all, true))
    requires summary != [] ==> Critical(all, false) != []
    ensures r.Err? ==> |all| > MAX_CONTEXT_FRAGMENTS
    ensures r.Ok? ==> r.value.messages == messages && r.value.estimated == estimated && r.value.budget == available
    ensures r.Ok? ==> Keeps(all, r.value)
  {
    CriticalSizes(all);
    var critical := Critical(all, true);
    var kept := set x | x in critical :: x.id;
    CriticalIdsOf(all, kept);
    DroppedAreNoncritical(all);
    var retained, dropped := Front(summary) + critical, IdsOutside(all, kept);
    if |retained| > MAX_CONTEXT_FRAGMENTS || |dropped| > MAX_CONTEXT_FRAGMENTS { return Err("invalid_result"); }
    assert Ids(retained) == Ids(Front(summary)) + Ids(critical);
    return Ok(Build(messages, estimated, available, Critical(all, false) != [], summary, Ids(retained), dropped));
  }

  // ---------- What survives ----------

  /** System contents as ordered blocks of the first message, all other messages in order. */
  ghost predicate Survive(f: seq<Fragment>, messages: seq<Msg>) {
    && Subsequence(Others(f), messages)
    && (Systems(f) != [] ==>
          messages != [] && messages[0].role.System? && OrderedBlocks(Systems(f), messages[0].content))
  }

  lemma {:induction false} SubsequenceAfter<T>(a: seq<T>, front: seq<T>, b: seq<T>)
    requires Subsequence(a, b)
    ensures Subsequence(a, front + b)
    decreases |front|
  {
    if front == [] {
      assert front + b == b;
    } else {
      SubsequenceAfter(a, front[1..], b);
      assert (front + b)[1..] == front[1..] + b;
    }
  }

  lemma {:induction false} SystemsOfCritical(f: seq<Fragment>)
    ensures Subsequence(Systems(Critical(f, true)), Systems(f))
  {
    if f != [] {
      SystemsOfCritical(f[1..]);
      var rest := Critical(f[1..], true);
      if !f[0].critical {
        assert Critical(f, true) == rest;
        if f[0].message.role.System? { SubsequenceAfter(Systems(rest), [f[0].message.content], Systems(f[1..])); }
      } else {
        assert Critical(f, true) == [f[0]] + rest && ([f[0]] + rest)[1..] == rest;
        if f[0].message.role.System? { Extend(Systems(rest), Systems(f[1..]), f[0].message.content); }
      }
    }
  }

  lemma {:induction false} OthersOfCritical(f: seq<Fragment>)
    ensures Subsequence(Others(Critical(f, true)), Others(f))
  {
    if f != [] {
      OthersOfCritical(f[1..]);
      var rest := Critical(f[1..], true);
      if !f[0].critical {
        assert Critical(f, true) == rest;
        if !f[0].message.role.System? { SubsequenceAfter(Others(rest), [f[0].message], Others(f[1..])); }
      } else {
        assert Critical(f, true) == [f[0]] + rest && ([f[0]] + rest)[1..] == rest;
        if !f[0].message.role.System? { Extend(Others(rest), Others(f[1..]), f[0].message); }
      }
    }
  }

  lemma Extend<T>(a: seq<T>, b: seq<T>, x: T)
    requires Subsequence(a, b)
    ensures Subsequence([x] + a, [x] + b)
  {
    assert ([x] + a)[1..] == a && ([x] + b)[1..] == b;
  }

  lemma {:induction false} SubsequenceSelf<T>(a: seq<T>)
    ensures Subsequence(a, a)
  {
    if a != [] { SubsequenceSelf(a[1..]); }
  }

  lemma MergedSurvive(part: seq<Fragment>, whole: seq<Fragment>)
    requires Subsequence(Systems(part), Systems(whole)) && Subsequence(Others(part), Others(whole))
    ensures Survive(part, Merged(whole))
  {
    JoinedBlocks(Systems(part), Systems(whole));
    SubsequenceAfter(Others(part), if Systems(whole) == [] then [] else [SystemMessage(Join(Systems(whole)))],
                     Others(whole));
  }

  lemma PartsBesideSummary(summary: Text, critical: seq<Fragment>)
    ensures Systems(Front(summary) + critical) == Systems(Front(summary)) + Systems(critical)
    ensures Others(Front(summary) + critical) == Others(critical)
  {
    var front := Front(summary);
    if summary == [] {
      assert front + critical == critical;
    } else {
      assert (front + critical)[1..] == critical;
      assert front[1..] == [];
    }
  }

  /** What stands next to a summary survives with it. */
  lemma RetainedSurvive(summary: Text, critical: seq<Fragment>)
    ensures Survive(critical, Merged(Front(summary) + critical))
  {
    PartsBesideSummary(summary, critical);
    SubsequenceSelf(Systems(critical));
    SubsequenceSelf(Others(critical));
    SubsequenceAfter(Systems(critical), Systems(Front(summary)), Systems(critical));
    MergedSurvive(critical, Front(summary) + critical);
  }

  /** Every critical fragment's message survives the build, in its original order. */
  lemma CriticalSurvive(all: seq<Fragment>, b: Build)
    requires Keeps(all, b)
    ensures Survive(Critical(all, true), b.messages)
  {
    if b.messages == Merged(all) {
      SystemsOfCritical(all);
      OthersOfCritical(all);
      MergedSurvive(Critical(all, true), all);
    } else {
      RetainedSurvive(b.summary, Critical(all, true));
    }
  }

  /** Apart from a new summary, what is kept and what is dropped partition the fragment identifiers. */
  lemma KeptAndDropped(all: seq<Fragment>, b: Build)
    requires Keeps(all, b)
    ensures multiset(b.retained) + multiset(b.dropped) == multiset(Ids(all)) + multiset(Ids(Front(b.summary)))
  {
    CriticalPartition(all);
  }

  /** Every reason a build can fail. */
  ghost predicate CannotBuild(request: Request, contributions: seq<seq<Fragment>>, e: Estimator,
                              compress: seq<Fragment> -> Outcome<Text>)
  {
    var all := AllFragments(Concat(contributions), request.previousSummary);
    || request.available.Err? || |Concat(contributions)| > MAX_CONTEXT_FRAGMENTS || !Distinct(Ids(all))
    || (request.previousSummary != [] && Oversized(PreviousFragment(request.previousSummary).message))
    || Unmeasurable(e, all) || |all| > MAX_CONTEXT_FRAGMENTS
    || ((request.force || Estimate(e, Assemble(all).value).value > request.available.value)
        && CannotCompact(all, request.available.value, e, compress))
  }

  /** Whenever a build returns, its estimate is within the route budget, critical fragments are all kept in order,
      and what is kept and what is dropped account for every fragment. */
  method BuildContext(request: Request, contributions: seq<seq<Fragment>>, e: Estimator,
                      compress: seq<Fragment> -> Outcome<Text>)
    returns (r: Outcome<Build>)
    ensures r.Ok? ==> request.available.Ok? && r.value.budget == request.available.value
    ensures r.Ok? ==> e(r.value.messages) >= 0 && r.value.estimated == Estimate(e, r.value.messages).value
    ensures r.Ok? ==> r.value.estimated <= r.value.budget
    ensures r.Ok? ==>
      var all := AllFragments(Concat(contributions), request.previousSummary);
      && Distinct(Ids(all)) && Keeps(all, r.value) && Survive(Critical(all, true), r.value.messages)
      && multiset(r.value.retained) + multiset(r.value.dropped) == multiset(Ids(all)) + multiset(Ids(Front(r.value.summary)))
    ensures r.Err? ==> CannotBuild(request, contributions, e, compress)
    ensures r.Ok? && r.value.messages != Merged(AllFragments(Concat(contributions), request.previousSummary)) ==>
      request.force || e(Merged(AllFragments(Concat(contributions), request.previousSummary))) > request.available.value
  {
    if request.available.Err? { return Err(request.available.code); }
    var gathered := Gather(contributions);
    if gathered.Err? { return Err(gathered.code); }
    var fragments := WithPrevious(gathered.value, request.previousSummary);
    if fragments.Err? { return Err(fragments.code); }
    var all, available := fragments.value, request.available.value;
    var messages := Assemble(all);
    if messages.Err? { return Err(messages.code); }
    var tokens := Estimate(e, messages.value);
    if tokens.Err? { return Err(tokens.code); }
    if tokens.value <= available && !request.force {
      if |all| > MAX_CONTEXT_FRAGMENTS { return Err("invalid_result"); }
      r := Ok(Build(messages.value, tokens.value, available, false, [], Ids(all), []));
    } else {
      r := Compact(all, available, e, compress);
    }
    if r.Ok? {
      CriticalSurvive(all, r.value);
      KeptAndDropped(all, r.value);
    }
  }
}
