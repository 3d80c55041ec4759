/** Event-sized splitting of model text, and the automaton that consumes one gateway stream. */
module ModelTurn {
  import opened Text
  import opened LoopEvents

  const DELTA_FRAME := 31   // {"model_call_id":"","delta":""}

  // ---------- Splitting text into event-safe chunks ----------

  /** Bytes of a delta payload left for the text itself. */
  function Room(callId: Text): int { MAX_EVENT_PAYLOAD_BYTES - DELTA_FRAME - Weight(JsonBytes, callId) }

  predicate PayloadFits(value: Text, callId: Text) {
    DELTA_FRAME + Weight(JsonBytes, callId) + Weight(JsonBytes, value) <= MAX_EVENT_PAYLOAD_BYTES
  }

  /** The largest proper prefix of a text that does not fit whole. One scalar always fits. */
  method LargestPrefix(remaining: Text, callId: Text) returns (best: nat)
    requires |callId| <= MAX_IDENTIFIER && !PayloadFits(remaining, callId)
    ensures 0 < best < |remaining| && PayloadFits(remaining[..best], callId)
    ensures !PayloadFits(remaining[..best + 1], callId)
  {
    var lower, upper := 1, |remaining| - 1;
    best := 0;
    OneScalarFits(remaining, callId);
    assert remaining[..|remaining|] == remaining;
    while lower <= upper
      invariant best + 1 == lower <= upper + 1 <= |remaining|
      invariant PayloadFits(remaining[..best], callId) && !PayloadFits(remaining[..upper + 1], callId)
      decreases upper - lower
    {
      var middle := (lower + upper) / 2;
      if PayloadFits(remaining[..middle], callId) {
        best, lower := middle, middle + 1;
      } else {
        upper := middle - 1;
      }
    }
    assert best != 0;   // the zero-progress assertion is unreachable
  }

  lemma OneScalarFits(t: Text, callId: Text)
    requires |callId| <= MAX_IDENTIFIER
    ensures PayloadFits(t[..0], callId)
    ensures t != [] ==> PayloadFits(t[..1], callId)
  {
    WeightBounds(JsonBytes, callId);
    if t != [] { WeightBounds(JsonBytes, t[..1]); }
  }

  ghost predicate Chunked(value: Text, callId: Text, chunks: seq<Text>) {
    Flatten(chunks) == value && forall c :: c in chunks ==> c != [] && PayloadFits(c, callId)
  }

  /** The chunks spell the text and each is a non-empty event-sized piece, as long as it can be. */
  method TextChunks(value: Text, callId: Text) returns (chunks: seq<Text>)
    requires |callId| <= MAX_IDENTIFIER
    ensures Chunked(value, callId, chunks)
    ensures Maximal(JsonBytes, Room(callId), chunks)
  {
    var cursor := 0;
    chunks := [];
    assert value[0..] == value;
    while cursor < |value|
      invariant cursor <= |value| && Cutting(JsonBytes, value, chunks, value[cursor..], Room(callId))
    {
      var remaining := value[cursor..];
      if PayloadFits(remaining, callId) {
        assert remaining[..|remaining|] == remaining;
        CutOne(JsonBytes, value, chunks, remaining, Room(callId), |remaining|);
        chunks, cursor := chunks + [remaining], |value|;
      } else {
        var best := LargestPrefix(remaining, callId);
        CutOne(JsonBytes, value, chunks, remaining, Room(callId), best);
        chunks, cursor := chunks + [remaining[..best]], cursor + best;
      }
    }
  }

  /** No split of the text into event-sized pieces uses fewer of them than the chunker's. */
  lemma ChunksAreFewest(value: Text, callId: Text, chunks: seq<Text>, other: seq<Text>)
    requires Chunked(value, callId, chunks) && Maximal(JsonBytes, Room(callId), chunks)
    requires Flatten(other) == value && forall c :: c in other ==> PayloadFits(c, callId)
    ensures |chunks| <= |other|
  {
    assert Flatten(other) == [] + Flatten(chunks);
    MaximalIsShortest(JsonBytes, Room(callId), chunks, other, []);
  }

  // ---------- Consuming one gateway stream ----------

  /** A proposed call: `argumentBytes` is its canonical JSON size, `secret` whether redaction would change it. */
  datatype Call = Call(id: string, name: string, argumentBytes: nat, secret: bool)

  datatype Rejected = Rejected(id: string, name: string)

  datatype GatewayEvent =
    | Malformed
    | TextDelta(delta: Text)
    | ToolCall(call: Call)
    | InvalidToolCall(rejected: Rejected)
    | Completed(finishReason: string)

  /** How the event iteration stops once the events have been delivered. */
  datatype Ending = Exhausted | TimedOut | DomainFailure | OtherFailure

  datatype Config = Config(maxOutputBytes: nat, maxArgumentBytes: nat, maxToolCalls: nat)

  datatype Item =
    | ModelText(sequence: nat, delta: Text)
    | ToolReceived(sequence: nat, call: Call)
    | ToolRejected(sequence: nat, rejected: Rejected)
    | TurnResult(text: Text, calls: seq<Call>, invalid: seq<Rejected>, finishReason: string)
    | TurnFailure(code: string)

  predicate Terminal(item: Item) { item.TurnResult? || item.TurnFailure? }

  /** An arbitrary streaming redactor: what it releases may depend on everything fed so far. */
  datatype Redactor = Redactor(feed: (seq<Text>, Text) -> Text, finish: seq<Text> -> Text)

  // What the delivered events amount to, said without the automaton.

  function Deltas(e: seq<GatewayEvent>): seq<Text> {
    if e == [] then []
    else Deltas(e[..|e| - 1]) + match e[|e| - 1] case TextDelta(d) => [d] case _ => []
  }

  function Safe(r: Redactor, fed: seq<Text>): Text {
    if fed == [] then [] else Safe(r, fed[..|fed| - 1]) + r.feed(fed[..|fed| - 1], fed[|fed| - 1])
  }

  function Accepted(e: seq<GatewayEvent>): seq<Call> {
    if e == [] then []
    else Accepted(e[..|e| - 1]) + match e[|e| - 1] case ToolCall(c) => (if c.secret then [] else [c]) case _ => []
  }

  function Refused(e: seq<GatewayEvent>): seq<Rejected> {
    if e == [] then []
    else Refused(e[..|e| - 1]) + match e[|e| - 1]
                                 case ToolCall(c) => (if c.secret then [Rejected(c.id, c.name)] else [])
                                 case InvalidToolCall(r) => [r]
                                 case _ => []
  }

  /** The last of these events is well formed, follows no completion and keeps every running total in bounds. */
  predicate GoodPrefix(cfg: Config, r: Redactor, prior: nat, e: seq<GatewayEvent>)
    requires e != []
  {
    && (|e| > 1 ==> !e[|e| - 2].Completed?)
    && match e[|e| - 1]
       case Malformed => false
       case TextDelta(_) =>
         Size(Flatten(Deltas(e))) <= cfg.maxOutputBytes && Size(Safe(r, Deltas(e))) <= cfg.maxOutputBytes
       case ToolCall(c) =>
         c.argumentBytes <= cfg.maxArgumentBytes && prior + |Accepted(e)| + |Refused(e)| <= cfg.maxToolCalls
       case InvalidToolCall(_) => prior + |Accepted(e)| + |Refused(e)| <= cfg.maxToolCalls
       case Completed(_) => true
  }

  ghost predicate GoodStream(cfg: Config, r: Redactor, prior: nat, e: seq<GatewayEvent>, ending: Ending) {
    && ending.Exhausted? && e != [] && e[|e| - 1].Completed?
    && AllGood(cfg, r, prior, e, |e|)
    && Size(Safe(r, Deltas(e)) + r.finish(Deltas(e))) <= cfg.maxOutputBytes
  }

  function Piece(item: Item): Text { match item case ModelText(_, d) => d case _ => [] }

  /** The failure a bad event `i` is reported as. */
  function Breach(cfg: Config, e: seq<GatewayEvent>, i: nat): string
    requires i < |e|
  {
    if e[i].Malformed? || (i > 0 && e[i - 1].Completed?) then "invalid_model_stream"
    else if e[i].TextDelta? then "model_output_limit"
    else if e[i].ToolCall? && e[i].call.argumentBytes > cfg.maxArgumentBytes then "tool_argument_limit"
    else "tool_call_limit"
  }

  /** The failure of a stream whose every event is good. */
  function Shortfall(e: seq<GatewayEvent>, ending: Ending): string {
    match ending
    case TimedOut => "model_timeout"
    case DomainFailure => "domain_error"
    case OtherFailure => "model_gateway_failure"
    case Exhausted => if e == [] || !e[|e| - 1].Completed? then "incomplete_model_stream" else "model_output_limit"
  }

  /** Event `at` is the first bad one, and the failure says why. */
  ghost predicate FirstBad(cfg: Config, r: Redactor, prior: nat, e: seq<GatewayEvent>, at: nat, failure: string) {
    && at < |e| && AllGood(cfg, r, prior, e, at) && !GoodPrefix(cfg, r, prior, e[..at + 1])
    && failure == Breach(cfg, e, at)
  }

  /** The text carried by the emitted delta events. */
  function TextOf(items: seq<Item>): Text {
    if items == [] then [] else TextOf(items[..|items| - 1]) + Piece(items[|items| - 1])
  }

  /** The calls announced as received, and those announced as rejected. */
  function Received(items: seq<Item>): seq<Call> {
    if items == [] then []
    else Received(items[..|items| - 1]) + match items[|items| - 1] case ToolReceived(_, c) => [c] case _ => []
  }

  function Rejections(items: seq<Item>): seq<Rejected> {
    if items == [] then []
    else Rejections(items[..|items| - 1]) + match items[|items| - 1] case ToolRejected(_, x) => [x] case _ => []
  }

  ghost predicate Numbered(items: seq<Item>, from: nat) {
    forall i :: 0 <= i < |items| ==> !Terminal(items[i]) && items[i].sequence == from + 1 + i
  }

  lemma AppendItem(items: seq<Item>, from: nat, item: Item)
    requires Numbered(items, from) && !Terminal(item) && item.sequence == from + 1 + |items|
    ensures Numbered(items + [item], from)
  {
  }

  lemma AppendText(items: seq<Item>, item: Item)
    ensures TextOf(items + [item]) == TextOf(items) + Piece(item)
  {
    assert (items + [item])[..|items|] == items;
  }

  lemma AppendCall(items: seq<Item>, item: Item)
    ensures Received(items + [item]) == if item.ToolReceived? then Received(items) + [item.call] else Received(items)
    ensures Rejections(items + [item])
         == if item.ToolRejected? then Rejections(items) + [item.rejected] else Rejections(items)
  {
    assert (items + [item])[..|items|] == items;
  }

  /** These items add just this text to those. */
  ghost predicate Adds(items: seq<Item>, emitted: seq<Item>, text: Text) {
    && TextOf(items) == TextOf(emitted) + text
    && Received(items) == Received(emitted) && Rejections(items) == Rejections(emitted)
  }

  lemma AddDelta(items: seq<Item>, emitted: seq<Item>, chunks: seq<Text>, i: nat, n: nat)
    requires i < |chunks| && Adds(items, emitted, Flatten(chunks[..i]))
    ensures Adds(items + [ModelText(n, chunks[i])], emitted, Flatten(chunks[..i + 1]))
  {
    AppendText(items, ModelText(n, chunks[i]));
    AppendCall(items, ModelText(n, chunks[i]));
    FlattenNext(chunks, i);
    Associate(TextOf(emitted), Flatten(chunks[..i]), chunks[i]);
  }

  lemma Associate(a: Text, b: Text, c: Text)
    ensures a + b + c == a + (b + c)
  {
  }

  method EmitText(events: EventFactory, emitted: seq<Item>, ghost from: nat, text: Text, callId: Text)
    returns (items: seq<Item>)
    requires |callId| <= MAX_IDENTIFIER && Numbered(emitted, from) && events.sequence == from + |emitted|
    modifies events
    ensures Numbered(items, from) && events.sequence == from + |items|
    ensures Adds(items, emitted, text)
  {
    var chunks := TextChunks(text, callId);
    items := emitted;
    assert chunks[..0] == [] && chunks[..|chunks|] == chunks && TextOf(emitted) + [] == TextOf(emitted);
    for i := 0 to |chunks|
      invariant Numbered(items, from) && events.sequence == from + |items|
      invariant Adds(items, emitted, Flatten(chunks[..i]))
    {
      var n := events.Metadata();
      AppendItem(items, from, ModelText(n, chunks[i]));
      AddDelta(items, emitted, chunks, i, n);
      items := items + [ModelText(n, chunks[i])];
    }
  }

  /** The runner's local lists after it has consumed the events `p`. */
  ghost predicate Tracks(r: Redactor, p: seq<GatewayEvent>,
                         fed: seq<Text>, text: Text, calls: seq<Call>, invalid: seq<Rejected>) {
    fed == Deltas(p) && text == Safe(r, fed) && calls == Accepted(p) && invalid == Refused(p)
  }

  lemma TracksNext(r: Redactor, e: seq<GatewayEvent>, i: nat,
                   fed: seq<Text>, text: Text, calls: seq<Call>, invalid: seq<Rejected>)
    requires i < |e| && Tracks(r, e[..i], fed, text, calls, invalid)
    ensures match e[i]
            case TextDelta(d) => Tracks(r, e[..i + 1], fed + [d], text + r.feed(fed, d), calls, invalid)
            case ToolCall(c) =>
              if c.secret then Tracks(r, e[..i + 1], fed, text, calls, invalid + [Rejected(c.id, c.name)])
              else Tracks(r, e[..i + 1], fed, text, calls + [c], invalid)
            case InvalidToolCall(x) => Tracks(r, e[..i + 1], fed, text, calls, invalid + [x])
            case _ => Tracks(r, e[..i + 1], fed, text, calls, invalid)
  {
    assert e[..i + 1][..i] == e[..i];
    match e[i]
    case TextDelta(d) => assert (fed + [d])[..|fed|] == fed;
    case _ =>
  }

  lemma SizesNext(fed: seq<Text>, delta: Text, text: Text, safeText: Text)
    ensures Size(Flatten(fed + [delta])) == Size(Flatten(fed)) + Size(delta)
    ensures Size(text + safeText) == Size(text) + Size(safeText)
  {
    FlattenAppend(fed, delta);
    WeightConcat(Utf8Bytes, Flatten(fed), delta);
    WeightConcat(Utf8Bytes, text, safeText);
  }

  /** `GoodPrefix` in terms of the lists held after the event. */
  lemma PrefixVerdict(cfg: Config, r: Redactor, prior: nat, e: seq<GatewayEvent>, i: nat,
                      fed: seq<Text>, text: Text, calls: seq<Call>, invalid: seq<Rejected>)
    requires i < |e| && Tracks(r, e[..i + 1], fed, text, calls, invalid)
    ensures GoodPrefix(cfg, r, prior, e[..i + 1]) <==>
      && (i > 0 ==> !e[i - 1].Completed?)
      && match e[i]
         case Malformed => false
         case TextDelta(_) => Size(Flatten(fed)) <= cfg.maxOutputBytes && Size(text) <= cfg.maxOutputBytes
         case ToolCall(c) =>
           c.argumentBytes <= cfg.maxArgumentBytes && prior + |calls| + |invalid| <= cfg.maxToolCalls
         case InvalidToolCall(_) => prior + |calls| + |invalid| <= cfg.maxToolCalls
         case Completed(_) => true
  {
    var p := e[..i + 1];
    assert p[|p| - 1] == e[i] && (i > 0 ==> p[|p| - 2] == e[i - 1]);
  }

  ghost predicate AllGood(cfg: Config, r: Redactor, prior: nat, e: seq<GatewayEvent>, n: nat)
    requires n <= |e|
  {
    forall i :: 0 < i <= n ==> GoodPrefix(cfg, r, prior, e[..i])
  }

  /** One tool-call event: announce it as received or rejected, then enforce the argument and call limits. */
  method ConsumeCall(event: GatewayEvent, cfg: Config, prior: nat, events: EventFactory,
                     emitted: seq<Item>, ghost from: nat, calls: seq<Call>, invalid: seq<Rejected>)
    returns (items: seq<Item>, failure: string, calls': seq<Call>, invalid': seq<Rejected>)
    requires event.ToolCall? || event.InvalidToolCall?
    requires Numbered(emitted, from) && events.sequence == from + |emitted|
    requires calls == Received(emitted) && invalid == Rejections(emitted)
    modifies events
    ensures Numbered(items, from) && events.sequence == from + |items| && TextOf(items) == TextOf(emitted)
    ensures failure == "" ==> calls' == Received(items) && invalid' == Rejections(items)
    ensures failure == "" ==>
      if event.InvalidToolCall? then calls' == calls && invalid' == invalid + [event.rejected]
      else if event.call.secret then calls' == calls && invalid' == invalid + [Rejected(event.call.id, event.call.name)]
      else calls' == calls + [event.call] && invalid' == invalid
    ensures failure == "" <==>
      && (event.ToolCall? ==> event.call.argumentBytes <= cfg.maxArgumentBytes)
      && prior + |calls| + |invalid| < cfg.maxToolCalls
    ensures failure != "" ==>
      failure == if event.ToolCall? && event.call.argumentBytes > cfg.maxArgumentBytes then "tool_argument_limit"
                 else "tool_call_limit"
  {
    var n := events.Metadata();
    var item;
    failure, calls', invalid' := "", calls, invalid;
    if event.InvalidToolCall? {
      item, invalid' := ToolRejected(n, event.rejected), invalid + [event.rejected];
    } else {
      var rejected := Rejected(event.call.id, event.call.name);
      if event.call.argumentBytes > cfg.maxArgumentBytes {
        item, failure := ToolRejected(n, rejected), "tool_argument_limit";
      } else if event.call.secret {
        item, invalid' := ToolRejected(n, rejected), invalid + [rejected];
      } else {
        item, calls' := ToolReceived(n, event.call), calls + [event.call];
      }
    }
    AppendItem(emitted, from, item);
    AppendText(emitted, item);
    AppendCall(emitted, item);
    items := emitted + [item];
    if failure == "" && prior + |calls'| + |invalid'| > cfg.maxToolCalls { failure := "tool_call_limit"; }
  }

  /** One text delta: redact it, enforce the byte limits on both forms, then emit what is safe. */
  method ConsumeText(delta: Text, cfg: Config, r: Redactor, callId: Text, events: EventFactory, emitted: seq<Item>,
                     ghost from: nat, fed: seq<Text>, text: Text, raw: nat, safe: nat)
    returns (items: seq<Item>, failure: string, text': Text, raw': nat, safe': nat)
    requires |callId| <= MAX_IDENTIFIER && Numbered(emitted, from) && events.sequence == from + |emitted|
    requires text == TextOf(emitted) && raw == Size(Flatten(fed)) && safe == Size(text)
    modifies events
    ensures Numbered(items, from) && events.sequence == from + |items|
    ensures text' == text + r.feed(fed, delta) && raw' == Size(Flatten(fed + [delta])) && safe' == Size(text')
    ensures failure == if raw' <= cfg.maxOutputBytes && safe' <= cfg.maxOutputBytes then "" else "model_output_limit"
    ensures failure == "" ==> text' == TextOf(items)
    ensures Received(items) == Received(emitted) && Rejections(items) == Rejections(emitted)
  {
    var safeText := r.feed(fed, delta);
    SizesNext(fed, delta, text, safeText);
    items, failure := emitted, "";
    text', raw', safe' := text + safeText, raw + Size(delta), safe + Size(safeText);
    if raw' > cfg.maxOutputBytes || safe' > cfg.maxOutputBytes {
      failure := "model_output_limit";
    } else {
      items := EmitText(events, emitted, from, safeText, callId);
    }
  }

  /** What the runner holds between events. */
  datatype Held = Held(fed: seq<Text>, text: Text, calls: seq<Call>, invalid: seq<Rejected>, raw: nat, safe: nat,
                       completed: bool)

  /** It holds what the first `i` events amount to, and has announced exactly that. */
  ghost predicate Holding(r: Redactor, e: seq<GatewayEvent>, i: nat, h: Held, emitted: seq<Item>)
    requires i <= |e|
  {
    && Tracks(r, e[..i], h.fed, h.text, h.calls, h.invalid)
    && h.text == TextOf(emitted) && h.calls == Received(emitted) && h.invalid == Rejections(emitted)
    && h.raw == Size(Flatten(h.fed)) && h.safe == Size(h.text)
    && (h.completed <==> i > 0 && e[i - 1].Completed?)
  }

  /** Event `i` has been consumed, or refused exactly because it is bad. */
  ghost predicate Consumed(cfg: Config, r: Redactor, prior: nat, e: seq<GatewayEvent>, i: nat, items: seq<Item>,
                           failure: string, h: Held)
    requires i < |e|
  {
    && failure == (if GoodPrefix(cfg, r, prior, e[..i + 1]) then "" else Breach(cfg, e, i))
    && (failure == "" ==> Holding(r, e, i + 1, h, items))
  }

  method TakeText(e: seq<GatewayEvent>, i: nat, cfg: Config, r: Redactor, ghost prior: nat, callId: Text,
                  events: EventFactory, emitted: seq<Item>, ghost from: nat, h: Held)
    returns (items: seq<Item>, failure: string, h': Held)
    requires |callId| <= MAX_IDENTIFIER && i < |e| && Holding(r, e, i, h, emitted)
    requires Numbered(emitted, from) && events.sequence == from + |emitted| && e[i].TextDelta? && !h.completed
    modifies events
    ensures Numbered(items, from) && events.sequence == from + |items|
    ensures Consumed(cfg, r, prior, e, i, items, failure, h')
  {
    TracksNext(r, e, i, h.fed, h.text, h.calls, h.invalid);
    var text, raw, safe;
    items, failure, text, raw, safe :=
      ConsumeText(e[i].delta, cfg, r, callId, events, emitted, from, h.fed, h.text, h.raw, h.safe);
    h' := h.(fed := h.fed + [e[i].delta], text := text, raw := raw, safe := safe);
    PrefixVerdict(cfg, r, prior, e, i, h'.fed, text, h.calls, h.invalid);
  }

  method TakeCall(e: seq<GatewayEvent>, i: nat, cfg: Config, r: Redactor, prior: nat,
                  events: EventFactory, emitted: seq<Item>, ghost from: nat, h: Held)
    returns (items: seq<Item>, failure: string, h': Held)
    requires i < |e| && Holding(r, e, i, h, emitted) && (e[i].ToolCall? || e[i].InvalidToolCall?) && !h.completed
    requires Numbered(emitted, from) && events.sequence == from + |emitted|
    modifies events
    ensures Numbered(items, from) && events.sequence == from + |items|
    ensures Consumed(cfg, r, prior, e, i, items, failure, h')
  {
    TracksNext(r, e, i, h.fed, h.text, h.calls, h.invalid);
    ghost var more := if e[i].ToolCall? && !e[i].call.secret then h.calls + [e[i].call] else h.calls;
    ghost var refused := if e[i].InvalidToolCall? then h.invalid + [e[i].rejected]
                         else if e[i].call.secret then h.invalid + [Rejected(e[i].call.id, e[i].call.name)] else h.invalid;
    PrefixVerdict(cfg, r, prior, e, i, h.fed, h.text, more, refused);
    var calls, invalid;
    items, failure, calls, invalid := ConsumeCall(e[i], cfg, prior, events, emitted, from, h.calls, h.invalid);
    h' := h.(calls := calls, invalid := invalid);
  }

  /** One event, whatever it is. */
  method ConsumeOne(e: seq<GatewayEvent>, i: nat, cfg: Config, r: Redactor, prior: nat, callId: Text,
                    events: EventFactory, emitted: seq<Item>, ghost from: nat, h: Held)
    returns (items: seq<Item>, failure: string, h': Held)
    requires |callId| <= MAX_IDENTIFIER && i < |e| && Holding(r, e, i, h, emitted)
    requires Numbered(emitted, from) && events.sequence == from + |emitted|
    modifies events
    ensures Numbered(items, from) && events.sequence == from + |items|
    ensures Consumed(cfg, r, prior, e, i, items, failure, h')
  {
    if e[i].Malformed? || h.completed { return emitted, "invalid_model_stream", h; }
    if e[i].TextDelta? {
      items, failure, h' := TakeText(e, i, cfg, r, prior, callId, events, emitted, from, h);
    } else if e[i].Completed? {
      TracksNext(r, e, i, h.fed, h.text, h.calls, h.invalid);
      PrefixVerdict(cfg, r, prior, e, i, h.fed, h.text, h.calls, h.invalid);
      items, failure, h' := emitted, "", h.(completed := true);
    } else {
      items, failure, h' := TakeCall(e, i, cfg, r, prior, events, emitted, from, h);
    }
  }

  /** The event loop: it stops with a failure at the first bad event, or delivers what it holds. */
  method Consume(e: seq<GatewayEvent>, cfg: Config, r: Redactor, prior: nat, callId: Text, events: EventFactory)
    returns (emitted: seq<Item>, failure: string, h: Held, ghost at: nat)
    requires |callId| <= MAX_IDENTIFIER
    modifies events
    ensures Numbered(emitted, old(events.sequence)) && events.sequence == old(events.sequence) + |emitted|
    ensures if failure == "" then AllGood(cfg, r, prior, e, |e|) && Holding(r, e, |e|, h, emitted)
            else FirstBad(cfg, r, prior, e, at, failure)
  {
    ghost var from := events.sequence;
    emitted, failure, h, at := [], "", Held([], [], [], [], 0, 0, false), 0;
    for i := 0 to |e|
      invariant failure == "" && AllGood(cfg, r, prior, e, i) && Holding(r, e, i, h, emitted)
      invariant Numbered(emitted, from) && events.sequence == from + |emitted|
    {
      at := i;
      emitted, failure, h := ConsumeOne(e, i, cfg, r, prior, callId, events, emitted, from, h);
      if failure != "" { return; }
    }
  }

  /** The turn runner. Whatever the gateway does, exactly one result or failure is emitted and it comes last; the
      earlier items are consecutively numbered events. A result is emitted exactly for a good stream. */
  method Run(e: seq<GatewayEvent>, ending: Ending, cfg: Config, r: Redactor, prior: nat, callId: Text,
             events: EventFactory)
    returns (emitted: seq<Item>, last: Item)
    requires |callId| <= MAX_IDENTIFIER
    modifies events
    ensures Terminal(last) && Numbered(emitted, old(events.sequence))
    ensures events.sequence == old(events.sequence) + |emitted|
    ensures last.TurnResult? <==> GoodStream(cfg, r, prior, e, ending)
    ensures last.TurnFailure? ==>
      if AllGood(cfg, r, prior, e, |e|) then last.code == Shortfall(e, ending)
      else exists at :: FirstBad(cfg, r, prior, e, at, last.code)
    ensures last.TurnResult? ==>
      && last.text == TextOf(emitted) == Safe(r, Deltas(e)) + r.finish(Deltas(e))
      && last.calls == Accepted(e) == Received(emitted) && last.invalid == Refused(e) == Rejections(emitted)
      && last.finishReason == e[|e| - 1].finishReason
  {
    ghost var from := events.sequence;
    var failure, h;
    ghost var at;
    emitted, failure, h, at := Consume(e, cfg, r, prior, callId, events);
    if failure != "" { return emitted, TurnFailure(failure); }
    if !ending.Exhausted? {
      return emitted, TurnFailure(if ending.TimedOut? then "model_timeout"
                                  else if ending.DomainFailure? then "domain_error" else "model_gateway_failure");
    }
    if !h.completed { return emitted, TurnFailure("incomplete_model_stream"); }
    assert e[..|e|] == e;
    var finalText := r.finish(h.fed);
    WeightConcat(Utf8Bytes, h.text, finalText);
    if h.safe + Size(finalText) > cfg.maxOutputBytes { return emitted, TurnFailure("model_output_limit"); }
    emitted := EmitText(events, emitted, from, finalText, callId);
    last := TurnResult(h.text + finalText, h.calls, h.invalid, e[|e| - 1].finishReason);
  }

  /** A result means one completion, delivered last, and totals inside every limit. */
  lemma GoodStreamLimits(cfg: Config, r: Redactor, prior: nat, e: seq<GatewayEvent>, ending: Ending)
    requires GoodStream(cfg, r, prior, e, ending)
    ensures forall i :: 0 <= i < |e| ==> (e[i].Completed? <==> i == |e| - 1)
    ensures Size(Safe(r, Deltas(e)) + r.finish(Deltas(e))) <= cfg.maxOutputBytes
    ensures Accepted(e) != [] || Refused(e) != [] ==> prior + |Accepted(e)| + |Refused(e)| <= cfg.maxToolCalls
  {
    forall i | 0 <= i < |e| - 1 ensures !e[i].Completed? {
      assert GoodPrefix(cfg, r, prior, e[..i + 2]);
    }
    CallsBounded(cfg, r, prior, e, |e|);
    assert e[..|e|] == e;
  }

  lemma {:induction false} CallsBounded(cfg: Config, r: Redactor, prior: nat, e: seq<GatewayEvent>, n: nat)
    requires n <= |e| && forall i :: 0 < i <= |e| ==> GoodPrefix(cfg, r, prior, e[..i])
    ensures var p := e[..n];
            Accepted(p) != [] || Refused(p) != [] ==> prior + |Accepted(p)| + |Refused(p)| <= cfg.maxToolCalls
  {
    if n > 0 {
      CallsBounded(cfg, r, prior, e, n - 1);
      assert GoodPrefix(cfg, r, prior, e[..n]) && e[..n][..n - 1] == e[..n - 1];
    }
  }
}
