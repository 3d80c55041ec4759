/** The active task plan as context fragments: long items are cut into numbered chunks, and unresolved ones are
    critical, so that their whole text can be put together again after compaction. */
module PlanFragments {
  import opened Text
  import opened Utf8
  import opened Context
  import opened Numerals
  import opened Wrappers

  const TASK_PLAN_CHUNK_BYTES := MAX_CONTEXT_ITEM_BYTES / 16
  const MAX_CONTEXT_INPUT_BYTES := 16 * 1024 * 1024
  const MAX_TITLE := 64

  /** What decides whether a plan item is resolved; `folded` is its case-folded status. */
  datatype Shape = NotAnObject | WithStatus(folded: string) | WithoutStatus(done: bool)

  datatype Item = Item(text: Text, shape: Shape)

  datatype Plan = Unrecognized(text: Text) | Listed(text: Text, metadata: Option<Text>, items: seq<Item>)

  predicate Unresolved(shape: Shape) {
    match shape
    case NotAnObject => true
    case WithStatus(folded) => folded != "completed" && folded != "cancelled"
    case WithoutStatus(done) => !done
  }

  /** One text to be carried by a run of fragments. */
  datatype Section = Section(prefix: string, title: Text, critical: bool, content: Text)

  function ItemSection(item: Item, index: nat): Section {
    Section("task-plan-item-" + Decimal(index + 1),
            Literal(if Unresolved(item.shape) then "Active task plan unresolved item" else "Resolved task plan item"),
            Unresolved(item.shape), item.text)
  }

  function MetadataSections(plan: Plan): seq<Section>
    requires plan.Listed?
  {
    if plan.metadata.None? then []
    else [Section("task-plan-metadata", Literal("Task plan metadata"), false, plan.metadata.value)]
  }

  function Sections(plan: Plan): seq<Section> {
    if plan.Unrecognized? then
      [Section("task-plan-legacy", Literal("Active task plan (unrecognized shape; preserve as unresolved)"),
               true, plan.text)]
    else if plan.metadata.None? && plan.items == [] then
      [Section("task-plan-empty", Literal("Task plan with no active items"), false, plan.text)]
    else
      MetadataSections(plan)
      + seq(|plan.items|, i requires 0 <= i < |plan.items| => ItemSection(plan.items[i], i))
  }

  /** Every item has a section of its own, critical exactly when the item is unresolved. */
  lemma ItemHasSection(plan: Plan, i: nat)
    requires plan.Listed? && i < |plan.items|
    ensures var at := |MetadataSections(plan)| + i;
            && at < |Sections(plan)| && Sections(plan)[at].content == plan.items[i].text
            && (Sections(plan)[at].critical <==> Unresolved(plan.items[i].shape))
  {
    var items := seq(|plan.items|, i requires 0 <= i < |plan.items| => ItemSection(plan.items[i], i));
    assert (MetadataSections(plan) + items)[|MetadataSections(plan)| + i] == items[i];
  }

  lemma TitlesAreShort(plan: Plan, i: nat)
    requires i < |Sections(plan)|
    ensures |Sections(plan)[i].title| <= MAX_TITLE
  {
  }

  function Header(title: Text, k: nat, n: nat): Text {
    title + Literal(" (" + Decimal(k + 1) + "/" + Decimal(n) + "):\n")
  }

  function ChunkId(prefix: string, k: nat): string { prefix + "-" + Decimal(k + 1) }

  function PlanFragment(s: Section, k: nat, n: nat, chunk: Text): Fragment {
    Fragment(ChunkId(s.prefix, k), SystemMessage(Header(s.title, k, n) + chunk), s.critical)
  }

  ghost predicate CarriedAs(s: Section, g: seq<Fragment>, chunks: seq<Text>) {
    && Flatten(chunks) == s.content && |g| == |chunks| && Fitting(Utf8Bytes, TASK_PLAN_CHUNK_BYTES, chunks)
    && forall k :: 0 <= k < |g| ==> g[k] == PlanFragment(s, k, |g|, chunks[k])
  }

  /** The section is within the limit on a whole request, so that its chunks can be counted in eight digits. */
  predicate Requestable(s: Section) { |s.title| <= MAX_TITLE && Size(s.content) <= MAX_CONTEXT_INPUT_BYTES }

  /** The fragments spell the section in chunks, and none is refused for its size, whatever its text escapes to. */
  ghost predicate Carries(s: Section, g: seq<Fragment>) {
    && (exists chunks :: CarriedAs(s, g, chunks))
    && (Requestable(s) ==> forall k :: 0 <= k < |g| ==> !Oversized(g[k].message))
  }

  lemma {:induction false} PiecesAreFew(pieces: seq<Text>)
    requires forall i :: 0 <= i < |pieces| ==> pieces[i] != []
    ensures |pieces| <= |Flatten(pieces)|
  {
    if pieces != [] { PiecesAreFew(pieces[1..]); }
  }

  lemma HeaderIsShort(title: Text, k: nat, n: nat)
    requires |title| <= MAX_TITLE && k < n <= MAX_CONTEXT_INPUT_BYTES
    ensures |Header(title, k, n)| <= MAX_TITLE + 22
  {
    assert Pow10(4) == 10_000 && Pow10(8) == 10_000 * Pow10(4);
    DecimalLength(k + 1, 8);
    DecimalLength(n, 8);
  }

  lemma ChunkFragmentFits(s: Section, k: nat, n: nat, chunk: Text)
    requires |s.title| <= MAX_TITLE && k < n <= MAX_CONTEXT_INPUT_BYTES && Size(chunk) <= TASK_PLAN_CHUNK_BYTES
    ensures !Oversized(PlanFragment(s, k, n, chunk).message)
  {
    HeaderIsShort(s.title, k, n);
    var header := Header(s.title, k, n);
    WeightConcat(JsonBytes, header, chunk);
    WeightBounds(JsonBytes, header);
    WeightBounds(JsonBytes, chunk);
    WeightBounds(Utf8Bytes, chunk);
  }

  lemma ChunksFit(s: Section, g: seq<Fragment>, chunks: seq<Text>)
    requires CarriedAs(s, g, chunks) && Requestable(s)
    requires if s.content == [] then |chunks| == 1 else forall i :: 0 <= i < |chunks| ==> chunks[i] != []
    ensures forall k :: 0 <= k < |g| ==> !Oversized(g[k].message)
  {
    WeightBounds(Utf8Bytes, s.content);
    if s.content != [] { PiecesAreFew(chunks); }
    forall k | 0 <= k < |g| ensures !Oversized(g[k].message) {
      assert chunks[k] in chunks;
      ChunkFragmentFits(s, k, |g|, chunks[k]);
    }
  }

  method ChunkedFragments(s: Section) returns (g: seq<Fragment>)
    ensures Carries(s, g)
  {
    var ok, chunks := Chunks(s.content, TASK_PLAN_CHUNK_BYTES);
    assert ok;
    g := seq(|chunks|, k requires 0 <= k < |chunks| => PlanFragment(s, k, |chunks|, chunks[k]));
    assert CarriedAs(s, g, chunks);
    if Requestable(s) { ChunksFit(s, g, chunks); }
  }

  // ---------- Identifiers ----------

  predicate Dashless(s: string) { forall i :: 0 <= i < |s| ==> s[i] != '-' }

  /** What has no dash ends where the first one is. */
  lemma NotShorter(a: string, b: string, x: string, y: string)
    requires a + ['-'] + x == b + ['-'] + y && Dashless(b)
    ensures |b| <= |a|
  {
    var whole := b + ['-'] + y;
    assert forall i :: 0 <= i < |b| ==> whole[i] == b[i];
    assert (a + ['-'] + x)[|a|] == '-';
  }

  lemma SameNumeral(a: nat, b: nat, x: string, y: string)
    requires Decimal(a) + ['-'] + x == Decimal(b) + ['-'] + y
    ensures a == b
  {
    var s, t := Decimal(a), Decimal(b);
    forall i | 0 <= i < |s| ensures s[i] != '-' { assert s[i] in s; }
    forall i | 0 <= i < |t| ensures t[i] != '-' { assert t[i] in t; }
    NotShorter(s, t, x, y);
    NotShorter(t, s, y, x);
    assert (s + ['-'] + x)[..|s|] == s && (t + ['-'] + y)[..|t|] == t;
    DecimalIsInjective(a, b);
  }

  lemma SameTail(prefix: string, x: string, y: string)
    requires prefix + x == prefix + y
    ensures x == y
  {
    assert (prefix + x)[|prefix|..] == x && (prefix + y)[|prefix|..] == y;
  }

  lemma ChunkIdIsInjective(prefix: string, k: nat, l: nat)
    requires ChunkId(prefix, k) == ChunkId(prefix, l)
    ensures k == l
  {
    SameTail(prefix + "-", Decimal(k + 1), Decimal(l + 1));
    DecimalIsInjective(k + 1, l + 1);
  }

  lemma NumberedIdsDiffer(prefix: string, i: nat, j: nat, k: nat, l: nat)
    requires ChunkId(prefix + Decimal(i + 1), k) == ChunkId(prefix + Decimal(j + 1), l)
    ensures i == j
  {
    var x, y := Decimal(k + 1), Decimal(l + 1);
    assert ChunkId(prefix + Decimal(i + 1), k) == prefix + (Decimal(i + 1) + ['-'] + x);
    assert ChunkId(prefix + Decimal(j + 1), l) == prefix + (Decimal(j + 1) + ['-'] + y);
    SameTail(prefix, Decimal(i + 1) + ['-'] + x, Decimal(j + 1) + ['-'] + y);
    SameNumeral(i + 1, j + 1, x, y);
  }

  /** No two sections of a plan share an identifier. */
  lemma SectionIdsDiffer(plan: Plan, a: nat, b: nat, k: nat, l: nat)
    requires a < b < |Sections(plan)|
    ensures ChunkId(Sections(plan)[a].prefix, k) != ChunkId(Sections(plan)[b].prefix, l)
  {
    var sections, m := Sections(plan), |MetadataSections(plan)|;
    var items := seq(|plan.items|, i requires 0 <= i < |plan.items| => ItemSection(plan.items[i], i));
    assert sections == MetadataSections(plan) + items;
    assert sections[b] == items[b - m];
    if a < m {
      assert ChunkId(sections[a].prefix, k)[10] == 'm' && ChunkId(sections[b].prefix, l)[10] == 'i';
    } else {
      assert sections[a] == items[a - m];
      if ChunkId(sections[a].prefix, k) == ChunkId(sections[b].prefix, l) {
        NumberedIdsDiffer("task-plan-item-", a - m, b - m, k, l);
      }
    }
  }

  lemma CarriedId(s: Section, g: seq<Fragment>, k: nat)
    requires Carries(s, g) && k < |g|
    ensures g[k].id == ChunkId(s.prefix, k)
  {
  }

  ghost predicate Apart(parts: seq<seq<Fragment>>) {
    && (forall i :: 0 <= i < |parts| ==> Distinct(Ids(parts[i])))
    && forall i, j, k, l :: 0 <= i < j < |parts| && 0 <= k < |parts[i]| && 0 <= l < |parts[j]| ==>
         parts[i][k].id != parts[j][l].id
  }

  lemma {:induction false} FoundIn(parts: seq<seq<Fragment>>, at: nat) returns (i: nat, k: nat)
    requires at < |Concat(parts)|
    ensures i < |parts| && k < |parts[i]| && parts[i][k] == Concat(parts)[at]
  {
    var last := |parts| - 1;
    var front := Concat(parts[..last]);
    if at < |front| { i, k := FoundIn(parts[..last], at); } else { i, k := last, at - |front|; }
  }

  lemma {:induction false} ApartIsDistinct(parts: seq<seq<Fragment>>)
    requires Apart(parts)
    ensures Distinct(Ids(Concat(parts)))
  {
    if parts != [] {
      var last := |parts| - 1;
      ApartIsDistinct(parts[..last]);
      var front, g, all := Concat(parts[..last]), parts[last], Concat(parts);
      forall x, y | 0 <= x < y < |all| ensures all[x].id != all[y].id {
        if y < |front| {
          assert Ids(front)[x] != Ids(front)[y];
        } else if x < |front| {
          var i, k := FoundIn(parts[..last], x);
          assert parts[i][k].id != parts[last][y - |front|].id;
        } else {
          assert Ids(g)[x - |front|] != Ids(g)[y - |front|];
        }
      }
    }
  }

  ghost predicate Spells(plan: Plan, groups: seq<seq<Fragment>>) {
    && |groups| == |Sections(plan)|
    && forall i :: 0 <= i < |groups| ==> Carries(Sections(plan)[i], groups[i])
  }

  lemma GroupsApart(plan: Plan, groups: seq<seq<Fragment>>)
    requires Spells(plan, groups)
    ensures Apart(groups)
  {
    var sections := Sections(plan);
    forall i | 0 <= i < |groups| ensures Distinct(Ids(groups[i])) {
      forall k, l | 0 <= k < l < |groups[i]| ensures Ids(groups[i])[k] != Ids(groups[i])[l] {
        CarriedId(sections[i], groups[i], k);
        CarriedId(sections[i], groups[i], l);
        if groups[i][k].id == groups[i][l].id { ChunkIdIsInjective(sections[i].prefix, k, l); }
      }
    }
    forall i, j, k, l | 0 <= i < j < |groups| && 0 <= k < |groups[i]| && 0 <= l < |groups[j]|
      ensures groups[i][k].id != groups[j][l].id
    {
      CarriedId(sections[i], groups[i], k);
      CarriedId(sections[j], groups[j], l);
      SectionIdsDiffer(plan, i, j, k, l);
    }
  }

  lemma NoneOversized(plan: Plan, groups: seq<seq<Fragment>>)
    requires Spells(plan, groups)
    ensures forall i, k :: 0 <= i < |groups| && 0 <= k < |groups[i]| ==>
      Size(Sections(plan)[i].content) <= MAX_CONTEXT_INPUT_BYTES ==> !Oversized(groups[i][k].message)
  {
    forall i | 0 <= i < |groups| ensures |Sections(plan)[i].title| <= MAX_TITLE { TitlesAreShort(plan, i); }
  }

  /** One run of fragments per section, in plan order. No two of them share an identifier, and none is too large. */
  method TaskPlanFragments(plan: Plan) returns (groups: seq<seq<Fragment>>)
    ensures Spells(plan, groups) && Distinct(Ids(Concat(groups)))
    ensures forall i, k :: 0 <= i < |groups| && 0 <= k < |groups[i]| ==>
      Size(Sections(plan)[i].content) <= MAX_CONTEXT_INPUT_BYTES ==> !Oversized(groups[i][k].message)
  {
    groups := [];
    var sections := Sections(plan);
    for i := 0 to |sections|
      invariant |groups| == i && forall j :: 0 <= j < i ==> Carries(sections[j], groups[j])
    {
      var g := ChunkedFragments(sections[i]);
      groups := groups + [g];
    }
    NoneOversized(plan, groups);
    GroupsApart(plan, groups);
    ApartIsDistinct(groups);
  }

  // ---------- Recovering the text ----------

  /** The content filed under an identifier, if any. */
  function Filed(f: seq<Fragment>, id: string): Text {
    if f == [] then [] else if f[0].id == id then f[0].message.content else Filed(f[1..], id)
  }

  function Dropped(t: Text, n: nat): Text { if n <= |t| then t[n..] else [] }

  /** Read the chunks numbered from `k` to `n` back and strip their headers. */
  function Reassembled(f: seq<Fragment>, prefix: string, title: Text, n: nat, k: nat): Text
    requires k <= n
    decreases n - k
  {
    if k == n then []
    else Dropped(Filed(f, ChunkId(prefix, k)), |Header(title, k, n)|) + Reassembled(f, prefix, title, n, k + 1)
  }

  lemma {:induction false} FiledIsFound(f: seq<Fragment>, all: seq<Fragment>, x: Fragment)
    requires x in f && Distinct(Ids(all)) && x in all && forall y :: y in f ==> y in all
    ensures Filed(f, x.id) == x.message.content
  {
    assert f[0] in f;
    if f[0].id == x.id {
      SameFragment(all, f[0], x);
    } else {
      FiledIsFound(f[1..], all, x);
    }
  }

  lemma CriticalFiled(all: seq<Fragment>, x: Fragment)
    requires Distinct(Ids(all)) && x in all && x.critical
    ensures Filed(Critical(all, true), x.id) == x.message.content
  {
    CriticalMember(all, x);
    forall y | y in Critical(all, true) ensures y in all { CriticalMember(all, y); }
    FiledIsFound(Critical(all, true), all, x);
  }

  lemma {:induction false} ChunksRead(all: seq<Fragment>, s: Section, g: seq<Fragment>, chunks: seq<Text>, k: nat)
    requires Distinct(Ids(all)) && s.critical && CarriedAs(s, g, chunks) && k <= |g|
    requires forall x :: x in g ==> x in all
    ensures Reassembled(Critical(all, true), s.prefix, s.title, |g|, k) == Flatten(chunks[k..])
    decreases |g| - k
  {
    if k < |g| {
      ChunksRead(all, s, g, chunks, k + 1);
      CriticalFiled(all, g[k]);
      var header := Header(s.title, k, |g|);
      assert (header + chunks[k])[|header|..] == chunks[k];
      assert chunks[k..][1..] == chunks[k + 1..];
    }
  }

  lemma {:induction false} ConcatMember(parts: seq<seq<Fragment>>, i: nat, x: Fragment)
    requires i < |parts| && x in parts[i]
    ensures x in Concat(parts)
  {
    var last := |parts| - 1;
    if i < last { ConcatMember(parts[..last], i, x); }
  }

  /** Whatever else contributes to the context, the whole canonical text of an unresolved plan item is spelled by the
      critical fragments alone. */
  lemma UnresolvedItemIsRecoverable(contributions: seq<seq<Fragment>>, previous: Text, c: nat, plan: Plan,
                                    groups: seq<seq<Fragment>>, i: nat)
    requires c < |contributions| && contributions[c] == Concat(groups) && |groups| == |Sections(plan)| && i < |groups|
    requires Carries(Sections(plan)[i], groups[i]) && Sections(plan)[i].critical
    requires Distinct(Ids(AllFragments(Concat(contributions), previous)))
    ensures var s, all := Sections(plan)[i], AllFragments(Concat(contributions), previous);
            Reassembled(Critical(all, true), s.prefix, s.title, |groups[i]|, 0) == s.content
  {
    var s, all := Sections(plan)[i], AllFragments(Concat(contributions), previous);
    forall x | x in groups[i] ensures x in all {
      ConcatMember(groups, i, x);
      ConcatMember(contributions, c, x);
    }
    var chunks :| CarriedAs(s, groups[i], chunks);
    ChunksRead(all, s, groups[i], chunks, 0);
    assert chunks[0..] == chunks;
  }
}
