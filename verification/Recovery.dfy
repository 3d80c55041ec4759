/** Restore evidence: the aggregate check that stands in for scanning every event log, and the gathering of object
    references from several tables. */
module Recovery {
  import opened Wrappers

  // ---------- Event sequences ----------

  datatype Event = Event(sequence: int, epoch: int)

  /** A restored run: its execution epoch, the sequence number its next event would get, and its event rows. */
  datatype Run = Run(epoch: nat, next: int, events: seq<Event>)

  /** What the aggregate query returns for a run; an empty group counts as zeros. */
  datatype Aggregate = Aggregate(count: nat, minimum: int, maximum: int, maximumEpoch: int)

  function Least(events: seq<Event>): int
    requires events != []
  {
    if |events| == 1 then events[0].sequence
    else
      var rest := Least(events[1..]);
      if events[0].sequence < rest then events[0].sequence else rest
  }

  function Greatest(events: seq<Event>, of: Event -> int): int
    requires events != []
  {
    if |events| == 1 then of(events[0])
    else
      var rest := Greatest(events[1..], of);
      if of(events[0]) > rest then of(events[0]) else rest
  }

  function Aggregated(run: Run): Aggregate {
    if run.events == [] then Aggregate(0, 0, 0, 0)
    else Aggregate(|run.events|, Least(run.events), Greatest(run.events, (e: Event) => e.sequence),
                   Greatest(run.events, (e: Event) => e.epoch))
  }

  /** The check made on the aggregates alone. */
  predicate Passes(run: Run) {
    var a := Aggregated(run);
    && (if a.count == 0 then run.next == 1 && a.minimum == 0 && a.maximum == 0
        else a.minimum == 1 && a.maximum == a.count && run.next == a.count + 1)
    && a.maximumEpoch <= run.epoch
  }

  /** The store keeps sequence numbers unique within a run. */
  predicate Unique(events: seq<Event>) {
    forall i, j :: 0 <= i < j < |events| ==> events[i].sequence != events[j].sequence
  }

  ghost function Numbers(events: seq<Event>): set<int> { set i | 0 <= i < |events| :: events[i].sequence }

  /** The numbers 1 to n. */
  ghost function UpTo(n: nat): (s: set<int>)
    ensures forall k :: k in s <==> 1 <= k <= n
  {
    if n == 0 then {} else UpTo(n - 1) + {n}
  }

  /** What a full scan would establish: the log is exactly 1 to n, the next number is n + 1, and no event belongs to a
      later epoch. */
  ghost predicate Contiguous(run: Run) {
    && Numbers(run.events) == UpTo(|run.events|) && run.next == |run.events| + 1
    && forall i :: 0 <= i < |run.events| ==> run.events[i].epoch <= run.epoch
  }

  lemma {:induction false} LeastBounds(events: seq<Event>) returns (at: nat)
    requires events != []
    ensures forall i :: 0 <= i < |events| ==> Least(events) <= events[i].sequence
    ensures at < |events| && Least(events) == events[at].sequence
  {
    if |events| == 1 { return 0; }
    var j := LeastBounds(events[1..]);
    at := if events[0].sequence < Least(events[1..]) then 0 else j + 1;
    forall i | 0 <= i < |events| ensures Least(events) <= events[i].sequence {
      if i > 0 { assert events[i] == events[1..][i - 1]; }
    }
  }

  lemma {:induction false} GreatestBounds(events: seq<Event>, of: Event -> int) returns (at: nat)
    requires events != []
    ensures forall i :: 0 <= i < |events| ==> of(events[i]) <= Greatest(events, of)
    ensures at < |events| && Greatest(events, of) == of(events[at])
  {
    if |events| == 1 { return 0; }
    var j := GreatestBounds(events[1..], of);
    at := if of(events[0]) > Greatest(events[1..], of) then 0 else j + 1;
    forall i | 0 <= i < |events| ensures of(events[i]) <= Greatest(events, of) {
      if i > 0 { assert events[i] == events[1..][i - 1]; }
    }
  }

  lemma {:induction false} UpToSize(n: nat)
    ensures |UpTo(n)| == n
  {
    if n > 0 {
      UpToSize(n - 1);
    }
  }

  lemma NumbersNext(events: seq<Event>)
    requires events != []
    ensures var last := |events| - 1; Numbers(events) == Numbers(events[..last]) + {events[last].sequence}
  {
    var last := |events| - 1;
    var rest := events[..last];
    forall x ensures x in Numbers(events) <==> x in Numbers(rest) || x == events[last].sequence {
      if x in Numbers(rest) {
        var i :| 0 <= i < last && rest[i].sequence == x;
        assert events[i].sequence == x;
      }
      if x in Numbers(events) && x != events[last].sequence {
        var i :| 0 <= i < |events| && events[i].sequence == x;
        assert rest[i].sequence == x;
      }
    }
  }

  lemma {:induction false} NumbersSize(events: seq<Event>)
    requires Unique(events)
    ensures |Numbers(events)| == |events|
  {
    if events != [] {
      var last := |events| - 1;
      NumbersNext(events);
      NumbersSize(events[..last]);
      forall i | 0 <= i < last ensures events[..last][i].sequence != events[last].sequence {
        assert events[..last][i] == events[i];
      }
    }
  }

  lemma SubsetOfSameSize(a: set<int>, b: set<int>)
    requires a <= b && |a| == |b|
    ensures a == b
  {
    assert b == a + (b - a);
  }

  /** A full scan accepts exactly the unique logs whose aggregates pass: on unique sequence numbers the aggregates
      decide. */
  lemma AggregatesAgreeWithScan(run: Run)
    ensures Contiguous(run) <==> Passes(run) && Unique(run.events)
  {
    var events, n := run.events, |run.events|;
    if n > 0 {
      if Contiguous(run) {
        ContiguousPasses(run);
        UpToSize(n);
        AsManyNumbers(events);
      } else if Passes(run) && Unique(events) {
        PassingIsContiguous(run);
      }
    }
  }

  lemma PassingIsContiguous(run: Run)
    requires run.events != [] && Passes(run) && Unique(run.events)
    ensures Contiguous(run)
  {
    var events, n := run.events, |run.events|;
    var _ := LeastBounds(events);
    var _ := GreatestBounds(events, (e: Event) => e.sequence);
    var _ := GreatestBounds(events, (e: Event) => e.epoch);
    UpToSize(n);
    NumbersSize(events);
    assert Numbers(events) <= UpTo(n);
    SubsetOfSameSize(Numbers(events), UpTo(n));
  }

  /** As many different numbers as events leave no room for a repeat. */
  lemma {:induction false} AsManyNumbers(events: seq<Event>)
    requires |Numbers(events)| == |events|
    ensures Unique(events)
  {
    if events != [] {
      var last := |events| - 1;
      var rest := events[..last];
      NumbersNext(events);
      NumbersAtMost(rest);
      AsManyNumbers(rest);
      forall i, j | 0 <= i < j < |events| ensures events[i].sequence != events[j].sequence {
        if j < last { assert rest[i].sequence != rest[j].sequence; } else { assert rest[i].sequence in Numbers(rest); }
      }
    }
  }

  lemma {:induction false} NumbersAtMost(events: seq<Event>)
    ensures |Numbers(events)| <= |events|
  {
    if events != [] {
      NumbersNext(events);
      NumbersAtMost(events[..|events| - 1]);
    }
  }

  lemma ContiguousPasses(run: Run)
    requires run.events != [] && Contiguous(run)
    ensures Passes(run)
  {
    var events, n := run.events, |run.events|;
    var _ := LeastBounds(events);
    var _ := GreatestBounds(events, (e: Event) => e.sequence);
    var _ := GreatestBounds(events, (e: Event) => e.epoch);
    assert 1 in UpTo(n) && n in UpTo(n);
    forall i | 0 <= i < n ensures 1 <= events[i].sequence <= n { assert events[i].sequence in Numbers(events); }
    var first :| 0 <= first < n && events[first].sequence == 1;
    var last :| 0 <= last < n && events[last].sequence == n;
  }

  /** Uniqueness is needed: three events numbered 1, 1 and 3 pass with number 2 missing. */
  lemma DuplicatesFoolTheAggregates()
    ensures var run := Run(1, 4, [Event(1, 1), Event(1, 1), Event(3, 1)]); Passes(run) && !Contiguous(run)
  {
    var run := Run(1, 4, [Event(1, 1), Event(1, 1), Event(3, 1)]);
    assert run.events[1..] == [Event(1, 1), Event(3, 1)] && run.events[1..][1..] == [Event(3, 1)];
    assert 2 in UpTo(3) && 2 !in Numbers(run.events);
  }

  function EventTotal(runs: seq<Run>, n: nat): nat
    requires n <= |runs|
  {
    if n == 0 then 0 else EventTotal(runs, n - 1) + |runs[n - 1].events|
  }

  /** The verification loop: it accepts exactly the restores whose every log passes, which on unique sequence numbers
      are those whose every log is contiguous; and it counts all events. */
  method VerifyEventSequences(runs: seq<Run>) returns (ok: bool, runCount: nat, eventCount: nat)
    ensures ok <==> forall i :: 0 <= i < |runs| ==> Passes(runs[i])
    ensures (forall i :: 0 <= i < |runs| ==> Unique(runs[i].events)) ==>
      (ok <==> forall i :: 0 <= i < |runs| ==> Contiguous(runs[i]))
    ensures ok ==> runCount == |runs| && eventCount == EventTotal(runs, |runs|)
  {
    forall i | 0 <= i < |runs| ensures Contiguous(runs[i]) <==> Passes(runs[i]) && Unique(runs[i].events) {
      AggregatesAgreeWithScan(runs[i]);
    }
    eventCount := 0;
    for i := 0 to |runs|
      invariant eventCount == EventTotal(runs, i) && forall j :: 0 <= j < i ==> Passes(runs[j])
    {
      var a := Aggregated(runs[i]);
      eventCount := eventCount + a.count;
      if a.count == 0 {
        if runs[i].next != 1 || a.minimum != 0 || a.maximum != 0 { return false, 0, 0; }
      } else if a.minimum != 1 || a.maximum != a.count || runs[i].next != a.count + 1 {
        return false, 0, 0;
      }
      if a.maximumEpoch > runs[i].epoch { return false, 0, 0; }
    }
    return true, |runs|, eventCount;
  }

  // ---------- Object references ----------

  datatype Key = Key(name: string)

  /** Evidence that an object exists: its digest as a number, its size, and the audit record it came from, if any. */
  datatype Reference = Reference(key: Key, sha256: nat, size: int, audit: Option<nat>)

  datatype Limits = Limits(maxObjectBytes: nat, maxReferences: nat, maxTotalBytes: nat)

  predicate SameEvidence(a: Reference, b: Reference) { a.sha256 == b.sha256 && a.size == b.size }

  ghost function Keys(candidates: seq<Reference>, n: nat): set<Key>
    requires n <= |candidates|
  {
    if n == 0 then {} else Keys(candidates, n - 1) + {candidates[n - 1].key}
  }

  lemma {:induction false} KeysGrow(candidates: seq<Reference>, n: nat, m: nat)
    requires n <= m <= |candidates|
    ensures Keys(candidates, n) <= Keys(candidates, m) && |Keys(candidates, n)| <= |Keys(candidates, m)|
  {
    if n < m {
      KeysGrow(candidates, n, m - 1);
      var fewer, more := Keys(candidates, m - 1), Keys(candidates, m);
      assert more == fewer + (more - fewer);
    }
  }

  /** Candidate `i` is within the size limit and agrees with every earlier candidate for its key. */
  predicate AgreesAt(candidates: seq<Reference>, limits: Limits, i: nat)
    requires i < |candidates|
  {
    && 0 <= candidates[i].size <= limits.maxObjectBytes
    && forall j :: 0 <= j < i && candidates[j].key == candidates[i].key ==> SameEvidence(candidates[j], candidates[i])
  }

  ghost predicate AllAgree(candidates: seq<Reference>, limits: Limits, n: nat)
    requires n <= |candidates|
  {
    forall i :: 0 <= i < n ==> AgreesAt(candidates, limits, i)
  }

  lemma AgreeNext(candidates: seq<Reference>, limits: Limits, n: nat)
    requires n < |candidates| && AllAgree(candidates, limits, n) && AgreesAt(candidates, limits, n)
    ensures AllAgree(candidates, limits, n + 1)
  {
  }

  /** The evidence is in range, consistent, and about no more objects than allowed. */
  ghost predicate Admissible(candidates: seq<Reference>, limits: Limits) {
    && AllAgree(candidates, limits, |candidates|)
    && |Keys(candidates, |candidates|)| <= limits.maxReferences
  }

  /** The bytes of the objects the first `n` candidates are about, each object counted once. */
  function ObjectBytes(candidates: seq<Reference>, n: nat): int
    requires n <= |candidates|
  {
    if n == 0 then 0
    else ObjectBytes(candidates, n - 1) + if Seen(candidates, n - 1) then 0 else candidates[n - 1].size
  }

  predicate Seen(candidates: seq<Reference>, i: nat)
    requires i < |candidates|
  {
    exists j :: 0 <= j < i && candidates[j].key == candidates[i].key
  }

  /** The bytes filed under a set of keys. */
  ghost function FiledBytes(references: map<Key, Reference>, keys: set<Key>): int
    requires keys <= references.Keys
  {
    if keys == {} then 0
    else
      var k :| k in keys;
      references[k].size + FiledBytes(references, keys - {k})
  }

  lemma {:induction false} FiledBytesWithout(references: map<Key, Reference>, keys: set<Key>, x: Key)
    requires keys <= references.Keys && x in keys
    ensures FiledBytes(references, keys) == references[x].size + FiledBytes(references, keys - {x})
    decreases |keys|
  {
    var k :| k in keys && FiledBytes(references, keys) == references[k].size + FiledBytes(references, keys - {k});
    if k != x {
      FiledBytesWithout(references, keys - {k}, x);
      FiledBytesWithout(references, keys - {x}, k);
      assert keys - {k} - {x} == keys - {x} - {k};
    }
  }

  lemma {:induction false} SameSizes(a: map<Key, Reference>, b: map<Key, Reference>, keys: set<Key>)
    requires keys <= a.Keys && keys <= b.Keys && forall k :: k in keys ==> a[k].size == b[k].size
    ensures FiledBytes(a, keys) == FiledBytes(b, keys)
    decreases |keys|
  {
    if keys != {} {
      var k :| k in keys;
      FiledBytesWithout(a, keys, k);
      FiledBytesWithout(b, keys, k);
      SameSizes(a, b, keys - {k});
    }
  }

  /** Filing a candidate adds its size if its key is new, and changes no total if it is not. */
  lemma FiledBytesNext(references: map<Key, Reference>, c: Reference)
    requires c.key in references ==> references[c.key].size == c.size
    ensures FiledBytes(Filed(references, c), Filed(references, c).Keys)
         == FiledBytes(references, references.Keys) + if c.key in references then 0 else c.size
  {
    var filed := Filed(references, c);
    FiledSize(references, c);
    if c.key in references {
      assert filed.Keys == references.Keys;
      SameSizes(references, filed, references.Keys);
    } else {
      FiledBytesWithout(filed, filed.Keys, c.key);
      assert filed.Keys - {c.key} == references.Keys;
      SameSizes(references, filed, references.Keys);
    }
  }

  /** Each key is filed under one of its candidates, and under one with an audit record if any has one. */
  ghost predicate Files(references: map<Key, Reference>, candidates: seq<Reference>, n: nat)
    requires n <= |candidates|
  {
    && references.Keys == Keys(candidates, n)
    && (forall i :: 0 <= i < n ==> Covers(references, candidates[i]))
    && (forall k :: k in references ==> Candidate(references[k], k, candidates, n))
  }

  ghost predicate Covers(references: map<Key, Reference>, c: Reference) {
    c.key in references && SameEvidence(references[c.key], c) && (c.audit.Some? ==> references[c.key].audit.Some?)
  }

  ghost predicate Candidate(r: Reference, k: Key, candidates: seq<Reference>, n: nat)
    requires n <= |candidates|
  {
    r.key == k && exists i :: 0 <= i < n && candidates[i] == r
  }

  predicate Accepts(references: map<Key, Reference>, c: Reference, limits: Limits) {
    && 0 <= c.size <= limits.maxObjectBytes
    && (if c.key in references then SameEvidence(references[c.key], c) else |references| < limits.maxReferences)
  }

  /** The first candidate for a key is kept until one with an audit record replaces it. */
  function Filed(references: map<Key, Reference>, c: Reference): map<Key, Reference> {
    if c.key !in references || (references[c.key].audit.None? && c.audit.Some?) then references[c.key := c] else references
  }

  class ReferenceTable {
    var references: map<Key, Reference>

    constructor ()
      ensures references == map[]
    {
      references := map[];
    }

    /** File one candidate, or refuse it and change nothing. */
    method Add(candidate: Reference, limits: Limits) returns (ok: bool)
      modifies this
      ensures ok <==> Accepts(old(references), candidate, limits)
      ensures references == if ok then Filed(old(references), candidate) else old(references)
    {
      if candidate.size < 0 || candidate.size > limits.maxObjectBytes { return false; }
      if candidate.key in references {
        var current := references[candidate.key];
        if current.sha256 != candidate.sha256 || current.size != candidate.size { return false; }
        if current.audit.None? && candidate.audit.Some? { references := references[candidate.key := candidate]; }
        return true;
      }
      if |references| >= limits.maxReferences { return false; }
      references := references[candidate.key := candidate];
      return true;
    }

    /** Gather every candidate. It succeeds exactly on admissible evidence, and then files all of it. */
    method Gather(candidates: seq<Reference>, limits: Limits) returns (ok: bool)
      requires references == map[]
      modifies this
      ensures ok <==> Admissible(candidates, limits)
      ensures ok ==> Files(references, candidates, |candidates|)
      ensures ok ==> FiledBytes(references, references.Keys) == ObjectBytes(candidates, |candidates|)
    {
      for i := 0 to |candidates|
        invariant Gathered(references, candidates, limits, i)
      {
        GatherOne(references, candidates, limits, i);
        ok := Add(candidates[i], limits);
        if !ok { return; }
      }
      ok := true;
    }

    /** The bytes of everything filed. */
    method TotalBytes() returns (total: int)
      ensures total == FiledBytes(references, references.Keys)
    {
      total := 0;
      var left := references.Keys;
      while left != {}
        invariant left <= references.Keys
        invariant total + FiledBytes(references, left) == FiledBytes(references, references.Keys)
        decreases |left|
      {
        var k :| k in left;
        FiledBytesWithout(references, left, k);
        total, left := total + references[k].size, left - {k};
      }
    }

    /** Read all the evidence there is. It succeeds exactly when the evidence is admissible and its objects, each counted
        once however many tables mention it, are within the byte limit. */
    method ReadReferences(candidates: seq<Reference>, limits: Limits) returns (ok: bool)
      requires references == map[]
      modifies this
      ensures ok <==> Admissible(candidates, limits) && ObjectBytes(candidates, |candidates|) <= limits.maxTotalBytes
      ensures ok ==> Files(references, candidates, |candidates|)
    {
      ok := Gather(candidates, limits);
      if !ok { return; }
      var total := TotalBytes();
      ok := total <= limits.maxTotalBytes;
    }
  }

  /** Looking only at what is filed decides whether the next candidate agrees with all before it and has room. */
  lemma FileOne(references: map<Key, Reference>, candidates: seq<Reference>, limits: Limits, i: nat)
    requires i < |candidates| && Files(references, candidates, i) && |references| <= limits.maxReferences
    ensures Accepts(references, candidates[i], limits) ==>
      && AgreesAt(candidates, limits, i) && Files(Filed(references, candidates[i]), candidates, i + 1)
      && |Filed(references, candidates[i])| <= limits.maxReferences
    ensures !Accepts(references, candidates[i], limits) ==> !Admissible(candidates, limits)
  {
    var c := candidates[i];
    AgreesWithFiled(references, candidates, limits, i);
    KeysGrow(candidates, i + 1, |candidates|);
    FiledSize(references, c);
    assert |Keys(candidates, i + 1)| == |references.Keys + {c.key}|;
    if Accepts(references, c, limits) { FilesMore(references, candidates, i); }
  }

  ghost predicate Gathered(references: map<Key, Reference>, candidates: seq<Reference>, limits: Limits, n: nat)
    requires n <= |candidates|
  {
    && Files(references, candidates, n) && |references| <= limits.maxReferences && AllAgree(candidates, limits, n)
    && FiledBytes(references, references.Keys) == ObjectBytes(candidates, n)
  }

  lemma GatherOne(references: map<Key, Reference>, candidates: seq<Reference>, limits: Limits, i: nat)
    requires i < |candidates| && Gathered(references, candidates, limits, i)
    ensures if Accepts(references, candidates[i], limits) then
              Gathered(Filed(references, candidates[i]), candidates, limits, i + 1)
            else !Admissible(candidates, limits)
  {
    FileOne(references, candidates, limits, i);
    if Accepts(references, candidates[i], limits) {
      SeenIsFiled(references, candidates, i);
      FiledBytesNext(references, candidates[i]);
      AgreeNext(candidates, limits, i);
    }
  }

  lemma SeenIsFiled(references: map<Key, Reference>, candidates: seq<Reference>, i: nat)
    requires i < |candidates| && Files(references, candidates, i)
    ensures Seen(candidates, i) <==> candidates[i].key in references
  {
    if Seen(candidates, i) {
      var j :| 0 <= j < i && candidates[j].key == candidates[i].key;
      assert Covers(references, candidates[j]);
    }
    if candidates[i].key in references {
      assert Candidate(references[candidates[i].key], candidates[i].key, candidates, i);
    }
  }

  lemma FiledSize(references: map<Key, Reference>, c: Reference)
    ensures Filed(references, c).Keys == references.Keys + {c.key}
    ensures |Filed(references, c)| == |references.Keys + {c.key}| == |references| + if c.key in references then 0 else 1
  {
    assert |references| == |references.Keys|;
    assert |Filed(references, c)| == |Filed(references, c).Keys|;
    if c.key in references { assert references.Keys + {c.key} == references.Keys; }
  }

  lemma AgreesWithFiled(references: map<Key, Reference>, candidates: seq<Reference>, limits: Limits, i: nat)
    requires i < |candidates| && Files(references, candidates, i)
    ensures var c := candidates[i];
            AgreesAt(candidates, limits, i) <==>
              0 <= c.size <= limits.maxObjectBytes && (c.key in references ==> SameEvidence(references[c.key], c))
  {
    var c := candidates[i];
    if c.key in references {
      assert Candidate(references[c.key], c.key, candidates, i);
      var k :| 0 <= k < i && candidates[k] == references[c.key];
    }
    forall j | 0 <= j < i && candidates[j].key == c.key
      ensures c.key in references && SameEvidence(references[c.key], candidates[j])
    {
      assert Covers(references, candidates[j]);
    }
  }

  lemma FilesMore(references: map<Key, Reference>, candidates: seq<Reference>, i: nat)
    requires i < |candidates| && Files(references, candidates, i)
    requires candidates[i].key in references ==> SameEvidence(references[candidates[i].key], candidates[i])
    ensures Files(Filed(references, candidates[i]), candidates, i + 1)
  {
    var c := candidates[i];
    var filed := Filed(references, c);
    FiledSize(references, c);
    forall j | 0 <= j < i + 1 ensures Covers(filed, candidates[j]) {
      if j < i { assert Covers(references, candidates[j]); }
    }
    forall k | k in filed ensures Candidate(filed[k], k, candidates, i + 1) {
      if filed[k] != c {
        assert Candidate(references[k], k, candidates, i);
      } else {
        assert candidates[i] == c;
      }
    }
  }
}
