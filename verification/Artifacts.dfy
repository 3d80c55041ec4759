/** Snapshot references as URIs, and the keys under which objects are stored. */
module Artifacts {
  import opened Wrappers
  import opened Numerals

  const MAX_KEY := 1024
  const MAX_SNAPSHOT_BYTES := 256 * 1024 * 1024

  // ---------- Splitting strings ----------

  /** What comes before the first `c`: all of it when there is none. */
  function Before(s: string, c: char): (r: string)
    ensures c !in r && |r| <= |s|
    ensures c in s ==> |r| < |s|
  {
    if s == [] || s[0] == c then [] else [s[0]] + Before(s[1..], c)
  }

  /** What comes after the first `c`: nothing when there is none. */
  function After(s: string, c: char): (r: string)
    ensures c in s ==> |r| < |s|
  {
    if s == [] then [] else if s[0] == c then s[1..] else After(s[1..], c)
  }

  lemma {:induction false} CutAt(a: string, c: char, b: string)
    requires c !in a
    ensures Before(a + [c] + b, c) == a && After(a + [c] + b, c) == b
  {
    var s := a + [c] + b;
    if a == [] {
      assert s[0] == c && s[1..] == b;
    } else {
      CutAt(a[1..], c, b);
      assert s[1..] == a[1..] + [c] + b && s[0] == a[0];
    }
  }

  lemma {:induction false} CutNowhere(s: string, c: char)
    requires c !in s
    ensures Before(s, c) == s && After(s, c) == []
  {
    if s != [] { CutNowhere(s[1..], c); }
  }

  function Split(s: string, c: char): (parts: seq<string>)
    ensures parts != [] && forall p :: p in parts ==> c !in p
    decreases |s|
  {
    if c !in s then [s] else [Before(s, c)] + Split(After(s, c), c)
  }

  function Join(parts: seq<string>, c: char): string
    requires parts != []
  {
    if |parts| == 1 then parts[0] else parts[0] + [c] + Join(parts[1..], c)
  }

  /** Splitting undoes joining. */
  lemma {:induction false} SplitJoin(parts: seq<string>, c: char)
    requires parts != [] && forall p :: p in parts ==> c !in p
    ensures Split(Join(parts, c), c) == parts
  {
    assert parts[0] in parts;
    if |parts| > 1 {
      SplitJoin(parts[1..], c);
      CutAt(parts[0], c, Join(parts[1..], c));
      assert c in Join(parts, c) by { assert Join(parts, c)[|parts[0]|] == c; }
      assert parts == [parts[0]] + parts[1..];
    }
  }

  // ---------- Object keys ----------

  predicate KeyChar(c: char) { 'a' <= c <= 'z' || IsDigit(c) || c == '.' || c == '_' || c == '/' || c == '-' }

  predicate Component(s: string) { s != "" && s != "." && s != ".." }

  predicate ValidKey(key: string) {
    && 0 < |key| <= MAX_KEY && (forall c :: c in key ==> KeyChar(c)) && ('a' <= key[0] <= 'z' || IsDigit(key[0]))
    && forall p :: p in Split(key, '/') ==> Component(p)
  }

  predicate HexChar(c: char) { IsDigit(c) || 'a' <= c <= 'f' }

  predicate Hex(s: string, n: nat) { |s| == n && forall c :: c in s ==> HexChar(c) }

  type Uuid = s: string | Hex(s, 32) witness seq(32, i => '0')

  /** What the platform stores: source uploads, pre-tool checkpoints and the final patch of each execution epoch. */
  datatype ObjectName =
    | Source(tenant: Uuid, workspace: Uuid, snapshot: Uuid)
    | Checkpoint(tenant: Uuid, workspace: Uuid, run: Uuid, checkpoint: Uuid)
    | Patch(tenant: Uuid, workspace: Uuid, run: Uuid, epoch: int)

  function Owner(n: ObjectName): seq<string> { ["tenants", n.tenant, "workspaces", n.workspace] }

  function Place(n: ObjectName): seq<string>
    requires n.Patch? ==> n.epoch >= 1
  {
    match n
    case Source(_, _, snapshot) => ["snapshots", snapshot, "source.tar.gz"]
    case Checkpoint(_, _, run, checkpoint) => ["runs", run, "checkpoints", checkpoint, "workspace.tar.gz"]
    case Patch(_, _, run, epoch) =>
      if epoch == 1 then ["runs", run, "artifacts", "final.patch"]
      else ["runs", run, "branches", Decimal(epoch), "artifacts", "final.patch"]
  }

  /** The three object-key functions. Only a patch of an epoch that is not positive has no key. */
  function Key(n: ObjectName): Option<string> {
    if n.Patch? && n.epoch < 1 then None else Some(Join(Owner(n) + Place(n), '/'))
  }

  /** A path component that can stand in a key. */
  predicate Plain(p: string) { Component(p) && forall c :: c in p ==> KeyChar(c) && c != '/' }

  ghost predicate AllPlain(parts: seq<string>) { forall i :: 0 <= i < |parts| ==> Plain(parts[i]) }

  lemma HexIsPlain(s: Uuid)
    ensures Plain(s)
  {
    assert s[0] in s;
  }

  lemma OwnerIsPlain(n: ObjectName)
    ensures AllPlain(Owner(n))
  {
    HexIsPlain(n.tenant);
    HexIsPlain(n.workspace);
    assert Plain("tenants") && Plain("workspaces");
  }

  lemma PatchIsPlain(n: ObjectName)
    requires n.Patch? && n.epoch >= 1
    ensures AllPlain(Place(n))
  {
    HexIsPlain(n.run);
    assert Plain("runs");
    assert Decimal(n.epoch)[0] in Decimal(n.epoch);
    assert Plain("branches");
    assert Plain("artifacts");
    assert Plain("final.patch");
  }

  lemma CheckpointIsPlain(n: ObjectName)
    requires n.Checkpoint?
    ensures AllPlain(Place(n))
  {
    HexIsPlain(n.run);
    HexIsPlain(n.checkpoint);
    assert Plain("runs");
    assert Plain("checkpoints");
    assert Plain("workspace.tar.gz");
  }

  lemma SourceIsPlain(n: ObjectName)
    requires n.Source?
    ensures AllPlain(Place(n))
  {
    HexIsPlain(n.snapshot);
    assert Plain("snapshots");
    assert Plain("source.tar.gz");
  }

  lemma PartsArePlain(n: ObjectName)
    requires n.Patch? ==> n.epoch >= 1
    ensures AllPlain(Owner(n) + Place(n))
    ensures forall p :: p in Owner(n) + Place(n) ==> '/' !in p
  {
    OwnerIsPlain(n);
    match n {
      case Source(_, _, _) => SourceIsPlain(n);
      case Checkpoint(_, _, _, _) => CheckpointIsPlain(n);
      case Patch(_, _, _, _) => PatchIsPlain(n);
    }
    PlainHasNoSlash(Owner(n) + Place(n));
  }

  lemma PlainHasNoSlash(parts: seq<string>)
    requires AllPlain(parts)
    ensures forall p :: p in parts ==> '/' !in p && Component(p)
  {
    forall p | p in parts ensures '/' !in p && Component(p) { var i :| 0 <= i < |parts| && parts[i] == p; }
  }

  /** Distinct objects have distinct keys: the key functions are injective, with disjoint ranges, across epochs. */
  lemma KeyIsInjective(a: ObjectName, b: ObjectName)
    requires Key(a).Some? && Key(a) == Key(b)
    ensures a == b
  {
    var left, right := Owner(a) + Place(a), Owner(b) + Place(b);
    PartsArePlain(a);
    PartsArePlain(b);
    SplitJoin(left, '/');
    SplitJoin(right, '/');
    assert left == right;
    assert left[..4] == Owner(a) && right[..4] == Owner(b);
    assert left[4..] == Place(a) && right[4..] == Place(b);
    assert Owner(a)[1] == Owner(b)[1] && Owner(a)[3] == Owner(b)[3];
    SamePlace(a, b);
  }

  lemma SamePlace(a: ObjectName, b: ObjectName)
    requires Key(a).Some? && Key(b).Some? && Place(a) == Place(b)
    requires a.tenant == b.tenant && a.workspace == b.workspace
    ensures a == b
  {
    var p, q := Place(a), Place(b);
    assert |p| == |q| && p[0] == q[0] && p[1] == q[1] && p[2] == q[2];
    if |p| >= 5 { assert p[3] == q[3]; }
    assert |"checkpoints"| == 11 && |"branches"| == 8 && |"artifacts"| == 9;
    if |p| == 6 { DecimalIsInjective(a.epoch, b.epoch); }
  }

  lemma {:induction false} JoinOfPlain(parts: seq<string>)
    requires parts != [] && AllPlain(parts)
    ensures forall c :: c in Join(parts, '/') ==> KeyChar(c)
    ensures Join(parts, '/') != [] && parts[0] != [] && Join(parts, '/')[0] == parts[0][0]
  {
    if |parts| > 1 { JoinOfPlain(parts[1..]); }
  }

  ghost predicate AllShort(parts: seq<string>) { forall i :: 0 <= i < |parts| ==> |parts[i]| <= 100 }

  lemma {:induction false} JoinLength(parts: seq<string>)
    requires parts != [] && AllShort(parts)
    ensures |Join(parts, '/')| <= 101 * |parts|
  {
    if |parts| > 1 { JoinLength(parts[1..]); }
  }

  lemma PlainKeyIsValid(parts: seq<string>)
    requires parts != [] && AllPlain(parts) && 'a' <= parts[0][0] <= 'z'
    ensures ValidKey(Join(parts, '/')) <==> |Join(parts, '/')| <= MAX_KEY
  {
    PlainHasNoSlash(parts);
    SplitJoin(parts, '/');
    JoinOfPlain(parts);
  }

  lemma PartsAreShort(n: ObjectName)
    requires Key(n).Some? && (n.Patch? ==> |Decimal(n.epoch)| <= 100)
    ensures AllShort(Owner(n) + Place(n))
  {
    assert AllShort(Owner(n));
    assert AllShort(Place(n));
  }

  /** A key is a valid object key exactly when it is not too long, and only an epoch of more than a hundred digits can
      make it too long. */
  lemma KeyIsValid(n: ObjectName)
    requires Key(n).Some?
    ensures ValidKey(Key(n).value) <==> |Key(n).value| <= MAX_KEY
    ensures !n.Patch? || |Decimal(n.epoch)| <= 100 ==> ValidKey(Key(n).value)
  {
    PartsArePlain(n);
    PlainKeyIsValid(Owner(n) + Place(n));
    if !n.Patch? || |Decimal(n.epoch)| <= 100 {
      PartsAreShort(n);
      JoinLength(Owner(n) + Place(n));
    }
  }

  // ---------- Snapshot references ----------

  datatype Reference = Reference(key: string, sha256: string, size: nat)

  predicate ValidReference(r: Reference) {
    ValidKey(r.key) && Hex(r.sha256, 64) && 1 <= r.size <= MAX_SNAPSHOT_BYTES
  }

  /** Percent-encoding: any pair of functions that leave unreserved characters and slashes alone (section 2.3 of
      RFC 3986). `form` also turns a plus sign into a space, as query values do. */
  datatype Escaping = Escaping(quote: string -> string, unquote: string -> string, form: string -> string)

  predicate Unreserved(c: char) {
    'a' <= c <= 'z' || 'A' <= c <= 'Z' || IsDigit(c) || c == '-' || c == '.' || c == '_' || c == '~'
  }

  ghost predicate Conforms(e: Escaping) {
    forall s: string :: (forall c :: c in s ==> Unreserved(c) || c == '/') ==>
      e.quote(s) == s && e.unquote(s) == s && e.form(s) == s
  }

  function Query(r: Reference): string {
    ("sha256" + ['='] + r.sha256) + ['&'] + ("size_bytes" + ['='] + Decimal(r.size))
  }

  function ToUri(r: Reference, e: Escaping): string {
    "artifact" + [':'] + ("//" + ("/" + e.quote(r.key) + ['?'] + Query(r)))
  }

  function LowerChar(c: char): char { if 'A' <= c <= 'Z' then (c as int + 32) as char else c }

  function Lower(s: string): string { seq(|s|, i requires 0 <= i < |s| => LowerChar(s[i])) }

  /** How many characters come before the authority ends. */
  function Authority(s: string): (n: nat)
    ensures n <= |s|
  {
    if s == [] || s[0] == '/' || s[0] == '?' || s[0] == '#' then 0 else 1 + Authority(s[1..])
  }

  datatype Url = Url(scheme: string, netloc: string, path: string, query: string, fragment: string)

  /** The five parts of a URL. Without a colon there is no scheme. */
  function SplitUrl(u: string): Url {
    var scheme, rest := if ':' in u then Lower(Before(u, ':')) else "", if ':' in u then After(u, ':') else u;
    var slashed := |rest| >= 2 && rest[..2] == "//";
    var n := if slashed then Authority(rest[2..]) else 0;
    var netloc, tail := if slashed then rest[2..][..n] else "", if slashed then rest[2..][n..] else rest;
    var body := Before(tail, '#');
    Url(scheme, netloc, Before(body, '?'), After(body, '?'), After(tail, '#'))
  }

  /** A query's fields in order: every piece needs an equals sign, and blank values are dropped. */
  function Fields(pieces: seq<string>, e: Escaping): Option<seq<(string, string)>> {
    if pieces == [] then Some([])
    else if '=' !in pieces[0] then None
    else
      var rest := Fields(pieces[1..], e);
      var name, value := Before(pieces[0], '='), After(pieces[0], '=');
      if rest.None? then None
      else if value == "" then rest else Some([(e.form(name), e.form(value))] + rest.value)
  }

  /** The hash and the size among exactly two fields, in either order. */
  function HashAndSize(fields: seq<(string, string)>): Option<(string, string)> {
    if |fields| != 2 then None
    else if fields[0].0 == "sha256" && fields[1].0 == "size_bytes" then Some((fields[0].1, fields[1].1))
    else if fields[0].0 == "size_bytes" && fields[1].0 == "sha256" then Some((fields[1].1, fields[0].1))
    else None
  }

  /** The reference a path, a hash and a size stand for, if they are canonical and valid. */
  function Assemble(path: string, sha256: string, size: string, e: Escaping): (r: Option<Reference>)
    ensures r.Some? ==> ValidReference(r.value)
  {
    var key, number := e.unquote(path), Value(size);
    if e.quote(key) != path || number.NotANumber? then None
    else
      var r := Reference(key, sha256, number.value);
      if ValidReference(r) then Some(r) else None
  }

  /** Parse a reference, refusing anything that is not exactly one key, one hash and one size. */
  function FromUri(u: string, e: Escaping): (r: Option<Reference>)
    ensures r.Some? ==> ValidReference(r.value)
  {
    var url := SplitUrl(u);
    var fields := Fields(Split(url.query, '&'), e);
    if fields.None? || url.scheme != "artifact" || url.netloc != "" || url.path == "" || url.path[0] != '/'
       || url.fragment != "" then None
    else
      var found := HashAndSize(fields.value);
      if found.None? then None else Assemble(url.path[1..], found.value.0, found.value.1, e)
  }

  // ---------- The round trip ----------

  lemma SplitPrinted(scheme: string, path: string, query: string)
    requires ':' !in scheme && Lower(scheme) == scheme
    requires path != [] && path[0] == '/' && '?' !in path && '#' !in path && '#' !in query
    ensures SplitUrl(scheme + [':'] + ("//" + (path + ['?'] + query))) == Url(scheme, "", path, query, "")
  {
    var tail := path + ['?'] + query;
    var rest := "//" + tail;
    CutAt(scheme, ':', rest);
    assert (scheme + [':'] + rest)[|scheme|] == ':';
    assert rest[..2] == "//" && rest[2..] == tail;
    assert tail[0] == '/' && tail[..0] == [] && tail[0..] == tail;
    CutNowhere(tail, '#');
    CutAt(path, '?', query);
  }

  lemma OneField(a: string, x: string, rest: seq<string>, e: Escaping)
    requires '=' !in a && x != [] && e.form(a) == a && e.form(x) == x && Fields(rest, e).Some?
    ensures Fields([a + ['='] + x] + rest, e) == Some([(a, x)] + Fields(rest, e).value)
  {
    var piece, pieces := a + ['='] + x, [a + ['='] + x] + rest;
    CutAt(a, '=', x);
    assert piece[|a|] == '=';
    assert pieces[0] == piece && pieces[1..] == rest;
  }

  lemma SplitPair(first: string, second: string, c: char)
    requires c !in first && c !in second
    ensures Split(first + [c] + second, c) == [first] + [second]
  {
    CutAt(first, c, second);
    assert (first + [c] + second)[|first|] == c;
  }

  lemma TwoFields(a: string, x: string, b: string, y: string, e: Escaping)
    requires '=' !in a && '=' !in b && x != [] && y != []
    requires '&' !in a && '&' !in x && '&' !in b && '&' !in y
    requires e.form(a) == a && e.form(x) == x && e.form(b) == b && e.form(y) == y
    ensures Fields(Split((a + ['='] + x) + ['&'] + (b + ['='] + y), '&'), e) == Some([(a, x)] + [(b, y)])
  {
    var first, second := a + ['='] + x, b + ['='] + y;
    SplitPair(first, second, '&');
    OneField(b, y, [], e);
    assert [second] + [] == [second] && [(b, y)] + [] == [(b, y)];
    OneField(a, x, [second], e);
  }

  lemma HexSurvives(s: string, e: Escaping)
    requires Conforms(e) && forall c :: c in s ==> HexChar(c) || Unreserved(c)
    ensures e.form(s) == s && e.quote(s) == s && e.unquote(s) == s
  {
  }

  lemma QueryFields(r: Reference, e: Escaping)
    requires ValidReference(r) && Conforms(e)
    ensures Fields(Split(Query(r), '&'), e) == Some([("sha256", r.sha256)] + [("size_bytes", Decimal(r.size))])
  {
    HexSurvives(r.sha256, e);
    HexSurvives(Decimal(r.size), e);
    HexSurvives("sha256", e);
    HexSurvives("size_bytes", e);
    TwoFields("sha256", r.sha256, "size_bytes", Decimal(r.size), e);
  }

  lemma QueryHasNoHash(r: Reference)
    requires Hex(r.sha256, 64)
    ensures '#' !in Query(r)
  {
    assert '#' !in "sha256" && '#' !in "size_bytes" && '#' !in r.sha256 && '#' !in Decimal(r.size);
  }

  lemma PrintedParts(r: Reference, e: Escaping)
    requires ValidReference(r) && Conforms(e)
    ensures SplitUrl(ToUri(r, e)) == Url("artifact", "", "/" + r.key, Query(r), "")
  {
    assert e.quote(r.key) == r.key;
    QueryHasNoHash(r);
    assert Lower("artifact") == "artifact";
    SplitPrinted("artifact", "/" + r.key, Query(r));
  }

  lemma AssembleParts(r: Reference, e: Escaping)
    requires ValidReference(r) && Conforms(e)
    ensures Assemble(r.key, r.sha256, Decimal(r.size), e) == Some(r)
  {
    ValueOfDecimal(r.size);
    assert e.unquote(r.key) == r.key && e.quote(r.key) == r.key;
  }

  lemma FoundFields(x: string, y: string)
    ensures HashAndSize([("sha256", x)] + [("size_bytes", y)]) == Some((x, y))
  {
  }

  /** Parsing the printed form of a valid reference gives the reference back. */
  lemma FromUriToUri(r: Reference, e: Escaping)
    requires ValidReference(r) && Conforms(e)
    ensures FromUri(ToUri(r, e), e) == Some(r)
  {
    PrintedParts(r, e);
    QueryFields(r, e);
    FoundFields(r.sha256, Decimal(r.size));
    AssembleParts(r, e);
    assert ("/" + r.key)[1..] == r.key;
  }
}
