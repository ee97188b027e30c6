/** Strings in Python's order, and sorting by a string key. */
module TextOrder {

  predicate Below(a: string, b: string) {
    b != [] && (a == [] || a[0] < b[0] || (a[0] == b[0] && Below(a[1..], b[1..])))
  }

  lemma {:induction false} Irreflexive(a: string)
    ensures !Below(a, a)
  {
    if a != [] {
      Irreflexive(a[1..]);
    }
  }

  lemma {:induction false} Transitive(a: string, b: string, c: string)
    requires Below(a, b) && Below(b, c)
    ensures Below(a, c)
  {
    if a != [] && a[0] == b[0] && b[0] == c[0] {
      Transitive(a[1..], b[1..], c[1..]);
    }
  }

  lemma {:induction false} Trichotomy(a: string, b: string)
    ensures Below(a, b) || a == b || Below(b, a)
  {
    if a != [] && b != [] && a[0] == b[0] {
      Trichotomy(a[1..], b[1..]);
      assert a == [a[0]] + a[1..] && b == [b[0]] + b[1..];
    }
  }

  /** The key of a string that is sorted by itself. */
  function Id(s: string): string { s }

  ghost predicate Ascending<T>(s: seq<T>, key: T -> string) {
    forall i, j :: 0 <= i < j < |s| ==> Below(key(s[i]), key(s[j]))
  }

  /** No two positions share a key. */
  ghost predicate DistinctKeys<T>(s: seq<T>, key: T -> string) {
    forall i, j :: 0 <= i < j < |s| ==> key(s[i]) != key(s[j])
  }

  function Insert<T>(x: T, s: seq<T>, key: T -> string): seq<T> {
    if s == [] || !Below(key(s[0]), key(x)) then [x] + s else [s[0]] + Insert(x, s[1..], key)
  }

  /** `sorted`. */
  function Sort<T>(s: seq<T>, key: T -> string): seq<T> {
    if s == [] then [] else Insert(s[0], Sort(s[1..], key), key)
  }

  lemma {:induction false} InsertContents<T>(x: T, s: seq<T>, key: T -> string)
    ensures multiset(Insert(x, s, key)) == multiset(s) + multiset{x}
  {
    if s != [] && Below(key(s[0]), key(x)) {
      InsertContents(x, s[1..], key);
      assert s == [s[0]] + s[1..];
    }
  }

  lemma {:induction false} SortContents<T>(s: seq<T>, key: T -> string)
    ensures multiset(Sort(s, key)) == multiset(s)
  {
    if s != [] {
      SortContents(s[1..], key);
      InsertContents(s[0], Sort(s[1..], key), key);
      assert s == [s[0]] + s[1..];
    }
  }

  lemma SortMember<T>(s: seq<T>, key: T -> string, x: T)
    ensures x in Sort(s, key) <==> x in s
  {
    SortContents(s, key);
    assert x in Sort(s, key) <==> x in multiset(Sort(s, key));
    assert x in s <==> x in multiset(s);
  }

  lemma {:induction false} InsertAscends<T>(x: T, s: seq<T>, key: T -> string)
    requires Ascending(s, key) && forall y :: y in s ==> key(y) != key(x)
    ensures Ascending(Insert(x, s, key), key)
  {
    if s != [] {
      var head, tail := s[0], s[1..];
      if Below(key(head), key(x)) {
        InsertAscends(x, tail, key);
        var rest := Insert(x, tail, key);
        InsertContents(x, tail, key);
        forall i | 0 <= i < |rest| ensures Below(key(head), key(rest[i])) {
          assert rest[i] in multiset(rest);
          assert rest[i] == x || rest[i] in tail;
        }
      } else {
        Trichotomy(key(head), key(x));
        forall i | 0 <= i < |s| ensures Below(key(x), key(s[i])) {
          if i > 0 {
            Transitive(key(x), key(head), key(s[i]));
          }
        }
      }
    }
  }

  lemma {:induction false} SortAscends<T>(s: seq<T>, key: T -> string)
    requires DistinctKeys(s, key)
    ensures Ascending(Sort(s, key), key)
  {
    if s != [] {
      SortAscends(s[1..], key);
      SortContents(s[1..], key);
      var sorted := Sort(s[1..], key);
      forall y | y in sorted ensures key(y) != key(s[0]) {
        SortMember(s[1..], key, y);
        var i :| 0 <= i < |s[1..]| && s[1..][i] == y;
        assert s[i + 1] == y;
      }
      InsertAscends(s[0], sorted, key);
    }
  }

  /** There is only one ascending list of given members. */
  lemma {:induction false} AscendingUnique<T>(s: seq<T>, t: seq<T>, key: T -> string)
    requires Ascending(s, key) && Ascending(t, key) && forall x :: x in s <==> x in t
    ensures s == t
  {
    EmptyTogether(s, t);
    if s != [] {
      SameHead(s, t, key);
      TailMembers(s, t, key);
      AscendingUnique(s[1..], t[1..], key);
      assert s == [s[0]] + s[1..] && t == [t[0]] + t[1..];
    }
  }

  lemma EmptyTogether<T>(s: seq<T>, t: seq<T>)
    requires forall x :: x in s <==> x in t
    ensures s == [] <==> t == []
  {
    if s != [] {
      assert s[0] in t;
    }
    if t != [] {
      assert t[0] in s;
    }
  }

  lemma SameHead<T>(s: seq<T>, t: seq<T>, key: T -> string)
    requires s != [] && t != [] && Ascending(s, key) && Ascending(t, key) && forall x :: x in s <==> x in t
    ensures s[0] == t[0]
  {
    assert s[0] in t && t[0] in s;
    var i :| 0 <= i < |t| && t[i] == s[0];
    var j :| 0 <= j < |s| && s[j] == t[0];
    if i > 0 && j > 0 {
      Transitive(key(s[0]), key(t[0]), key(s[0]));
      Irreflexive(key(s[0]));
    }
  }

  lemma TailMembers<T>(s: seq<T>, t: seq<T>, key: T -> string)
    requires s != [] && t != [] && Ascending(s, key) && Ascending(t, key) && s[0] == t[0] && forall x :: x in s <==> x in t
    ensures forall x :: x in s[1..] <==> x in t[1..]
  {
    Irreflexive(key(s[0]));
    assert forall x :: x in s[1..] <==> x in s && x != s[0] by { HeadOnce(s, key); }
    assert forall x :: x in t[1..] <==> x in t && x != t[0] by { HeadOnce(t, key); }
  }

  lemma HeadOnce<T>(s: seq<T>, key: T -> string)
    requires s != [] && Ascending(s, key)
    ensures forall x :: x in s[1..] <==> x in s && x != s[0]
  {
    Irreflexive(key(s[0]));
    forall x ensures x in s[1..] <==> x in s && x != s[0] {
      if x in s && x != s[0] {
        var i :| 0 <= i < |s| && s[i] == x;
        assert s[1..][i - 1] == x;
      }
    }
  }
}

/**
 The approved cohort manifest of `deploy/oci/hydrate-vault-secrets.py`.  A loaded JSON document is a value:
 the fields the parser looks at, with anything else summed up as a wrong shape.
 */
module CohortManifest {
  import opened Common
  import opened TextOrder

  datatype Value = Text(s: string) | Integer(i: int) | Float(r: real) | Bool(b: bool) | List(items: seq<Entry>) | Other

  /** A list element: anything but an object with exactly the three fields is `Misshapen`. */
  datatype Entry = Misshapen | Record(name: Value, secretId: Value, version: Value)

  datatype Document =
    | NotObject
    | WrongFields
    | Document(schema: Value, releaseCohort: Value, mappingSha: Value, cohortSha: Value, artifacts: Value)

  datatype Artifact = Artifact(name: string, secretId: string, version: int)

  datatype Payload = Payload(releaseCohort: string, mappingSha: string, artifacts: seq<Artifact>)

  /** SHA-256 in hexadecimal, of the mapping file and of the canonical JSON of a payload. */
  datatype Digests = Digests(file: Bytes -> string, cohort: Payload -> string)

  const MAX_VERSION := 0x7FFF_FFFF_FFFF_FFFF

  const ARTIFACTS: set<string> :=
    {"api_env", "postgres_env", "redis_env", "nats_env", "grafana_env", "apns_production_p8", "cloudflare_token", "apns_sandbox_p8"}

  ghost predicate Hexadecimal(d: Digests) {
    (forall b :: Sha(d.file(b))) && forall p :: Sha(d.cohort(p))
  }

  predicate CohortByte(c: char) { 'A' <= c <= 'Z' || 'a' <= c <= 'z' || '0' <= c <= '9' || c in {'.', '_', '-'} }

  /** `oci-[a-f0-9]{12}-[A-Za-z0-9._-]{1,160}`. */
  predicate CohortName(s: string) {
    && 18 <= |s| <= 177 && s[..4] == "oci-" && s[16] == '-'
    && (forall i :: 4 <= i < 16 ==> LowerHex(s[i])) && (forall i :: 17 <= i < |s| ==> CohortByte(s[i]))
  }

  predicate VersionOk(v: int) { 1 <= v <= MAX_VERSION }

  function NameOf(a: Artifact): string { a.name }

  // ---------------------------------------------------------------- building

  function Artifacts(names: seq<string>, mapping: map<string, string>, versions: map<string, int>): (r: seq<Artifact>)
    requires forall n :: n in names ==> n in mapping && n in versions
    ensures |r| == |names| && forall i :: 0 <= i < |names| ==> r[i] == Artifact(names[i], mapping[names[i]], versions[names[i]])
  {
    if names == [] then []
    else
      var n := names[|names| - 1];
      Artifacts(names[..|names| - 1], mapping, versions) + [Artifact(n, mapping[n], versions[n])]
  }

  function Records(artifacts: seq<Artifact>): (r: seq<Entry>)
    ensures |r| == |artifacts|
    ensures forall i :: 0 <= i < |r| ==> r[i] == Record(Text(artifacts[i].name), Text(artifacts[i].secretId), Integer(artifacts[i].version))
  {
    if artifacts == [] then []
    else
      var a := artifacts[|artifacts| - 1];
      Records(artifacts[..|artifacts| - 1]) + [Record(Text(a.name), Text(a.secretId), Integer(a.version))]
  }

  function Manifest(d: Digests, cohort: string, mappingContent: Bytes, artifacts: seq<Artifact>): Document {
    Document(Integer(1), Text(cohort), Text(d.file(mappingContent)),
             Text(d.cohort(Payload(cohort, d.file(mappingContent), artifacts))), List(Records(artifacts)))
  }

  /** The order in which iteration gives a dictionary's keys. */
  ghost predicate Enumerates(keys: seq<string>, mapping: map<string, string>) {
    DistinctKeys(keys, Id) && forall n :: n in keys <==> n in mapping
  }

  ghost predicate Lists(names: seq<string>, mapping: map<string, string>) {
    forall n :: n in names <==> n in mapping
  }

  lemma SortedKeys(keys: seq<string>, mapping: map<string, string>)
    requires Enumerates(keys, mapping)
    ensures Lists(Sort(keys, Id), mapping) && Ascending(Sort(keys, Id), Id)
  {
    SortAscends(keys, Id);
    forall n ensures n in Sort(keys, Id) <==> n in mapping {
      SortMember(keys, Id, n);
    }
  }

  ghost function Built(d: Digests, cohort: string, mappingContent: Bytes, mapping: map<string, string>, names: seq<string>,
                       versions: map<string, int>): Result<Document>
    requires Lists(names, mapping)
  {
    if !CohortName(cohort) || versions.Keys != mapping.Keys || (exists n :: n in versions && !VersionOk(versions[n])) then Err
    else Ok(Manifest(d, cohort, mappingContent, Artifacts(names, mapping, versions)))
  }

  /** The loop of `_build_manifest` over the sorted names. */
  method BuildArtifacts(mapping: map<string, string>, names: seq<string>, versions: map<string, int>) returns (r: Result<seq<Artifact>>)
    requires Lists(names, mapping) && versions.Keys == mapping.Keys
    ensures r.Err? <==> exists n :: n in versions && !VersionOk(versions[n])
    ensures r.Ok? ==> r.value == Artifacts(names, mapping, versions)
  {
    var artifacts: seq<Artifact> := [];
    for i := 0 to |names|
      invariant artifacts == Artifacts(names[..i], mapping, versions)
      invariant forall k :: 0 <= k < i ==> VersionOk(versions[names[k]])
    {
      var name := names[i];
      assert name in mapping && name in versions;
      if !VersionOk(versions[name]) {
        return Err;
      }
      assert names[..i + 1][..i] == names[..i];
      artifacts := artifacts + [Artifact(name, mapping[name], versions[name])];
    }
    assert names[..|names|] == names;
    assert forall n :: n in versions ==> n in names;
    return Ok(artifacts);
  }

  /** `_build_manifest`; `keys` is the order in which the mapping gives its names. */
  method BuildManifest(d: Digests, cohort: string, mappingContent: Bytes, mapping: map<string, string>, keys: seq<string>,
                       versions: map<string, int>) returns (r: Result<Document>)
    requires Enumerates(keys, mapping)
    ensures Lists(Sort(keys, Id), mapping) && r == Built(d, cohort, mappingContent, mapping, Sort(keys, Id), versions)
  {
    SortedKeys(keys, mapping);
    if !CohortName(cohort) || versions.Keys != mapping.Keys {
      return Err;
    }
    var artifacts := BuildArtifacts(mapping, Sort(keys, Id), versions);
    return if artifacts.Err? then Err else Ok(Manifest(d, cohort, mappingContent, artifacts.value));
  }

  // ---------------------------------------------------------------- parsing

  function Last(done: seq<Artifact>): string { if done == [] then "" else done[|done| - 1].name }

  /** May `a` follow the artifacts already read? */
  predicate Follows(done: seq<Artifact>, a: Artifact, mapping: map<string, string>) {
    && a.name in ARTIFACTS && (forall i :: 0 <= i < |done| ==> done[i].name != a.name) && Below(Last(done), a.name)
    && a.name in mapping && a.secretId == mapping[a.name] && (forall i :: 0 <= i < |done| ==> done[i].secretId != a.secretId)
    && VersionOk(a.version)
  }

  function Take(done: seq<Artifact>, e: Entry, mapping: map<string, string>): Result<seq<Artifact>> {
    if e.Record? && e.name.Text? && e.secretId.Text? && e.version.Integer?
       && Follows(done, Artifact(e.name.s, e.secretId.s, e.version.i), mapping)
    then Ok(done + [Artifact(e.name.s, e.secretId.s, e.version.i)]) else Err
  }

  function ParseEntries(entries: seq<Entry>, mapping: map<string, string>): Result<seq<Artifact>> {
    if entries == [] then Ok([])
    else
      var before := ParseEntries(entries[..|entries| - 1], mapping);
      if before.Err? then Err else Take(before.value, entries[|entries| - 1], mapping)
  }

  lemma {:induction false} EntryErrorsStay(entries: seq<Entry>, mapping: map<string, string>, k: nat)
    requires k <= |entries| && ParseEntries(entries[..k], mapping).Err?
    ensures ParseEntries(entries, mapping).Err?
  {
    if k < |entries| {
      assert entries[..|entries| - 1][..k] == entries[..k];
      EntryErrorsStay(entries[..|entries| - 1], mapping, k);
    } else {
      assert entries[..k] == entries;
    }
  }

  function VersionsOf(artifacts: seq<Artifact>): map<string, int> {
    if artifacts == [] then map[]
    else VersionsOf(artifacts[..|artifacts| - 1])[artifacts[|artifacts| - 1].name := artifacts[|artifacts| - 1].version]
  }

  lemma {:induction false} VersionKeys(artifacts: seq<Artifact>, name: string)
    ensures name in VersionsOf(artifacts) <==> exists i :: 0 <= i < |artifacts| && artifacts[i].name == name
  {
    if artifacts != [] {
      VersionKeys(artifacts[..|artifacts| - 1], name);
    }
  }

  function IdsOf(artifacts: seq<Artifact>): set<string> { set a | a in artifacts :: a.secretId }

  /** The loop's variables decide whether the next artifact may follow. */
  lemma FollowsByTables(done: seq<Artifact>, a: Artifact, mapping: map<string, string>)
    ensures Follows(done, a, mapping) <==>
      && a.name in ARTIFACTS && a.name !in VersionsOf(done) && Below(Last(done), a.name)
      && a.name in mapping && a.secretId == mapping[a.name] && a.secretId !in IdsOf(done) && VersionOk(a.version)
  {
    VersionKeys(done, a.name);
    assert a.secretId in IdsOf(done) <==> exists i :: 0 <= i < |done| && done[i].secretId == a.secretId;
  }

  lemma TablesSnoc(done: seq<Artifact>, a: Artifact)
    ensures VersionsOf(done + [a]) == VersionsOf(done)[a.name := a.version]
    ensures IdsOf(done + [a]) == IdsOf(done) + {a.secretId}
    ensures Last(done + [a]) == a.name
  {
    assert (done + [a])[..|done|] == done;
  }

  /** The loop of `_parse_manifest`. */
  method ReadArtifacts(entries: seq<Entry>, mapping: map<string, string>) returns (r: Result<seq<Artifact>>, versions: map<string, int>)
    ensures r == ParseEntries(entries, mapping)
    ensures r.Ok? ==> versions == VersionsOf(r.value)
  {
    versions := map[];
    var seen: set<string> := {};
    var previous := "";
    var normalized: seq<Artifact> := [];
    for i := 0 to |entries|
      invariant ParseEntries(entries[..i], mapping) == Ok(normalized)
      invariant versions == VersionsOf(normalized)
      invariant previous == Last(normalized)
      invariant seen == IdsOf(normalized)
    {
      var e := entries[i];
      assert entries[..i + 1][..i] == entries[..i];
      if e.Misshapen? || !e.name.Text? || !e.secretId.Text? || !e.version.Integer? {
        EntryErrorsStay(entries, mapping, i + 1);
        return Err, versions;
      }
      var a := Artifact(e.name.s, e.secretId.s, e.version.i);
      FollowsByTables(normalized, a, mapping);
      var fits := && a.name in ARTIFACTS && a.name !in versions && Below(previous, a.name)
                  && a.name in mapping && a.secretId == mapping[a.name] && a.secretId !in seen && VersionOk(a.version);
      if !fits {
        EntryErrorsStay(entries, mapping, i + 1);
        return Err, versions;
      }
      TablesSnoc(normalized, a);
      versions, seen, previous, normalized := versions[a.name := a.version], seen + {a.secretId}, a.name, normalized + [a];
    }
    assert entries[..|entries|] == entries;
    return Ok(normalized), versions;
  }

  /** Schema 1; a float compares equal, a boolean is refused. */
  predicate SchemaOk(v: Value) { v == Integer(1) || v == Float(1.0) }

  predicate HeaderOk(doc: Document, d: Digests, mappingContent: Bytes, cohort: string) {
    && doc.Document? && SchemaOk(doc.schema)
    && CohortName(cohort) && doc.releaseCohort == Text(cohort)
    && doc.mappingSha == Text(d.file(mappingContent)) && Sha(d.file(mappingContent))
    && doc.cohortSha.Text? && Sha(doc.cohortSha.s) && doc.artifacts.List?
  }

  function Parsed(doc: Document, d: Digests, mappingContent: Bytes, mapping: map<string, string>, cohort: string): Result<(map<string, int>, string)> {
    if !HeaderOk(doc, d, mappingContent, cohort) then Err
    else
      var r := ParseEntries(doc.artifacts.items, mapping);
      if r.Err? || VersionsOf(r.value).Keys != mapping.Keys
         || doc.cohortSha.s != d.cohort(Payload(cohort, d.file(mappingContent), r.value))
      then Err else Ok((VersionsOf(r.value), doc.cohortSha.s))
  }

  /** `_parse_manifest`. */
  method ParseManifest(doc: Document, d: Digests, mappingContent: Bytes, mapping: map<string, string>, cohort: string)
    returns (r: Result<(map<string, int>, string)>)
    ensures r == Parsed(doc, d, mappingContent, mapping, cohort)
  {
    if !doc.Document? || !SchemaOk(doc.schema) {
      return Err;
    }
    if !doc.releaseCohort.Text? || !CohortName(doc.releaseCohort.s) || doc.releaseCohort.s != cohort {
      return Err;
    }
    if !doc.mappingSha.Text? || !Sha(doc.mappingSha.s) || doc.mappingSha.s != d.file(mappingContent) {
      return Err;
    }
    if !doc.cohortSha.Text? || !Sha(doc.cohortSha.s) || !doc.artifacts.List? {
      return Err;
    }
    var artifacts, versions := ReadArtifacts(doc.artifacts.items, mapping);
    if artifacts.Err? || versions.Keys != mapping.Keys
      || doc.cohortSha.s != d.cohort(Payload(cohort, doc.mappingSha.s, artifacts.value))
    {
      return Err;
    }
    return Ok((versions, doc.cohortSha.s));
  }

  // ---------------------------------------------------------------- the two are inverse

  /** What `_parse_mapping` guarantees of a mapping. */
  ghost predicate ValidMapping(mapping: map<string, string>) {
    && mapping.Keys <= ARTIFACTS
    && forall a, b :: a in mapping && b in mapping && mapping[a] == mapping[b] ==> a == b
  }

  /** The artifacts a mapping and its versions stand for, in order. */
  ghost predicate Faithful(artifacts: seq<Artifact>, mapping: map<string, string>, versions: map<string, int>) {
    && Ascending(artifacts, NameOf)
    && forall i :: 0 <= i < |artifacts| ==>
         && artifacts[i].name in mapping && artifacts[i].secretId == mapping[artifacts[i].name]
         && artifacts[i].name in versions && artifacts[i].version == versions[artifacts[i].name] && VersionOk(artifacts[i].version)
  }

  lemma NamesNonempty(name: string)
    requires name in ARTIFACTS
    ensures Below("", name)
  {
  }

  /** Reading back faithful records of a valid mapping. */
  lemma {:induction false} EntriesOfRecords(artifacts: seq<Artifact>, mapping: map<string, string>, versions: map<string, int>)
    requires ValidMapping(mapping) && Faithful(artifacts, mapping, versions)
    ensures ParseEntries(Records(artifacts), mapping) == Ok(artifacts)
  {
    if artifacts != [] {
      var before, a := artifacts[..|artifacts| - 1], artifacts[|artifacts| - 1];
      EntriesOfRecords(before, mapping, versions);
      FaithfulFollows(artifacts, mapping, versions);
      assert Records(artifacts)[..|before|] == Records(before);
      assert artifacts == before + [a];
    }
  }

  lemma {:induction false} FaithfulFollows(artifacts: seq<Artifact>, mapping: map<string, string>, versions: map<string, int>)
    requires artifacts != [] && ValidMapping(mapping) && Faithful(artifacts, mapping, versions)
    ensures Follows(artifacts[..|artifacts| - 1], artifacts[|artifacts| - 1], mapping)
  {
    var n := |artifacts| - 1;
    var a := artifacts[n];
    NamesNonempty(a.name);
    forall i | 0 <= i < n ensures artifacts[i].name != a.name && artifacts[i].secretId != a.secretId {
      Irreflexive(a.name);
      assert Below(NameOf(artifacts[i]), NameOf(a));
    }
    if n > 0 {
      assert Below(NameOf(artifacts[n - 1]), NameOf(a));
    }
  }

  lemma {:induction false} TakeRecords(before: seq<Artifact>, e: Entry, mapping: map<string, string>, entries: seq<Entry>)
    requires Take(before, e, mapping).Ok? && Records(before) == entries
    ensures Records(Take(before, e, mapping).value) == entries + [e]
  {
    assert Take(before, e, mapping).value[..|before|] == before;
  }

  /** What was read is what the records say. */
  lemma {:induction false} RecordsOfEntries(entries: seq<Entry>, mapping: map<string, string>)
    requires ParseEntries(entries, mapping).Ok?
    ensures Records(ParseEntries(entries, mapping).value) == entries
  {
    if entries != [] {
      var before, last := entries[..|entries| - 1], entries[|entries| - 1];
      assert entries == before + [last];
      RecordsOfEntries(before, mapping);
      TakeRecords(ParseEntries(before, mapping).value, last, mapping, before);
    }
  }

  /** It is ascending and faithful to the mapping. */
  lemma {:induction false} EntriesFaithful(entries: seq<Entry>, mapping: map<string, string>)
    requires ParseEntries(entries, mapping).Ok?
    ensures var all := ParseEntries(entries, mapping).value; Faithful(all, mapping, VersionsOf(all))
  {
    if entries != [] {
      var before := ParseEntries(entries[..|entries| - 1], mapping).value;
      EntriesFaithful(entries[..|entries| - 1], mapping);
      TakeFaithful(before, entries[|entries| - 1], mapping);
    }
  }

  lemma {:induction false} TakeFaithful(before: seq<Artifact>, e: Entry, mapping: map<string, string>)
    requires Faithful(before, mapping, VersionsOf(before)) && Take(before, e, mapping).Ok?
    ensures var all := Take(before, e, mapping).value; Faithful(all, mapping, VersionsOf(all))
  {
    var a := Artifact(e.name.s, e.secretId.s, e.version.i);
    AscendingSnoc(before, a);
    FaithfulSnoc(before, a, mapping);
  }

  lemma {:induction false} AscendingSnoc(before: seq<Artifact>, a: Artifact)
    requires Ascending(before, NameOf) && Below(Last(before), a.name)
    ensures Ascending(before + [a], NameOf)
  {
    forall i | 0 <= i < |before| ensures Below(NameOf(before[i]), NameOf(a)) {
      if i < |before| - 1 {
        Transitive(NameOf(before[i]), NameOf(before[|before| - 1]), a.name);
      }
    }
  }

  lemma {:induction false} FaithfulSnoc(before: seq<Artifact>, a: Artifact, mapping: map<string, string>)
    requires Faithful(before, mapping, VersionsOf(before)) && Follows(before, a, mapping) && Ascending(before + [a], NameOf)
    ensures Faithful(before + [a], mapping, VersionsOf(before + [a]))
  {
    assert (before + [a])[..|before|] == before;
  }

  /** A faithful list is the one that `Artifacts` builds from the ascending names. */
  lemma {:induction false} FaithfulIsBuilt(artifacts: seq<Artifact>, mapping: map<string, string>, versions: map<string, int>, names: seq<string>)
    requires Faithful(artifacts, mapping, versions) && Lists(names, mapping) && Ascending(names, Id)
    requires versions.Keys == mapping.Keys && forall n :: n in mapping ==> exists i :: 0 <= i < |artifacts| && artifacts[i].name == n
    ensures artifacts == Artifacts(names, mapping, versions)
  {
    var found := NamesOf(artifacts);
    assert forall i, j :: 0 <= i < j < |found| ==> Below(NameOf(artifacts[i]), NameOf(artifacts[j]));
    assert Ascending(found, Id);
    forall n ensures n in found <==> n in names {
      if n in found {
        var i :| 0 <= i < |found| && found[i] == n;
        assert artifacts[i].name in mapping;
      }
      if n in names {
        assert n in mapping;
        var i :| 0 <= i < |artifacts| && artifacts[i].name == n;
        assert found[i] == n;
      }
    }
    AscendingUnique(found, names, Id);
  }

  function NamesOf(artifacts: seq<Artifact>): (names: seq<string>)
    ensures |names| == |artifacts| && forall i :: 0 <= i < |names| ==> names[i] == artifacts[i].name
  {
    seq(|artifacts|, i requires 0 <= i < |artifacts| => artifacts[i].name)
  }

  lemma {:induction false} BuiltIsFaithful(mapping: map<string, string>, versions: map<string, int>, names: seq<string>)
    requires Lists(names, mapping) && Ascending(names, Id) && versions.Keys == mapping.Keys && forall n :: n in versions ==> VersionOk(versions[n])
    ensures Faithful(Artifacts(names, mapping, versions), mapping, versions)
  {
    var artifacts := Artifacts(names, mapping, versions);
    forall i | 0 <= i < |names| ensures names[i] in mapping && names[i] in versions { assert names[i] in names; }
    forall i, j | 0 <= i < j < |names| ensures Below(NameOf(artifacts[i]), NameOf(artifacts[j])) {
      assert Below(Id(names[i]), Id(names[j]));
    }
  }

  lemma {:induction false} BuiltKey(mapping: map<string, string>, versions: map<string, int>, names: seq<string>, n: string)
    requires n in names && forall m :: m in names ==> m in mapping && m in versions
    ensures n in VersionsOf(Artifacts(names, mapping, versions))
  {
    var artifacts := Artifacts(names, mapping, versions);
    var i :| 0 <= i < |names| && names[i] == n;
    assert artifacts[i].name == n;
    VersionKeys(artifacts, n);
  }

  lemma {:induction false} BuiltVersions(mapping: map<string, string>, versions: map<string, int>, names: seq<string>)
    requires Lists(names, mapping) && versions.Keys == mapping.Keys
    requires Faithful(Artifacts(names, mapping, versions), mapping, versions)
    ensures VersionsOf(Artifacts(names, mapping, versions)) == versions
  {
    var found := VersionsOf(Artifacts(names, mapping, versions));
    VersionsOfFaithful(Artifacts(names, mapping, versions), mapping, versions);
    forall n | n in versions ensures n in found {
      BuiltKey(mapping, versions, names, n);
    }
    assert found.Keys == versions.Keys;
  }

  lemma {:induction false} VersionsOfFaithful(artifacts: seq<Artifact>, mapping: map<string, string>, versions: map<string, int>)
    requires Faithful(artifacts, mapping, versions)
    ensures forall n :: n in VersionsOf(artifacts) ==> n in versions && VersionsOf(artifacts)[n] == versions[n]
  {
    if artifacts != [] {
      VersionsOfFaithful(artifacts[..|artifacts| - 1], mapping, versions);
    }
  }

  lemma {:induction false} BuildSucceeds(d: Digests, cohort: string, mappingContent: Bytes, mapping: map<string, string>, names: seq<string>, versions: map<string, int>)
    requires Lists(names, mapping) && CohortName(cohort) && versions.Keys == mapping.Keys && forall n :: n in versions ==> VersionOk(versions[n])
    ensures Built(d, cohort, mappingContent, mapping, names, versions) == Ok(Manifest(d, cohort, mappingContent, Artifacts(names, mapping, versions)))
  {
  }

  lemma {:induction false} ParseOfManifest(d: Digests, cohort: string, mappingContent: Bytes, mapping: map<string, string>, artifacts: seq<Artifact>)
    requires Hexadecimal(d) && CohortName(cohort)
    requires ParseEntries(Records(artifacts), mapping) == Ok(artifacts) && VersionsOf(artifacts).Keys == mapping.Keys
    ensures
      var doc := Manifest(d, cohort, mappingContent, artifacts);
      Parsed(doc, d, mappingContent, mapping, cohort) == Ok((VersionsOf(artifacts), doc.cohortSha.s))
  {
  }

  /** Parsing inverts building, for every valid mapping and version map. */
  lemma {:induction false} ParseOfBuild(d: Digests, cohort: string, mappingContent: Bytes, mapping: map<string, string>, names: seq<string>, versions: map<string, int>)
    requires Hexadecimal(d) && ValidMapping(mapping) && Lists(names, mapping) && Ascending(names, Id)
    requires CohortName(cohort) && versions.Keys == mapping.Keys && forall n :: n in versions ==> VersionOk(versions[n])
    ensures
      var built := Built(d, cohort, mappingContent, mapping, names, versions);
      built.Ok? && built.value.Document? && built.value.cohortSha.Text?
      && Parsed(built.value, d, mappingContent, mapping, cohort) == Ok((versions, built.value.cohortSha.s))
  {
    BuildSucceeds(d, cohort, mappingContent, mapping, names, versions);
    BuiltIsFaithful(mapping, versions, names);
    BuiltVersions(mapping, versions, names);
    EntriesOfRecords(Artifacts(names, mapping, versions), mapping, versions);
    ParseOfManifest(d, cohort, mappingContent, mapping, Artifacts(names, mapping, versions));
  }

  lemma {:induction false} FaithfulVersions(artifacts: seq<Artifact>, mapping: map<string, string>)
    requires Faithful(artifacts, mapping, VersionsOf(artifacts))
    ensures forall n :: n in VersionsOf(artifacts) ==> exists i :: 0 <= i < |artifacts| && artifacts[i].name == n
    ensures forall n :: n in VersionsOf(artifacts) ==> VersionOk(VersionsOf(artifacts)[n])
  {
    var versions := VersionsOf(artifacts);
    forall n | n in versions ensures VersionOk(versions[n]) && exists i :: 0 <= i < |artifacts| && artifacts[i].name == n {
      VersionKeys(artifacts, n);
    }
  }

  /** Building inverts parsing: an accepted manifest is, up to the spelling of its schema number, the very
      document that its versions build. */
  lemma {:induction false} BuildOfParse(doc: Document, d: Digests, mappingContent: Bytes, mapping: map<string, string>, names: seq<string>, cohort: string)
    requires Parsed(doc, d, mappingContent, mapping, cohort).Ok? && Lists(names, mapping) && Ascending(names, Id)
    ensures
      var versions := Parsed(doc, d, mappingContent, mapping, cohort).value.0;
      Built(d, cohort, mappingContent, mapping, names, versions) == Ok(doc.(schema := Integer(1)))
  {
    var items := doc.artifacts.items;
    RecordsOfEntries(items, mapping);
    EntriesFaithful(items, mapping);
    AcceptedIsBuilt(ParseEntries(items, mapping).value, mapping, names);
  }

  lemma {:induction false} AcceptedIsBuilt(artifacts: seq<Artifact>, mapping: map<string, string>, names: seq<string>)
    requires Faithful(artifacts, mapping, VersionsOf(artifacts)) && VersionsOf(artifacts).Keys == mapping.Keys
    requires Lists(names, mapping) && Ascending(names, Id)
    ensures artifacts == Artifacts(names, mapping, VersionsOf(artifacts))
    ensures forall n :: n in VersionsOf(artifacts) ==> VersionOk(VersionsOf(artifacts)[n])
  {
    FaithfulVersions(artifacts, mapping);
    FaithfulIsBuilt(artifacts, mapping, VersionsOf(artifacts), names);
  }
}

/** The file inventory of `deploy/oci/runtime_bundle.py`: written by `finalize_bundle`, checked by
    `validate_runtime_bundle`. */
module BundleInventory {
  import opened Common
  import opened TextOrder

  const MANIFEST := "manifest.json"
  const MAX_FILE_BYTES := 64 * 1024 * 1024

  datatype Summary = Summary(digest: string, size: int, mode: int)

  datatype File = File(regular: bool, summary: Summary)

  /** The files below the bundle directory, by relative path. */
  type Tree = map<string, File>

  datatype Record = Record(path: string, summary: Summary)

  function PathOf(r: Record): string { r.path }

  /** A walk visits every file once, in whatever order. */
  ghost predicate Walks(walk: seq<string>, tree: Tree) {
    DistinctKeys(walk, Id) && forall p :: p in walk <==> p in tree
  }

  /** What the bundle holds besides its manifest. */
  function Contents(tree: Tree): map<string, Summary> {
    map p | p in tree && p != MANIFEST :: tree[p].summary
  }

  predicate SizeOk(size: int) { 0 < size <= MAX_FILE_BYTES }

  predicate Storable(f: File) { f.regular && SizeOk(f.summary.size) }

  // ---------------------------------------------------------------- writing

  /** The records list exactly the contents, in ascending order. */
  ghost predicate Inventories(records: seq<Record>, tree: Tree) {
    && Ascending(records, PathOf)
    && forall r :: r in records <==> r.path in Contents(tree) && r.summary == Contents(tree)[r.path]
  }

  /** The order of the walk leaves no trace in the inventory. */
  lemma InventoryUnique(a: seq<Record>, b: seq<Record>, tree: Tree)
    requires Inventories(a, tree) && Inventories(b, tree)
    ensures a == b
  {
    AscendingUnique(a, b, PathOf);
  }

  /** `_inventory`. */
  method Inventory(tree: Tree, walk: seq<string>) returns (r: Result<seq<Record>>)
    requires Walks(walk, tree)
    ensures r.Ok? <==> forall p :: p in tree && p != MANIFEST ==> Storable(tree[p])
    ensures r.Ok? ==> Inventories(r.value, tree)
  {
    var records: seq<Record> := [];
    for i := 0 to |walk|
      invariant forall k :: 0 <= k < i && walk[k] != MANIFEST ==> Storable(tree[walk[k]])
      invariant Collected(records, tree, walk[..i])
    {
      assert walk[i] in walk;
      if walk[i] != MANIFEST {
        if !Storable(tree[walk[i]]) {
          return Err;
        }
        CollectOne(records, tree, walk, i);
        records := records + [Record(walk[i], tree[walk[i]].summary)];
      } else {
        SkipOne(records, tree, walk, i);
      }
    }
    assert walk[..|walk|] == walk;
    SortedInventory(records, tree, walk);
    return Ok(Sort(records, PathOf));
  }

  /** One record for each visited file. */
  ghost predicate Collected(records: seq<Record>, tree: Tree, visited: seq<string>) {
    && DistinctKeys(records, PathOf)
    && forall r :: r in records <==> r.path in visited && r.path in Contents(tree) && r.summary == Contents(tree)[r.path]
  }

  lemma CollectOne(records: seq<Record>, tree: Tree, walk: seq<string>, i: nat)
    requires i < |walk| && Walks(walk, tree) && Collected(records, tree, walk[..i]) && walk[i] in tree && walk[i] != MANIFEST
    ensures Collected(records + [Record(walk[i], tree[walk[i]].summary)], tree, walk[..i + 1])
  {
    var one := Record(walk[i], tree[walk[i]].summary);
    assert walk[..i + 1] == walk[..i] + [walk[i]];
    assert walk[i] !in walk[..i] by {
      forall k | 0 <= k < i ensures walk[k] != walk[i] { assert Id(walk[k]) != Id(walk[i]); }
    }
    forall k | 0 <= k < |records| ensures PathOf(records[k]) != PathOf(one) {
      assert records[k] in records;
    }
  }

  lemma SkipOne(records: seq<Record>, tree: Tree, walk: seq<string>, i: nat)
    requires i < |walk| && Collected(records, tree, walk[..i]) && walk[i] == MANIFEST
    ensures Collected(records, tree, walk[..i + 1])
  {
    assert walk[..i + 1] == walk[..i] + [walk[i]];
  }

  lemma SortedInventory(records: seq<Record>, tree: Tree, walk: seq<string>)
    requires Walks(walk, tree) && Collected(records, tree, walk)
    ensures Inventories(Sort(records, PathOf), tree)
  {
    SortAscends(records, PathOf);
    forall r: Record ensures r in Sort(records, PathOf) <==> r in records {
      SortMember(records, PathOf, r);
    }
  }

  // ---------------------------------------------------------------- checking

  function Split(p: string): seq<string> {
    if p == [] then [[]]
    else
      var rest := Split(p[1..]);
      if p[0] == '/' then [[]] + rest else if rest == [] then [[p[0]]] else [[p[0]] + rest[0]] + rest[1..]
  }

  predicate PlainPart(part: string) { part != "" && part != "." && part != ".." }

  /** Relative, without `..` and in pathlib's own spelling. */
  predicate PathOk(p: string) {
    p != "" && p[0] != '/' && (p == "." || forall k :: 0 <= k < |Split(p)| ==> PlainPart(Split(p)[k]))
  }

  /** At most 0o777 and writable by neither group nor others. */
  predicate ModeOk(mode: int) { 0 <= mode <= 511 && mode / 16 % 2 == 0 && mode / 2 % 2 == 0 }

  predicate SummaryOk(s: Summary) { Sha(s.digest) && SizeOk(s.size) && ModeOk(s.mode) }

  ghost predicate RecordsOk(records: seq<Record>) {
    && records != [] && Ascending(records, PathOf)
    && forall i :: 0 <= i < |records| ==> PathOk(records[i].path) && SummaryOk(records[i].summary)
  }

  function Recorded(records: seq<Record>): map<string, Summary> {
    if records == [] then map[]
    else Recorded(records[..|records| - 1])[records[|records| - 1].path := records[|records| - 1].summary]
  }

  /** The first loop: the recorded map, if the records are in order and each is valid. */
  method ReadRecords(records: seq<Record>) returns (r: Result<map<string, Summary>>)
    ensures r.Ok? <==> RecordsOk(records)
    ensures r.Ok? ==> r.value == Recorded(records)
  {
    if records == [] {
      return Err;
    }
    var expected: map<string, Summary> := map[];
    var previous := "";
    for i := 0 to |records|
      invariant expected == Recorded(records[..i])
      invariant previous == if i == 0 then "" else records[i - 1].path
      invariant Ascending(records[..i], PathOf)
      invariant forall k :: 0 <= k < i ==> PathOk(records[k].path) && SummaryOk(records[k].summary)
    {
      if records[i].path == "" || !Below(previous, records[i].path) || !PathOk(records[i].path) || !SummaryOk(records[i].summary) {
        BadRecord(records, i, previous);
        return Err;
      }
      AscendingMore(records, i, previous);
      assert records[..i + 1][..i] == records[..i];
      expected := expected[records[i].path := records[i].summary];
      previous := records[i].path;
    }
    assert records[..|records|] == records;
    return Ok(expected);
  }

  lemma BadRecord(records: seq<Record>, i: nat, previous: string)
    requires i < |records| && previous == if i == 0 then "" else records[i - 1].path
    requires records[i].path == "" || !Below(previous, records[i].path) || !PathOk(records[i].path) || !SummaryOk(records[i].summary)
    ensures !RecordsOk(records)
  {
    if i > 0 && Ascending(records, PathOf) {
      assert Below(PathOf(records[i - 1]), PathOf(records[i]));
    }
  }

  lemma AscendingMore(records: seq<Record>, i: nat, previous: string)
    requires i < |records| && previous == if i == 0 then "" else records[i - 1].path
    requires Ascending(records[..i], PathOf) && Below(previous, records[i].path)
    ensures Ascending(records[..i + 1], PathOf)
  {
    var some := records[..i];
    forall k | 0 <= k < i ensures Below(PathOf(some[k]), PathOf(records[i])) {
      if k < i - 1 {
        assert Below(PathOf(some[k]), PathOf(some[i - 1]));
        Transitive(PathOf(some[k]), PathOf(some[i - 1]), PathOf(records[i]));
      }
    }
  }

  ghost predicate AllRegular(tree: Tree) { forall p :: p in tree && p != MANIFEST ==> tree[p].regular }

  /** The walk of `validate_runtime_bundle`: the bundle holds exactly what is expected. */
  method CheckTree(expected: map<string, Summary>, tree: Tree, walk: seq<string>) returns (ok: bool)
    requires Walks(walk, tree)
    ensures ok <==> Contents(tree) == expected && AllRegular(tree)
  {
    var actual: set<string> := {};
    for i := 0 to |walk|
      invariant forall p :: p in actual <==> p in walk[..i] && p != MANIFEST
      invariant forall p :: p in actual ==> p in expected && p in tree && tree[p] == File(true, expected[p])
    {
      var path := walk[i];
      assert path in walk && walk[..i + 1] == walk[..i] + [path];
      if path != MANIFEST {
        if path !in expected || !tree[path].regular || tree[path].summary != expected[path] {
          assert path in Contents(tree);
          return false;
        }
        actual := actual + {path};
      }
    }
    assert walk[..|walk|] == walk;
    assert actual == Contents(tree).Keys;
    ok := actual == expected.Keys;
    assert ok ==> Contents(tree) == expected;
  }

  /** The inventory part of `validate_runtime_bundle`. */
  method Validate(records: seq<Record>, tree: Tree, walk: seq<string>) returns (ok: bool)
    requires Walks(walk, tree)
    ensures ok <==> RecordsOk(records) && Recorded(records) == Contents(tree) && AllRegular(tree)
  {
    var expected := ReadRecords(records);
    if expected.Err? {
      return false;
    }
    ok := CheckTree(expected.value, tree, walk);
  }

  // ---------------------------------------------------------------- what finalize writes, validate accepts

  lemma {:induction false} RecordedMeaning(records: seq<Record>, r: Record)
    requires DistinctKeys(records, PathOf)
    ensures (r.path in Recorded(records) && Recorded(records)[r.path] == r.summary) <==> r in records
  {
    if records != [] {
      var before, last := records[..|records| - 1], records[|records| - 1];
      RecordedMeaning(before, r);
      assert records == before + [last];
      forall k | 0 <= k < |before| ensures before[k].path != last.path {
        assert PathOf(records[k]) != PathOf(last);
      }
    }
  }

  lemma AscendingDistinct(records: seq<Record>)
    requires Ascending(records, PathOf)
    ensures DistinctKeys(records, PathOf)
  {
    forall i, j | 0 <= i < j < |records| ensures PathOf(records[i]) != PathOf(records[j]) {
      Irreflexive(PathOf(records[j]));
    }
  }

  /** An inventory records exactly the contents. */
  lemma InventoryRecords(records: seq<Record>, tree: Tree)
    requires Inventories(records, tree)
    ensures Recorded(records) == Contents(tree)
  {
    AscendingDistinct(records);
    forall p | p in Recorded(records) ensures p in Contents(tree) && Contents(tree)[p] == Recorded(records)[p] {
      RecordedMeaning(records, Record(p, Recorded(records)[p]));
    }
    forall p | p in Contents(tree) ensures p in Recorded(records) {
      RecordedMeaning(records, Record(p, Contents(tree)[p]));
    }
  }

  /** What a directory walk and a SHA-256 digest give. */
  ghost predicate Genuine(tree: Tree) {
    forall p :: p in tree && p != MANIFEST ==> PathOk(p) && Sha(tree[p].summary.digest) && Storable(tree[p])
  }

  /** The inventory that finalize writes passes the check on the unchanged tree exactly when there is a file
      besides the manifest and every file's mode is safe; `_inventory` itself looks at neither. */
  lemma FinalizedValidates(records: seq<Record>, tree: Tree)
    requires Genuine(tree) && Inventories(records, tree)
    ensures
      RecordsOk(records) && Recorded(records) == Contents(tree) && AllRegular(tree) <==>
      Contents(tree) != map[] && forall p :: p in Contents(tree) ==> ModeOk(Contents(tree)[p].mode)
  {
    InventoryRecords(records, tree);
    forall i | 0 <= i < |records|
      ensures records[i].path in Contents(tree) && records[i].summary == Contents(tree)[records[i].path]
    {
      assert records[i] in records;
    }
    forall p | p in Contents(tree) ensures exists i :: 0 <= i < |records| && records[i] == Record(p, Contents(tree)[p]) {
      assert Record(p, Contents(tree)[p]) in records;
    }
  }
}
