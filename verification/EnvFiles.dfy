/**
 Environment files: the printer and the parser of `deploy/oci/hydrate-vault-secrets.py` and the
 independent loader of `internal/config/envfile.go`.
 */
module EnvFiles {
  import opened Common

  type Values = map<Bytes, Bytes>

  const NEWLINE: byte := 10
  const RETURN: byte := 13
  const EQUALS: byte := 61
  const HASH: byte := 35
  const MAX_ENV_BYTES := 256 * 1024

  // ---------------------------------------------------------------- lines

  function IndexOf(s: Bytes, b: byte): (i: nat)
    ensures i <= |s| && b !in s[..i] && (i < |s| ==> s[i] == b)
  {
    if s == [] || s[0] == b then 0
    else
      var i := 1 + IndexOf(s[1..], b);
      assert s[..i] == [s[0]] + s[1..][..i - 1];
      i
  }

  lemma {:induction false} FirstIndex(s: Bytes, b: byte, n: nat)
    requires n < |s| && s[n] == b && forall k :: 0 <= k < n ==> s[k] != b
    ensures IndexOf(s, b) == n
  {
    if n > 0 {
      FirstIndex(s[1..], b, n - 1);
    }
  }

  /** The lines of a text; an unterminated last line counts. */
  function SplitLines(s: Bytes): (lines: seq<Bytes>)
    ensures forall k :: 0 <= k < |lines| ==> NEWLINE !in lines[k]
  {
    if s == [] then []
    else
      var i := IndexOf(s, NEWLINE);
      if i == |s| then assert s[..i] == s; [s] else [s[..i]] + SplitLines(s[i + 1..])
  }

  function Unlines(lines: seq<Bytes>): Bytes {
    if lines == [] then [] else lines[0] + [NEWLINE] + Unlines(lines[1..])
  }

  lemma UnlinesCons(line: Bytes, rest: seq<Bytes>)
    ensures Unlines([line] + rest) == line + [NEWLINE] + Unlines(rest)
  {
    assert ([line] + rest)[1..] == rest;
  }

  lemma {:induction false} IndexBefore(s: Bytes, b: byte, n: nat)
    requires n < |s| && s[n] == b
    ensures IndexOf(s, b) <= n
  {
    if s[0] != b {
      IndexBefore(s[1..], b, n - 1);
    }
  }

  lemma SplitAt(s: Bytes, i: nat)
    requires i < |s| && s[i] == NEWLINE
    ensures s == s[..i] + [NEWLINE] + s[i + 1..]
  {
  }

  lemma {:induction false} UnlinesOfSplit(s: Bytes)
    requires s == [] || s[|s| - 1] == NEWLINE
    ensures Unlines(SplitLines(s)) == s
  {
    if s != [] {
      var i := IndexOf(s, NEWLINE);
      IndexBefore(s, NEWLINE, |s| - 1);
      SplitAt(s, i);
      UnlinesOfSplit(s[i + 1..]);
      UnlinesCons(s[..i], SplitLines(s[i + 1..]));
    }
  }

  lemma {:induction false} SplitOfUnlines(lines: seq<Bytes>)
    requires forall k :: 0 <= k < |lines| ==> NEWLINE !in lines[k]
    ensures SplitLines(Unlines(lines)) == lines
    ensures lines != [] ==> Unlines(lines) != [] && Unlines(lines)[|Unlines(lines)| - 1] == NEWLINE
  {
    if lines != [] {
      var s := Unlines(lines);
      var n := |lines[0]|;
      SplitOfUnlines(lines[1..]);
      FirstIndex(s, NEWLINE, n);
      assert s[..n] == lines[0] && s[n + 1..] == Unlines(lines[1..]);
    }
  }

  // ---------------------------------------------------------------- one assignment

  predicate KeyStart(b: byte) { 65 <= b <= 90 || 97 <= b <= 122 || b == 95 }
  predicate KeyByte(b: byte) { KeyStart(b) || 48 <= b <= 57 }

  /** `[A-Za-z_][A-Za-z0-9_]*`. */
  predicate IsKey(key: Bytes) {
    key != [] && KeyStart(key[0]) && forall k :: 0 <= k < |key| ==> KeyByte(key[k])
  }

  function Line(key: Bytes, value: Bytes): Bytes { key + [EQUALS] + value }

  /** The first `=` of an assignment ends its key, so a line is an assignment in at most one way. */
  lemma Reading(line: Bytes, k: Bytes, v: Bytes)
    requires IsKey(k) && line == Line(k, v)
    ensures IndexOf(line, EQUALS) == |k| && k == line[..|k|] && v == line[|k| + 1..]
  {
    FirstIndex(line, EQUALS, |k|);
  }

  /** The length of the longest prefix of key bytes. */
  function KeySpan(s: Bytes): (n: nat)
    ensures n <= |s| && (forall k :: 0 <= k < n ==> KeyByte(s[k])) && (n < |s| ==> !KeyByte(s[n]))
  {
    if s == [] || !KeyByte(s[0]) then 0 else 1 + KeySpan(s[1..])
  }

  /** ENV_LINE_RE.fullmatch: the reading of a line as an assignment, if it has one. */
  function MatchLine(line: Bytes): (r: Option<(Bytes, Bytes)>)
    ensures r.Some? ==> IsKey(r.value.0) && line == Line(r.value.0, r.value.1)
    ensures r.None? ==> forall k, v :: IsKey(k) ==> line != Line(k, v)
  {
    var n := KeySpan(line);
    if n < |line| && line[n] == EQUALS && n > 0 && KeyStart(line[0]) then
      assert line == line[..n] + [line[n]] + line[n + 1..];
      Some((line[..n], line[n + 1..]))
    else
      assert forall k, v :: IsKey(k) ==> line != Line(k, v) by {
        forall k, v | IsKey(k) && line == Line(k, v) ensures false {
          NoOtherSpan(line, k, v);
        }
      }
      None
  }

  lemma NoOtherSpan(line: Bytes, k: Bytes, v: Bytes)
    requires IsKey(k) && line == Line(k, v)
    ensures KeySpan(line) == |k| && line[|k|] == EQUALS && KeyStart(line[0])
  {
    assert line[|k|] == EQUALS;
    assert forall i :: 0 <= i < |k| ==> line[i] == k[i];
  }

  /** strings.Cut followed by the key pattern. */
  function CutLine(line: Bytes): Option<(Bytes, Bytes)> {
    var n := IndexOf(line, EQUALS);
    if n == |line| || !IsKey(line[..n]) then None else Some((line[..n], line[n + 1..]))
  }

  /** Cutting at the first `=` finds the pattern's reading. */
  lemma CutIsMatch(line: Bytes)
    ensures CutLine(line) == MatchLine(line)
  {
    var n := IndexOf(line, EQUALS);
    if MatchLine(line).Some? {
      Reading(line, MatchLine(line).value.0, MatchLine(line).value.1);
    } else if n < |line| {
      assert line == Line(line[..n], line[n + 1..]);
    }
  }

  // ---------------------------------------------------------------- the Python parser

  const MAX_LINE := 16 * 1024

  predicate Skipped(line: Bytes) { line == [] || line[0] == HASH }

  /** One turn of the loop. */
  function Assign(values: Values, line: Bytes, allowed: Bytes -> bool): Result<Values> {
    if |line| > MAX_LINE then Err
    else if Skipped(line) then Ok(values)
    else
      var m := MatchLine(line);
      if m.None? || !allowed(m.value.0) || m.value.0 in values then Err else Ok(values[m.value.0 := m.value.1])
  }

  function Assignments(lines: seq<Bytes>, allowed: Bytes -> bool): Result<Values> {
    if lines == [] then Ok(map[])
    else
      var before := Assignments(lines[..|lines| - 1], allowed);
      if before.Err? then Err else Assign(before.value, lines[|lines| - 1], allowed)
  }

  lemma {:induction false} ErrorsStay(lines: seq<Bytes>, allowed: Bytes -> bool, k: nat)
    requires k <= |lines| && Assignments(lines[..k], allowed).Err?
    ensures Assignments(lines, allowed).Err?
  {
    if k < |lines| {
      assert lines[..|lines| - 1][..k] == lines[..k];
      ErrorsStay(lines[..|lines| - 1], allowed, k);
    } else {
      assert lines[..k] == lines;
    }
  }

  predicate Occurs(s: Bytes, needle: Bytes, i: nat) {
    i + |needle| <= |s| && forall j :: 0 <= j < |needle| ==> Lower(s[i + j]) == needle[j]
  }

  function Lower(b: byte): byte { if 65 <= b <= 90 then b + 32 else b }

  predicate Contains(s: Bytes, needle: Bytes) {
    exists i :: 0 <= i < |s| && Occurs(s, needle, i)
  }

  // replace_with, replace-with, replace_me
  const REPLACE: Bytes := [114, 101, 112, 108, 97, 99, 101]
  const PLACEHOLDERS: seq<Bytes> :=
    [REPLACE + [95, 119, 105, 116, 104], REPLACE + [45, 119, 105, 116, 104], REPLACE + [95, 109, 101]]

  predicate HasPlaceholder(s: Bytes) {
    Contains(s, PLACEHOLDERS[0]) || Contains(s, PLACEHOLDERS[1]) || Contains(s, PLACEHOLDERS[2])
  }

  /** The checks of `_parse_env` on the whole file, before its loop. */
  predicate Readable(content: Bytes) {
    |content| <= MAX_ENV_BYTES && 0 !in content && RETURN !in content && content != [] && content[|content| - 1] == NEWLINE
  }

  predicate Filled(values: Values, required: set<Bytes>) {
    forall key :: key in required ==> key in values && values[key] != []
  }

  function Parsed(content: Bytes, allowed: Bytes -> bool, required: set<Bytes>): Result<Values> {
    if !Readable(content) then Err
    else
      var r := Assignments(SplitLines(content), allowed);
      if r.Err? || !Filled(r.value, required) || HasPlaceholder(content) then Err else r
  }

  /** `_parse_env`. */
  method ParseEnv(content: Bytes, allowed: Bytes -> bool, required: set<Bytes>) returns (r: Result<Values>)
    ensures r == Parsed(content, allowed, required)
  {
    if |content| > MAX_ENV_BYTES || 0 in content || RETURN in content {
      return Err;
    }
    if content == [] || content[|content| - 1] != NEWLINE {
      return Err;
    }
    var lines := SplitLines(content);
    var values: Values := map[];
    for i := 0 to |lines|
      invariant Assignments(lines[..i], allowed) == Ok(values)
    {
      var line := lines[i];
      assert lines[..i + 1][..i] == lines[..i];
      if |line| > MAX_LINE {
        ErrorsStay(lines, allowed, i + 1);
        return Err;
      }
      if line == [] || line[0] == HASH {
        continue;
      }
      var m := MatchLine(line);
      if m.None? || !allowed(m.value.0) || m.value.0 in values {
        ErrorsStay(lines, allowed, i + 1);
        return Err;
      }
      values := values[m.value.0 := m.value.1];
    }
    assert lines[..|lines|] == lines;
    if !Filled(values, required) || HasPlaceholder(content) {
      return Err;
    }
    return Ok(values);
  }

  // ---------------------------------------------------------------- what a list of lines means

  predicate Acceptable(line: Bytes, allowed: Bytes -> bool) {
    |line| <= MAX_LINE && (Skipped(line) || (MatchLine(line).Some? && allowed(MatchLine(line).value.0)))
  }

  predicate SameKey(a: Bytes, b: Bytes) {
    !Skipped(a) && !Skipped(b) && MatchLine(a).Some? && MatchLine(b).Some? && MatchLine(a).value.0 == MatchLine(b).value.0
  }

  /** Every line is a comment or an allowed assignment, and no key is assigned twice. */
  ghost predicate WellFormed(lines: seq<Bytes>, allowed: Bytes -> bool) {
    && (forall i :: 0 <= i < |lines| ==> Acceptable(lines[i], allowed))
    && (forall i, j :: 0 <= i < j < |lines| ==> !SameKey(lines[i], lines[j]))
  }

  /** Every entry of the map is an assignment among the lines. */
  ghost predicate Sourced(lines: seq<Bytes>, values: Values) {
    forall k :: k in values ==> IsKey(k) && exists i :: 0 <= i < |lines| && lines[i] == Line(k, values[k])
  }

  /** Every assignment among the lines is an entry of the map. */
  ghost predicate Entered(lines: seq<Bytes>, values: Values) {
    forall i :: 0 <= i < |lines| && !Skipped(lines[i]) && MatchLine(lines[i]).Some? ==>
      MatchLine(lines[i]).value.0 in values && values[MatchLine(lines[i]).value.0] == MatchLine(lines[i]).value.1
  }

  /** The map holds exactly the assignments among the lines. */
  ghost predicate Denotes(lines: seq<Bytes>, values: Values) {
    Sourced(lines, values) && Entered(lines, values)
  }

  lemma MatchOfLine(k: Bytes, v: Bytes)
    requires IsKey(k)
    ensures MatchLine(Line(k, v)) == Some((k, v)) && !Skipped(Line(k, v))
  {
    var line := Line(k, v);
    assert line[0] == k[0];
    Reading(line, k, v);
    Reading(line, MatchLine(line).value.0, MatchLine(line).value.1);
  }

  lemma AcceptOneMore(lines: seq<Bytes>, values: Values, line: Bytes, allowed: Bytes -> bool)
    requires Denotes(lines, values) && WellFormed(lines, allowed)
    ensures Assign(values, line, allowed).Ok? <==> WellFormed(lines + [line], allowed)
  {
    var more := lines + [line];
    assert more[|lines|] == line && forall i :: 0 <= i < |lines| ==> more[i] == lines[i];
    if Acceptable(line, allowed) && !Skipped(line) {
      var k := MatchLine(line).value.0;
      if k in values {
        var i :| 0 <= i < |lines| && lines[i] == Line(k, values[k]);
        MatchOfLine(k, values[k]);
        assert SameKey(more[i], more[|lines|]);
      } else {
        assert forall i :: 0 <= i < |lines| ==> !SameKey(lines[i], line);
      }
    }
  }

  lemma DenoteOneMore(lines: seq<Bytes>, values: Values, line: Bytes, allowed: Bytes -> bool)
    requires Denotes(lines, values) && Assign(values, line, allowed).Ok?
    ensures Denotes(lines + [line], Assign(values, line, allowed).value)
  {
    var more, after := lines + [line], Assign(values, line, allowed).value;
    assert more[|lines|] == line && forall i :: 0 <= i < |lines| ==> more[i] == lines[i];
    forall k | k in after ensures IsKey(k) && exists i :: 0 <= i < |more| && more[i] == Line(k, after[k]) {
      if k in values {
        var i :| 0 <= i < |lines| && lines[i] == Line(k, values[k]);
        assert more[i] == Line(k, after[k]);
      }
    }
  }

  /** The loop accepts exactly the well-formed lists and returns exactly what they assign. */
  lemma {:induction false} AssignmentsMeaning(lines: seq<Bytes>, allowed: Bytes -> bool)
    ensures Assignments(lines, allowed).Ok? <==> WellFormed(lines, allowed)
    ensures Assignments(lines, allowed).Ok? ==> Denotes(lines, Assignments(lines, allowed).value)
  {
    if lines != [] {
      var before, line := lines[..|lines| - 1], lines[|lines| - 1];
      AssignmentsMeaning(before, allowed);
      assert lines == before + [line];
      if Assignments(before, allowed).Ok? {
        var values := Assignments(before, allowed).value;
        AcceptOneMore(before, values, line, allowed);
        if Assign(values, line, allowed).Ok? {
          DenoteOneMore(before, values, line, allowed);
        }
      } else {
        IllFormedStays(before, line, allowed);
      }
    }
  }

  lemma IllFormedStays(lines: seq<Bytes>, line: Bytes, allowed: Bytes -> bool)
    requires !WellFormed(lines, allowed)
    ensures !WellFormed(lines + [line], allowed)
  {
    var more := lines + [line];
    assert forall i :: 0 <= i < |lines| ==> more[i] == lines[i];
  }

  lemma DenotationUnique(lines: seq<Bytes>, a: Values, b: Values)
    requires Denotes(lines, a) && Denotes(lines, b)
    ensures a == b
  {
    DenotationWithin(lines, a, b);
    DenotationWithin(lines, b, a);
  }

  lemma DenotationWithin(lines: seq<Bytes>, a: Values, b: Values)
    requires Denotes(lines, a) && Denotes(lines, b)
    ensures forall k :: k in a ==> k in b && b[k] == a[k]
  {
    forall k | k in a ensures k in b && b[k] == a[k] {
      MatchOfLine(k, a[k]);
    }
  }

  // ---------------------------------------------------------------- the printer

  /** `_selected_env`. */
  function SelectedEnv(values: Values, keys: seq<Bytes>): Bytes
    requires forall k :: k in keys ==> k in values
  {
    if keys == [] then [] else Line(keys[0], values[keys[0]]) + [NEWLINE] + SelectedEnv(values, keys[1..])
  }

  function Restrict(values: Values, keys: seq<Bytes>): Values {
    map k | k in values && k in keys :: values[k]
  }

  ghost predicate Distinct(keys: seq<Bytes>) {
    forall i, j :: 0 <= i < j < |keys| ==> keys[i] != keys[j]
  }

  function SelectedLines(values: Values, keys: seq<Bytes>): (lines: seq<Bytes>)
    requires forall k :: k in keys ==> k in values
    ensures |lines| == |keys|
    ensures forall i :: 0 <= i < |keys| ==> lines[i] == Line(keys[i], values[keys[i]])
  {
    if keys == [] then [] else [Line(keys[0], values[keys[0]])] + SelectedLines(values, keys[1..])
  }

  lemma {:induction false} SelectedIsUnlines(values: Values, keys: seq<Bytes>)
    requires forall k :: k in keys ==> k in values
    ensures SelectedEnv(values, keys) == Unlines(SelectedLines(values, keys))
  {
    if keys != [] {
      SelectedIsUnlines(values, keys[1..]);
      assert SelectedLines(values, keys)[1..] == SelectedLines(values, keys[1..]);
    }
  }

  /** What a parsed file promises about each of its lines. */
  ghost predicate SafeLine(line: Bytes) {
    |line| <= MAX_LINE && NEWLINE !in line && 0 !in line && RETURN !in line && !HasPlaceholder(line)
  }

  /** Printed lines read back as the restriction. */
  lemma SelectionDenotes(values: Values, keys: seq<Bytes>, allowed: Bytes -> bool)
    requires forall k :: k in keys ==> k in values && IsKey(k) && allowed(k) && SafeLine(Line(k, values[k]))
    requires Distinct(keys)
    ensures Assignments(SelectedLines(values, keys), allowed) == Ok(Restrict(values, keys))
  {
    var lines := SelectedLines(values, keys);
    forall i | 0 <= i < |lines|
      ensures Acceptable(lines[i], allowed) && MatchLine(lines[i]) == Some((keys[i], values[keys[i]])) && !Skipped(lines[i])
    {
      assert keys[i] in keys;
      MatchOfLine(keys[i], values[keys[i]]);
    }
    assert WellFormed(lines, allowed);
    AssignmentsMeaning(lines, allowed);
    SelectionSourced(values, keys);
    SelectionEntered(values, keys);
    DenotationUnique(lines, Restrict(values, keys), Assignments(lines, allowed).value);
  }

  lemma SelectedReadings(values: Values, keys: seq<Bytes>, i: nat)
    requires (forall k :: k in keys ==> k in values && IsKey(k)) && i < |keys|
    ensures keys[i] in keys && MatchLine(SelectedLines(values, keys)[i]) == Some((keys[i], values[keys[i]]))
  {
    MatchOfLine(keys[i], values[keys[i]]);
  }

  lemma SelectedLine(values: Values, keys: seq<Bytes>, k: Bytes)
    requires (forall k :: k in keys ==> k in values) && k in keys
    ensures exists i :: 0 <= i < |keys| && SelectedLines(values, keys)[i] == Line(k, values[k])
  {
    var i :| 0 <= i < |keys| && keys[i] == k;
    assert SelectedLines(values, keys)[i] == Line(k, values[k]);
  }

  lemma SelectionSourced(values: Values, keys: seq<Bytes>)
    requires forall k :: k in keys ==> k in values && IsKey(k)
    ensures Sourced(SelectedLines(values, keys), Restrict(values, keys))
  {
    forall k | k in Restrict(values, keys)
      ensures exists i :: 0 <= i < |keys| && SelectedLines(values, keys)[i] == Line(k, values[k])
    {
      SelectedLine(values, keys, k);
    }
  }

  lemma SelectionEntered(values: Values, keys: seq<Bytes>)
    requires forall k :: k in keys ==> k in values && IsKey(k)
    ensures Entered(SelectedLines(values, keys), Restrict(values, keys))
  {
    forall i | 0 <= i < |keys|
      ensures keys[i] in keys && MatchLine(SelectedLines(values, keys)[i]) == Some((keys[i], values[keys[i]]))
    {
      SelectedReadings(values, keys, i);
    }
  }

  // ---------------------------------------------------------------- bytes and placeholders, line by line

  lemma {:induction false} BytesOfUnlines(lines: seq<Bytes>, b: byte)
    requires b != NEWLINE
    ensures b in Unlines(lines) <==> exists i :: 0 <= i < |lines| && b in lines[i]
  {
    if lines != [] {
      BytesOfUnlines(lines[1..], b);
      assert forall i :: 1 <= i < |lines| ==> lines[i] == lines[1..][i - 1];
    }
  }

  /** A needle without a newline does not straddle one. */
  lemma ContainsAcross(a: Bytes, b: Bytes, needle: Bytes)
    requires needle != [] && NEWLINE !in needle
    ensures Contains(a + [NEWLINE] + b, needle) <==> Contains(a, needle) || Contains(b, needle)
  {
    var s := a + [NEWLINE] + b;
    if Contains(a, needle) {
      var i :| 0 <= i < |a| && Occurs(a, needle, i);
      assert Occurs(s, needle, i);
    }
    if Contains(b, needle) {
      var i :| 0 <= i < |b| && Occurs(b, needle, i);
      assert Occurs(s, needle, |a| + 1 + i);
    }
    if Contains(s, needle) {
      var i :| 0 <= i < |s| && Occurs(s, needle, i);
      if i + |needle| <= |a| {
        assert Occurs(a, needle, i);
      } else if i > |a| {
        assert Occurs(b, needle, i - |a| - 1);
      } else {
        assert Lower(s[i + (|a| - i)]) == needle[|a| - i];
      }
    }
  }

  lemma {:induction false} ContainsByLine(lines: seq<Bytes>, needle: Bytes)
    requires needle != [] && NEWLINE !in needle
    ensures Contains(Unlines(lines), needle) <==> exists i :: 0 <= i < |lines| && Contains(lines[i], needle)
  {
    if lines != [] {
      ContainsByLine(lines[1..], needle);
      ContainsAcross(lines[0], Unlines(lines[1..]), needle);
      assert forall i :: 1 <= i < |lines| ==> lines[i] == lines[1..][i - 1];
    }
  }

  lemma PlaceholderByLine(lines: seq<Bytes>)
    ensures HasPlaceholder(Unlines(lines)) <==> exists i :: 0 <= i < |lines| && HasPlaceholder(lines[i])
  {
    ContainsByLine(lines, PLACEHOLDERS[0]);
    ContainsByLine(lines, PLACEHOLDERS[1]);
    ContainsByLine(lines, PLACEHOLDERS[2]);
  }

  /** What every line of a parsed file is like. */
  lemma ParsedLines(content: Bytes, allowed: Bytes -> bool, required: set<Bytes>)
    requires Parsed(content, allowed, required).Ok?
    ensures Unlines(SplitLines(content)) == content
    ensures forall i :: 0 <= i < |SplitLines(content)| ==> SafeLine(SplitLines(content)[i])
  {
    var lines := SplitLines(content);
    UnlinesOfSplit(content);
    BytesOfUnlines(lines, 0);
    BytesOfUnlines(lines, RETURN);
    PlaceholderByLine(lines);
    AssignmentsMeaning(lines, allowed);
  }

  lemma ParsedValues(content: Bytes, allowed: Bytes -> bool, required: set<Bytes>)
    requires Parsed(content, allowed, required).Ok?
    ensures Unlines(SplitLines(content)) == content
    ensures
      var values := Parsed(content, allowed, required).value;
      forall k :: k in values ==> IsKey(k) && SafeLine(Line(k, values[k]))
  {
    ParsedLines(content, allowed, required);
    AssignmentsMeaning(SplitLines(content), allowed);
  }

  /** A file made of safe lines, each terminated. */
  ghost predicate TextOf(content: Bytes, lines: seq<Bytes>) {
    && lines != [] && content == Unlines(lines) && |content| <= MAX_ENV_BYTES
    && forall i :: 0 <= i < |lines| ==> SafeLine(lines[i])
  }

  lemma TextIsReadable(content: Bytes, lines: seq<Bytes>)
    requires TextOf(content, lines)
    ensures Readable(content) && SplitLines(content) == lines && !HasPlaceholder(content)
  {
    SplitOfUnlines(lines);
    BytesOfUnlines(lines, 0);
    BytesOfUnlines(lines, RETURN);
    PlaceholderByLine(lines);
  }

  /** The lines of the file are comments or allowed assignments of distinct keys, the map is exactly what they assign,
      and every required key has a nonempty value. */
  ghost predicate ReadsAs(content: Bytes, lines: seq<Bytes>, allowed: Bytes -> bool, required: set<Bytes>, values: Values) {
    && TextOf(content, lines) && WellFormed(lines, allowed) && Denotes(lines, values)
    && forall key :: key in required ==> key in values && values[key] != []
  }

  /** What `_parse_env` accepts and returns, without reference to its loop. */
  lemma ParseMeaning(content: Bytes, allowed: Bytes -> bool, required: set<Bytes>, values: Values)
    ensures Parsed(content, allowed, required) == Ok(values) <==>
      exists lines :: ReadsAs(content, lines, allowed, required, values)
  {
    if Parsed(content, allowed, required) == Ok(values) {
      var lines := SplitLines(content);
      ParsedLines(content, allowed, required);
      AssignmentsMeaning(lines, allowed);
      assert ReadsAs(content, lines, allowed, required, values);
    }
    if lines :| ReadsAs(content, lines, allowed, required, values) {
      TextIsReadable(content, lines);
      AssignmentsMeaning(lines, allowed);
      DenotationUnique(lines, values, Assignments(lines, allowed).value);
    }
  }

  // ---------------------------------------------------------------- size

  lemma {:induction false} UnlinesSnoc(lines: seq<Bytes>, line: Bytes)
    ensures |Unlines(lines + [line])| == |Unlines(lines)| + |line| + 1
  {
    if lines != [] {
      UnlinesSnoc(lines[1..], line);
      assert (lines + [line])[1..] == lines[1..] + [line];
    } else {
      assert (lines + [line])[1..] == [];
    }
  }

  lemma {:induction false} SelectedAgree(values: Values, other: Values, keys: seq<Bytes>)
    requires forall k :: k in keys ==> k in values && k in other && values[k] == other[k]
    ensures SelectedEnv(values, keys) == SelectedEnv(other, keys)
  {
    if keys != [] {
      SelectedAgree(values, other, keys[1..]);
    }
  }

  lemma SomeMember(keys: seq<Bytes>)
    requires keys != []
    ensures exists k :: k in keys
  {
    assert keys[0] in keys;
  }

  function Without(keys: seq<Bytes>, j: nat): seq<Bytes>
    requires j < |keys|
  {
    keys[..j] + keys[j + 1..]
  }

  lemma WithoutAt(keys: seq<Bytes>, j: nat, i: nat)
    requires j < |keys| && i < |keys| - 1
    ensures Without(keys, j)[i] == if i < j then keys[i] else keys[i + 1]
  {
  }

  lemma DistinctWithout(keys: seq<Bytes>, j: nat)
    requires j < |keys| && Distinct(keys)
    ensures Distinct(Without(keys, j))
  {
    forall a, b | 0 <= a < b < |keys| - 1 ensures Without(keys, j)[a] != Without(keys, j)[b] {
      WithoutAt(keys, j, a);
      WithoutAt(keys, j, b);
    }
  }

  lemma MemberWithout(keys: seq<Bytes>, j: nat, k: Bytes)
    requires j < |keys| && Distinct(keys) && k in Without(keys, j)
    ensures k in keys && k != keys[j]
  {
    var i :| 0 <= i < |keys| - 1 && Without(keys, j)[i] == k;
    WithoutAt(keys, j, i);
  }

  lemma {:induction false} SelectionWithout(values: Values, keys: seq<Bytes>, j: nat)
    requires j < |keys| && (forall k :: k in keys ==> k in values) && forall k :: k in Without(keys, j) ==> k in values
    ensures |SelectedEnv(values, keys)| == |SelectedEnv(values, Without(keys, j))| + |Line(keys[j], values[keys[j]])| + 1
  {
    if j == 0 {
      assert Without(keys, j) == keys[1..];
    } else {
      assert Without(keys, j)[0] == keys[0] && Without(keys, j)[1..] == Without(keys[1..], j - 1);
      SelectionWithout(values, keys[1..], j - 1);
    }
  }

  /** Distinct keys select distinct lines, so a selection is never longer than its file. */
  lemma {:induction false} SelectionFits(lines: seq<Bytes>, allowed: Bytes -> bool, values: Values, keys: seq<Bytes>)
    requires Assignments(lines, allowed) == Ok(values) && Distinct(keys) && forall k :: k in keys ==> k in values
    ensures |SelectedEnv(values, keys)| <= |Unlines(lines)|
  {
    if lines == [] {
      if keys != [] {
        SomeMember(keys);
      }
      return;
    }
    var before, line := lines[..|lines| - 1], lines[|lines| - 1];
    var rest := Assignments(before, allowed).value;
    assert lines == before + [line];
    UnlinesSnoc(before, line);
    if Skipped(line) || MatchLine(line).value.0 !in keys {
      SelectedAgree(values, rest, keys);
      SelectionFits(before, allowed, rest, keys);
    } else {
      var j := AssignedKey(rest, values, line, allowed, keys);
      SelectionFits(before, allowed, rest, Without(keys, j));
    }
  }

  /** When the last line assigns a selected key, the others are selected from the lines before it. */
  lemma AssignedKey(rest: Values, values: Values, line: Bytes, allowed: Bytes -> bool, keys: seq<Bytes>) returns (j: nat)
    requires Assign(rest, line, allowed) == Ok(values) && Distinct(keys) && forall k :: k in keys ==> k in values
    requires !Skipped(line) && MatchLine(line).value.0 in keys
    ensures j < |keys| && Distinct(Without(keys, j)) && forall k :: k in Without(keys, j) ==> k in rest
    ensures |SelectedEnv(values, keys)| == |SelectedEnv(rest, Without(keys, j))| + |line| + 1
  {
    j :| 0 <= j < |keys| && keys[j] == MatchLine(line).value.0;
    var others := Without(keys, j);
    DistinctWithout(keys, j);
    forall k | k in others ensures k in values && k in rest && values[k] == rest[k] {
      MemberWithout(keys, j, k);
    }
    SelectionWithout(values, keys, j);
    SelectedAgree(values, rest, others);
  }

  /** The round trip: printing a nonempty selection of distinct keys of a parsed file and parsing it again
      gives exactly that restriction, in a file that is no larger. */
  lemma RoundTrip(content: Bytes, allowed: Bytes -> bool, required: set<Bytes>, values: Values,
                  keys: seq<Bytes>, allowed': Bytes -> bool, required': set<Bytes>)
    requires Parsed(content, allowed, required) == Ok(values)
    requires keys != [] && Distinct(keys)
    requires forall k :: k in keys ==> k in values && allowed'(k)
    requires forall k :: k in required' ==> k in keys && values[k] != []
    ensures Parsed(SelectedEnv(values, keys), allowed', required') == Ok(Restrict(values, keys))
    ensures |SelectedEnv(values, keys)| <= |content|
  {
    var lines := SplitLines(content);
    ParsedValues(content, allowed, required);
    SelectionFits(lines, allowed, values, keys);
    SelectionDenotes(values, keys, allowed');
    SelectionReadable(values, keys);
  }

  lemma SelectionReadable(values: Values, keys: seq<Bytes>)
    requires keys != [] && forall k :: k in keys ==> k in values && SafeLine(Line(k, values[k]))
    ensures |SelectedEnv(values, keys)| <= MAX_ENV_BYTES ==> Readable(SelectedEnv(values, keys))
    ensures !HasPlaceholder(SelectedEnv(values, keys))
    ensures SplitLines(SelectedEnv(values, keys)) == SelectedLines(values, keys)
  {
    var lines := SelectedLines(values, keys);
    forall i | 0 <= i < |lines| ensures SafeLine(lines[i]) {
      assert keys[i] in keys;
    }
    SelectedIsUnlines(values, keys);
    SplitOfUnlines(lines);
    BytesOfUnlines(lines, 0);
    BytesOfUnlines(lines, RETURN);
    PlaceholderByLine(lines);
  }

  // ---------------------------------------------------------------- the Go loader

  /** bufio.Scanner with a 16 KiB buffer holds a line only together with its terminator. */
  const MAX_TOKEN := 16 * 1024

  /** bufio.ScanLines drops one trailing carriage return. */
  function DropReturn(raw: Bytes): Bytes {
    if raw != [] && raw[|raw| - 1] == RETURN then raw[..|raw| - 1] else raw
  }

  function Load(values: Values, raw: Bytes, allowed: Bytes -> bool): Result<Values> {
    var line := DropReturn(raw);
    if |raw| >= MAX_TOKEN then Err
    else if Skipped(line) then Ok(values)
    else if RETURN in line || 0 in line then Err
    else
      var m := CutLine(line);
      if m.None? || !allowed(m.value.0) || m.value.0 in values then Err else Ok(values[m.value.0 := m.value.1])
  }

  function Loads(lines: seq<Bytes>, allowed: Bytes -> bool): Result<Values> {
    if lines == [] then Ok(map[])
    else
      var before := Loads(lines[..|lines| - 1], allowed);
      if before.Err? then Err else Load(before.value, lines[|lines| - 1], allowed)
  }

  lemma {:induction false} LoadErrorsStay(lines: seq<Bytes>, allowed: Bytes -> bool, k: nat)
    requires k <= |lines| && Loads(lines[..k], allowed).Err?
    ensures Loads(lines, allowed).Err?
  {
    if k < |lines| {
      assert lines[..|lines| - 1][..k] == lines[..k];
      LoadErrorsStay(lines[..|lines| - 1], allowed, k);
    } else {
      assert lines[..k] == lines;
    }
  }

  function Loaded(content: Bytes, allowed: Bytes -> bool): Result<Values> {
    if content == [] || |content| > MAX_ENV_BYTES then Err
    else
      var r := Loads(SplitLines(content), allowed);
      if r.Err? || r.value == map[] then Err else r
  }

  /** os.Setenv fails for an empty key, a key with `=` or NUL and a value with NUL. */
  predicate Settable(key: Bytes, value: Bytes) {
    key != [] && EQUALS !in key && 0 !in key && 0 !in value
  }

  lemma {:induction false} LoadedSettable(lines: seq<Bytes>, allowed: Bytes -> bool)
    ensures Loads(lines, allowed).Ok? ==> forall k :: k in Loads(lines, allowed).value ==> Settable(k, Loads(lines, allowed).value[k])
  {
    if lines != [] {
      LoadedSettable(lines[..|lines| - 1], allowed);
    }
  }

  /** The parsing loop of `loadEnvironmentFile`. */
  method ReadAssignments(content: Bytes, allowed: Bytes -> bool) returns (r: Result<Values>)
    ensures r == Loaded(content, allowed)
  {
    if content == [] || |content| > MAX_ENV_BYTES {
      return Err;
    }
    var lines := SplitLines(content);
    var values: Values := map[];
    for i := 0 to |lines|
      invariant Loads(lines[..i], allowed) == Ok(values)
    {
      assert lines[..i + 1][..i] == lines[..i];
      var line := DropReturn(lines[i]);
      if |lines[i]| >= MAX_TOKEN {
        LoadErrorsStay(lines, allowed, i + 1);
        return Err;
      }
      if line == [] || line[0] == HASH {
        continue;
      }
      var m := CutLine(line);
      if RETURN in line || 0 in line || m.None? || !allowed(m.value.0) || m.value.0 in values {
        LoadErrorsStay(lines, allowed, i + 1);
        return Err;
      }
      values := values[m.value.0 := m.value.1];
    }
    assert lines[..|lines|] == lines;
    return if values == map[] then Err else Ok(values);
  }

  /** `loadEnvironmentFile`: the process environment gains exactly the file's assignments, or nothing. */
  method LoadEnvironmentFile(content: Bytes, allowed: Bytes -> bool, environment: Values)
    returns (ok: bool, after: Values)
    ensures ok <==> Loaded(content, allowed).Ok?
    ensures after == if ok then environment + Loaded(content, allowed).value else environment
  {
    var r := ReadAssignments(content, allowed);
    if r.Err? {
      return false, environment;
    }
    LoadedSettable(SplitLines(content), allowed);
    ok, after := SetAll(r.value, environment);
  }

  lemma MoveOne(after: Values, rest: Values, key: Bytes)
    requires key in rest
    ensures after[key := rest[key]] + (rest - {key}) == after + rest
    ensures |rest - {key}| < |rest|
  {
    assert (rest - {key}).Keys == rest.Keys - {key};
  }

  /** The loop over os.Setenv: settable assignments all take effect, in whatever order the map gives. */
  method SetAll(values: Values, environment: Values) returns (ok: bool, after: Values)
    ensures (forall k :: k in values ==> Settable(k, values[k])) ==> ok
    ensures ok ==> after == environment + values
  {
    var rest := values;
    after := environment;
    while rest != map[]
      invariant forall k :: k in rest ==> k in values && rest[k] == values[k]
      invariant after + rest == environment + values
      decreases |rest|
    {
      var key :| key in rest;
      if !Settable(key, rest[key]) {
        return false, after;
      }
      MoveOne(after, rest, key);
      after, rest := after[key := rest[key]], rest - {key};
    }
    return true, after;
  }

  /** A line that the loader can read: short enough, and a comment or free of carriage returns and NULs once its own
      trailing carriage return is dropped. */
  predicate Plain(raw: Bytes) {
    |raw| < MAX_TOKEN && (Skipped(DropReturn(raw)) || (RETURN !in DropReturn(raw) && 0 !in DropReturn(raw)))
  }

  function Stripped(lines: seq<Bytes>): (r: seq<Bytes>)
    ensures |r| == |lines| && forall i :: 0 <= i < |lines| ==> r[i] == DropReturn(lines[i])
  {
    if lines == [] then [] else Stripped(lines[..|lines| - 1]) + [DropReturn(lines[|lines| - 1])]
  }

  lemma LoadPlain(values: Values, raw: Bytes, allowed: Bytes -> bool)
    ensures Load(values, raw, allowed) == if Plain(raw) then Assign(values, DropReturn(raw), allowed) else Err
  {
    CutIsMatch(DropReturn(raw));
  }

  lemma {:induction false} PlainLoads(lines: seq<Bytes>, allowed: Bytes -> bool)
    requires forall i :: 0 <= i < |lines| ==> Plain(lines[i])
    ensures Loads(lines, allowed) == Assignments(Stripped(lines), allowed)
  {
    if lines != [] {
      var before := lines[..|lines| - 1];
      PlainLoads(before, allowed);
      assert Stripped(lines)[..|before|] == Stripped(before);
      if Loads(before, allowed).Ok? {
        LoadPlain(Loads(before, allowed).value, lines[|lines| - 1], allowed);
      }
    }
  }

  lemma UnreadableLine(lines: seq<Bytes>, allowed: Bytes -> bool, k: nat)
    requires k < |lines| && !Plain(lines[k])
    ensures Loads(lines, allowed).Err?
  {
    assert lines[..k + 1][..k] == lines[..k];
    if Loads(lines[..k], allowed).Ok? {
      LoadPlain(Loads(lines[..k], allowed).value, lines[k], allowed);
    }
    LoadErrorsStay(lines, allowed, k + 1);
  }

  /** Every line is readable, and without their carriage returns the lines are well formed and assign this map. */
  ghost predicate LoadsAs(lines: seq<Bytes>, allowed: Bytes -> bool, values: Values) {
    && (forall i :: 0 <= i < |lines| ==> Plain(lines[i]))
    && WellFormed(Stripped(lines), allowed) && Denotes(Stripped(lines), values)
  }

  lemma PlainMeaning(lines: seq<Bytes>, allowed: Bytes -> bool, values: Values)
    requires Loads(lines, allowed) == Assignments(Stripped(lines), allowed)
    ensures Loads(lines, allowed) == Ok(values) <==> WellFormed(Stripped(lines), allowed) && Denotes(Stripped(lines), values)
  {
    AssignmentsMeaning(Stripped(lines), allowed);
    if WellFormed(Stripped(lines), allowed) && Denotes(Stripped(lines), values) {
      DenotationUnique(Stripped(lines), values, Assignments(Stripped(lines), allowed).value);
    }
  }

  lemma LoadsMeaning(lines: seq<Bytes>, allowed: Bytes -> bool, values: Values)
    ensures Loads(lines, allowed) == Ok(values) <==> LoadsAs(lines, allowed, values)
  {
    if forall i :: 0 <= i < |lines| ==> Plain(lines[i]) {
      PlainLoads(lines, allowed);
      PlainMeaning(lines, allowed, values);
    } else {
      var k :| 0 <= k < |lines| && !Plain(lines[k]);
      UnreadableLine(lines, allowed, k);
    }
  }

  /** What the loader accepts and returns, for every file: it is of valid size, assigns something, and its lines load as
      that map. */
  lemma LoadMeaning(content: Bytes, allowed: Bytes -> bool, values: Values)
    ensures Loaded(content, allowed) == Ok(values) <==>
      0 < |content| <= MAX_ENV_BYTES && values != map[] && LoadsAs(SplitLines(content), allowed, values)
  {
    LoadsMeaning(SplitLines(content), allowed, values);
  }

  // ---------------------------------------------------------------- the two parsers agree

  ghost predicate AllAllowed(values: Values, allowed: Bytes -> bool) {
    forall k :: k in values ==> allowed(k)
  }

  ghost predicate AllShort(lines: seq<Bytes>) {
    forall i :: 0 <= i < |lines| ==> |lines[i]| < MAX_TOKEN
  }

  lemma LoadAgrees(values: Values, line: Bytes, allowed: Bytes -> bool, loader: Bytes -> bool)
    requires RETURN !in line && 0 !in line && Assign(values, line, allowed).Ok?
    ensures
      var after := Assign(values, line, allowed).value;
      AllAllowed(values, loader) ==>
        Load(values, line, loader) == if AllAllowed(after, loader) && |line| < MAX_TOKEN then Ok(after) else Err
    ensures AllAllowed(Assign(values, line, allowed).value, loader) ==> AllAllowed(values, loader)
  {
    CutIsMatch(line);
    assert DropReturn(line) == line;
  }

  lemma {:induction false} LoadsAgree(lines: seq<Bytes>, allowed: Bytes -> bool, loader: Bytes -> bool)
    requires forall i :: 0 <= i < |lines| ==> RETURN !in lines[i] && 0 !in lines[i]
    requires Assignments(lines, allowed).Ok?
    requires AllAllowed(Assignments(lines, allowed).value, loader) && AllShort(lines)
    ensures Loads(lines, loader) == Assignments(lines, allowed)
  {
    if lines != [] {
      var before, line := lines[..|lines| - 1], lines[|lines| - 1];
      LoadAgrees(Assignments(before, allowed).value, line, allowed, loader);
      LoadsAgree(before, allowed, loader);
    }
  }

  lemma {:induction false} LoadsShort(lines: seq<Bytes>, loader: Bytes -> bool)
    requires Loads(lines, loader).Ok?
    ensures AllShort(lines)
  {
    if lines != [] {
      LoadsShort(lines[..|lines| - 1], loader);
    }
  }

  lemma {:induction false} LoadsAllowed(lines: seq<Bytes>, loader: Bytes -> bool)
    requires Loads(lines, loader).Ok?
    ensures AllAllowed(Loads(lines, loader).value, loader)
  {
    if lines != [] {
      LoadsAllowed(lines[..|lines| - 1], loader);
    }
  }

  lemma {:induction false} LoadsNoMore(lines: seq<Bytes>, allowed: Bytes -> bool, loader: Bytes -> bool)
    requires forall i :: 0 <= i < |lines| ==> RETURN !in lines[i] && 0 !in lines[i]
    requires Assignments(lines, allowed).Ok? && Loads(lines, loader).Ok?
    ensures Loads(lines, loader) == Assignments(lines, allowed)
  {
    if lines != [] {
      LoadsNoMore(lines[..|lines| - 1], allowed, loader);
      CutIsMatch(lines[|lines| - 1]);
      assert DropReturn(lines[|lines| - 1]) == lines[|lines| - 1];
    }
  }

  /** The loader and the parser agree: of a file that the parser accepts, the loader gives the same map
      exactly when the file assigns something, the loader's own list admits every key and every line is
      shorter than 16384 bytes; otherwise it fails. */
  lemma ParsersAgree(content: Bytes, allowed: Bytes -> bool, required: set<Bytes>, values: Values, loader: Bytes -> bool)
    requires Parsed(content, allowed, required) == Ok(values)
    ensures Loaded(content, loader) ==
      if values != map[] && AllAllowed(values, loader) && AllShort(SplitLines(content)) then Ok(values) else Err
  {
    ParsedLines(content, allowed, required);
    var lines := SplitLines(content);
    if AllAllowed(values, loader) && AllShort(lines) {
      LoadsAgree(lines, allowed, loader);
    } else if Loads(lines, loader).Ok? {
      LoadsNoMore(lines, allowed, loader);
      LoadsShort(lines, loader);
      LoadsAllowed(lines, loader);
    }
  }

  /** A printed selection loads as that restriction, unless a printed line is exactly 16384 bytes long or
      the loader does not admit a key. */
  lemma SelectionLoads(content: Bytes, allowed: Bytes -> bool, required: set<Bytes>, values: Values,
                       keys: seq<Bytes>, loader: Bytes -> bool)
    requires Parsed(content, allowed, required) == Ok(values)
    requires keys != [] && Distinct(keys) && forall k :: k in keys ==> k in values
    ensures Loaded(SelectedEnv(values, keys), loader) ==
      if forall k :: k in keys ==> loader(k) && |Line(k, values[k])| != MAX_TOKEN then Ok(Restrict(values, keys)) else Err
  {
    RoundTrip(content, allowed, required, values, keys, _ => true, {});
    ParsersAgree(SelectedEnv(values, keys), _ => true, {}, Restrict(values, keys), loader);
    ParsedValues(content, allowed, required);
    SelectionReadable(values, keys);
    assert keys[0] in Restrict(values, keys);
    ShortSelection(values, keys);
  }

  lemma ShortSelection(values: Values, keys: seq<Bytes>)
    requires forall k :: k in keys ==> k in values
    ensures AllShort(SelectedLines(values, keys)) <==> forall k :: k in keys ==> |Line(k, values[k])| < MAX_TOKEN
  {
    assert forall i :: 0 <= i < |keys| ==> keys[i] in keys;
  }

  /** The boundary is real: a line of exactly 16384 bytes passes the parser and stops the loader. */
  lemma LongestLineDisagrees(value: Bytes, allowed: Bytes -> bool)
    requires |value| == MAX_LINE - 2 && forall i :: 0 <= i < |value| ==> value[i] == 97
    requires allowed([65])
    ensures Parsed(Unlines([Line([65], value)]), allowed, {}) == Ok(map[[65] := value])
    ensures Loaded(Unlines([Line([65], value)]), allowed) == Err
  {
    var line, keys, values := Line([65], value), [[65]], map[[65] := value];
    assert SafeLine(line) by {
      assert forall i :: 0 <= i < |line| ==> line[i] in {65, 61, 97};
      assert forall n :: 0 <= n < 3 ==> PLACEHOLDERS[n][0] == 114;
      assert forall i :: 0 <= i < |line| ==> Lower(line[i]) != 114;
    }
    assert SelectedLines(values, keys) == [line];
    SelectedIsUnlines(values, keys);
    SelectionDenotes(values, keys, allowed);
    SelectionReadable(values, keys);
    assert |Unlines([line])| == |line| + 1;
    assert Restrict(values, keys) == values;
    ParsersAgree(Unlines([line]), allowed, {}, values, allowed);
  }
}
