/**
 The emergency network cut of `deploy/oci/runtime-reconciler.py`: recognising an exact cut in nft's
 JSON listing, installing one under either of two names, and clearing them.
 */
module EmergencyCut {
  import opened Common

  datatype Json =
    | Null | Bool(b: bool) | Number(n: real) | Text(s: string) | Array(items: seq<Json>) | Object(fields: map<string, Json>)

  const CUT := "clixor_fail_closed"
  const CANDIDATE := "clixor_fail_closed_candidate"

  /** `value.get(key)`. */
  function Get(value: map<string, Json>, key: string): Json {
    if key in value then value[key] else Null
  }

  // ---------------------------------------------------------------- what an exact cut is

  predicate IsMetainfo(item: Json) {
    item.Object? && |item.fields| == 1 && "metainfo" in item.fields
  }

  predicate IsTable(item: Json, table: string) {
    && item.Object? && |item.fields| == 1 && "table" in item.fields && item.fields["table"].Object?
    && var t := item.fields["table"].fields;
       Get(t, "family") == Text("inet") && Get(t, "name") == Text(table)
  }

  predicate IsDropChain(item: Json, table: string, hook: string) {
    && item.Object? && |item.fields| == 1 && "chain" in item.fields && item.fields["chain"].Object?
    && var c := item.fields["chain"].fields;
       && Get(c, "name") == Text(hook) && Get(c, "family") == Text("inet") && Get(c, "table") == Text(table)
       && Get(c, "type") == Text("filter") && Get(c, "hook") == Text(hook)
       && Get(c, "prio") == Number(-300.0) && Get(c, "policy") == Text("drop")
  }

  predicate Belongs(item: Json, table: string) {
    IsMetainfo(item) || IsTable(item, table) || IsDropChain(item, table, "input") || IsDropChain(item, table, "output")
  }

  function CountTables(items: seq<Json>, table: string): nat {
    if items == [] then 0
    else CountTables(items[..|items| - 1], table) + if IsTable(items[|items| - 1], table) then 1 else 0
  }

  function CountChains(items: seq<Json>, table: string, hook: string): nat {
    if items == [] then 0
    else CountChains(items[..|items| - 1], table, hook) + if IsDropChain(items[|items| - 1], table, hook) then 1 else 0
  }

  /** Besides metainfo: exactly one matching table and exactly the two drop chains, in any order. */
  predicate ExactItems(items: seq<Json>, table: string) {
    && (forall i :: 0 <= i < |items| ==> Belongs(items[i], table))
    && CountTables(items, table) == 1
    && CountChains(items, table, "input") == 1
    && CountChains(items, table, "output") == 1
  }

  type Document = map<string, Json>

  predicate ExactCut(document: Option<Document>, table: string) {
    && document.Some? && document.value.Keys == {"nftables"} && document.value["nftables"].Array?
    && ExactItems(document.value["nftables"].items, table)
  }

  /** A chain name that Python cannot look up in a set raises TypeError. */
  predicate UnhashableChain(item: Json) {
    && item.Object? && "chain" in item.fields && item.fields["chain"].Object?
    && var name := Get(item.fields["chain"].fields, "name"); name.Array? || name.Object?
  }

  lemma {:induction false} CountsGrow(items: seq<Json>, table: string, hook: string, k: nat)
    requires k <= |items|
    ensures CountTables(items[..k], table) <= CountTables(items, table)
    ensures CountChains(items[..k], table, hook) <= CountChains(items, table, hook)
  {
    if k < |items| {
      var rest := items[..|items| - 1];
      CountsGrow(rest, table, hook, k);
      assert rest[..k] == items[..k];
    } else {
      assert items[..k] == items;
    }
  }

  /** A prefix that no exact list extends. */
  lemma PrefixRefutes(items: seq<Json>, table: string, k: nat)
    requires k < |items|
    requires
      || !Belongs(items[k], table)
      || (IsTable(items[k], table) && CountTables(items[..k], table) >= 1)
      || (IsDropChain(items[k], table, "input") && CountChains(items[..k], table, "input") >= 1)
      || (IsDropChain(items[k], table, "output") && CountChains(items[..k], table, "output") >= 1)
    ensures !ExactItems(items, table)
  {
    assert items[..k + 1][..k] == items[..k];
    CountsGrow(items, table, "input", k + 1);
    CountsGrow(items, table, "output", k + 1);
  }

  // ---------------------------------------------------------------- recognising it

  datatype Kind = Metainfo | Table | Chain(hook: string) | Foreign | Raises

  lemma SingleKey(fields: Document, a: string, b: string)
    requires |fields| == 1 && a in fields && a != b
    ensures b !in fields
  {
    assert |fields.Keys - {a}| == 0;
    assert b in fields ==> b in fields.Keys - {a};
  }

  /** What the loop's branches make of one item. */
  function Classify(item: Json, table: string): (k: Kind)
    ensures k.Raises? ==> UnhashableChain(item)
    ensures k.Foreign? ==> !Belongs(item, table)
    ensures !k.Raises? ==> (k.Table? <==> IsTable(item, table))
    ensures !k.Raises? ==> forall h :: h in {"input", "output"} ==> (k == Chain(h) <==> IsDropChain(item, table, h))
    ensures k.Metainfo? || k.Table? || k.Chain? ==> Belongs(item, table)
    ensures k.Chain? ==> k.hook in {"input", "output"}
  {
    if !item.Object? || |item.fields| != 1 then Foreign
    else if "metainfo" in item.fields then
      SingleKey(item.fields, "metainfo", "table"); SingleKey(item.fields, "metainfo", "chain");
      Metainfo
    else if "table" in item.fields then
      SingleKey(item.fields, "table", "chain");
      var value := item.fields["table"];
      if !value.Object? || Get(value.fields, "family") != Text("inet") || Get(value.fields, "name") != Text(table)
      then Foreign else Table
    else if "chain" !in item.fields || !item.fields["chain"].Object? then Foreign
    else
      var chain := item.fields["chain"].fields;
      var name := Get(chain, "name");
      if name.Array? || name.Object? then Raises
      else if name != Text("input") && name != Text("output") then Foreign
      else if || Get(chain, "family") != Text("inet") || Get(chain, "table") != Text(table)
              || Get(chain, "type") != Text("filter") || Get(chain, "hook") != name
              || Get(chain, "prio") != Number(-300.0) || Get(chain, "policy") != Text("drop") then Foreign
      else Chain(name.s)
  }

  /** The counts after one more item. */
  lemma OneMore(items: seq<Json>, table: string, i: nat)
    requires i < |items|
    ensures CountTables(items[..i + 1], table) == CountTables(items[..i], table) + if IsTable(items[i], table) then 1 else 0
    ensures forall h :: CountChains(items[..i + 1], table, h) == CountChains(items[..i], table, h) + if IsDropChain(items[i], table, h) then 1 else 0
  {
    assert items[..i + 1][..i] == items[..i];
  }

  /** What the loop knows after some items: they all belong, and each kind occurred as recorded. */
  ghost predicate Scanned(items: seq<Json>, table: string, i: nat, tableSeen: bool, chains: set<string>) {
    && i <= |items| && chains <= {"input", "output"}
    && (forall k :: 0 <= k < i ==> Belongs(items[k], table))
    && CountTables(items[..i], table) == (if tableSeen then 1 else 0)
    && (forall h :: h in {"input", "output"} ==> CountChains(items[..i], table, h) == if h in chains then 1 else 0)
  }

  lemma ScanOne(items: seq<Json>, table: string, i: nat, tableSeen: bool, chains: set<string>, kind: Kind)
    requires i < |items| && Scanned(items, table, i, tableSeen, chains) && kind == Classify(items[i], table) && !kind.Raises?
    ensures
      if kind.Foreign? || (kind.Table? && tableSeen) || (kind.Chain? && kind.hook in chains) then !ExactItems(items, table)
      else Scanned(items, table, i + 1, tableSeen || kind.Table?, chains + if kind.Chain? then {kind.hook} else {})
  {
    OneMore(items, table, i);
    if kind.Foreign? || (kind.Table? && tableSeen) || (kind.Chain? && kind.hook in chains) {
      PrefixRefutes(items, table, i);
    }
  }

  lemma ScannedAll(items: seq<Json>, table: string, tableSeen: bool, chains: set<string>)
    requires Scanned(items, table, |items|, tableSeen, chains)
    ensures ExactItems(items, table) <==> tableSeen && chains == {"input", "output"}
  {
    assert items[..|items|] == items;
  }

  /** The loop of `_nft_exact_cut`: true exactly for an exact list of any length and order; an error
      only for an unhashable chain name. */
  method ExactList(items: seq<Json>, table: string) returns (r: Result<bool>)
    ensures r.Ok? ==> (r.value <==> ExactItems(items, table))
    ensures r.Err? ==> exists i :: 0 <= i < |items| && UnhashableChain(items[i])
  {
    var tableSeen := false;
    var chains: set<string> := {};
    for i := 0 to |items|
      invariant Scanned(items, table, i, tableSeen, chains)
    {
      var kind := Classify(items[i], table);
      if kind.Raises? {
        return Err;
      }
      ScanOne(items, table, i, tableSeen, chains, kind);
      if kind.Foreign? || (kind.Table? && tableSeen) || (kind.Chain? && kind.hook in chains) {
        return Ok(false);
      }
      if kind.Table? {
        tableSeen := true;
      } else if kind.Chain? {
        chains := chains + {kind.hook};
      }
    }
    ScannedAll(items, table, tableSeen, chains);
    return Ok(tableSeen && chains == {"input", "output"});
  }

  predicate UnhashableIn(document: Option<Document>) {
    && document.Some? && "nftables" in document.value && document.value["nftables"].Array?
    && exists i :: 0 <= i < |document.value["nftables"].items| && UnhashableChain(document.value["nftables"].items[i])
  }

  /** `_nft_exact_cut`. */
  method NftExactCut(document: Option<Document>, table: string) returns (r: Result<bool>)
    ensures r.Ok? ==> (r.value <==> ExactCut(document, table))
    ensures r.Err? ==> UnhashableIn(document)
  {
    if document.None? || document.value.Keys != {"nftables"} || !document.value["nftables"].Array? {
      return Ok(false);
    }
    r := ExactList(document.value["nftables"].items, table);
  }

  // ---------------------------------------------------------------- the kernel and its two cuts

  /** The kernel's inet tables: for each name, the items that listing it prints. */
  type Tables = map<string, seq<Json>>

  ghost predicate Cut(tables: Tables, name: string) {
    name in tables && ExactItems(tables[name], name)
  }

  /** An item of `list ruleset` that declares the inet table `name`. */
  predicate Declares(item: Json, name: string) {
    && item.Object? && "table" in item.fields && item.fields["table"].Object?
    && Get(item.fields["table"].fields, "family") == Text("inet") && Get(item.fields["table"].fields, "name") == Text(name)
  }

  /** nft's answers: a ruleset listing, or None for a failed or unreadable one, and whether listing one
      table works; both may depend on the tables there are. */
  datatype Nft = Nft(ruleset: Tables -> Option<Document>, readable: (Tables, string) -> bool)

  /** A ruleset listing declares exactly the tables there are. */
  ghost predicate Truthful(nft: Nft) {
    forall tables: Tables, name ::
      nft.ruleset(tables).Some? && Get(nft.ruleset(tables).value, "nftables").Array? ==>
        (name in tables <==> exists i ::
           0 <= i < |nft.ruleset(tables).value["nftables"].items| && Declares(nft.ruleset(tables).value["nftables"].items[i], name))
  }

  function ListTable(nft: Nft, tables: Tables, name: string): Option<Document> {
    if name in tables && nft.readable(tables, name) then Some(map["nftables" := Array(tables[name])]) else None
  }

  /** The loop over the ruleset: the known names it declares, or None if an item is malformed or a name
      is declared twice. */
  method PresentTables(items: seq<Json>) returns (present: Option<set<string>>)
    ensures present.Some? ==> present.value <= {CUT, CANDIDATE}
    ensures present.Some? ==> forall name :: name in {CUT, CANDIDATE} ==>
      (name in present.value <==> exists i :: 0 <= i < |items| && Declares(items[i], name))
    ensures present.None? ==>
      || (exists i :: 0 <= i < |items| && !items[i].Object?)
      || (exists i, j, name :: 0 <= i < j < |items| && name in {CUT, CANDIDATE} && Declares(items[i], name) && Declares(items[j], name))
  {
    var found: set<string> := {};
    for i := 0 to |items|
      invariant found <= {CUT, CANDIDATE}
      invariant forall name :: name in {CUT, CANDIDATE} ==>
        (name in found <==> exists k :: 0 <= k < i && Declares(items[k], name))
    {
      if !items[i].Object? {
        return None;
      }
      var table := Get(items[i].fields, "table");
      if table.Object? && Get(table.fields, "family") == Text("inet") && Get(table.fields, "name").Text? {
        var name := Get(table.fields, "name").s;
        if name in {CUT, CANDIDATE} {
          if name in found {
            return None;
          }
          found := found + {name};
        }
      }
    }
    return Some(found);
  }

  datatype CutState = Absent | Exact | Unknown

  ghost predicate StateIs(state: CutState, nft: Nft, tables: Tables, name: string) {
    match state
    case Absent => name !in tables
    case Exact => Cut(tables, name)
    case Unknown => name in tables && (Cut(tables, name) ==> !nft.readable(tables, name))
  }

  /** A listing that the controller can use. */
  ghost predicate Usable(ruleset: Option<Document>) {
    && ruleset.Some? && Get(ruleset.value, "nftables").Array?
    && var items := ruleset.value["nftables"].items;
       && (forall i :: 0 <= i < |items| ==> items[i].Object?)
       && forall i, j, name :: 0 <= i < j < |items| && name in {CUT, CANDIDATE} && Declares(items[i], name) ==> !Declares(items[j], name)
  }

  /** What is there under the known names are exact cuts. */
  ghost predicate OnlyCuts(tables: Tables) {
    (CUT in tables ==> Cut(tables, CUT)) && (CANDIDATE in tables ==> Cut(tables, CANDIDATE))
  }

  /** nft answers before and after the cuts are gone, and nothing it lists is unhashable. */
  ghost predicate Answers(nft: Nft, tables: Tables) {
    && Usable(nft.ruleset(tables)) && Usable(nft.ruleset(tables - {CUT, CANDIDATE}))
    && nft.readable(tables, CUT) && nft.readable(tables, CANDIDATE) && !Unhashable(nft, tables)
  }

  /** A chain name that Python cannot look up, in the listing of a known table. */
  ghost predicate Unhashable(nft: Nft, tables: Tables) {
    UnhashableIn(ListTable(nft, tables, CUT)) || UnhashableIn(ListTable(nft, tables, CANDIDATE))
  }

  function Named(table: string): Document {
    map["family" := Text("inet"), "name" := Text(table)]
  }

  function DropChain(table: string, hook: string): Document {
    map["family" := Text("inet"), "table" := Text(table), "name" := Text(hook), "type" := Text("filter"),
        "hook" := Text(hook), "prio" := Number(-300.0), "policy" := Text("drop")]
  }

  /** The table that `_nft_install_batch` adds, as nft lists it. */
  function CutItems(table: string): seq<Json> {
    [Object(map["metainfo" := Null]), Object(map["table" := Object(Named(table))]),
     Object(map["chain" := Object(DropChain(table, "input"))]), Object(map["chain" := Object(DropChain(table, "output"))])]
  }

  predicate NeitherTableNorChain(item: Json) {
    item.Object? && "table" !in item.fields && "chain" !in item.fields
  }

  lemma CutItemShapes(table: string)
    ensures IsMetainfo(CutItems(table)[0]) && NeitherTableNorChain(CutItems(table)[0])
    ensures IsTable(CutItems(table)[1], table) && "chain" !in CutItems(table)[1].fields
    ensures "table" !in CutItems(table)[2].fields && "table" !in CutItems(table)[3].fields
  {
    assert "metainfo"[0] == 'm' && "table"[0] == 't' && "chain"[0] == 'c';
  }

  lemma CutChainShapes(table: string, hook: string)
    ensures IsDropChain(Object(map["chain" := Object(DropChain(table, hook))]), table, hook)
    ensures forall h :: h != hook ==> !IsDropChain(Object(map["chain" := Object(DropChain(table, hook))]), table, h)
  {
  }

  /** Counting a four-item list, whatever its items are. */
  lemma CountFour(items: seq<Json>, table: string, h: string)
    requires |items| == 4 && !IsTable(items[0], table) && IsTable(items[1], table) && !IsTable(items[2], table) && !IsTable(items[3], table)
    requires !IsDropChain(items[0], table, h) && !IsDropChain(items[1], table, h)
    requires IsDropChain(items[2], table, h) != IsDropChain(items[3], table, h)
    ensures CountTables(items, table) == CountChains(items, table, h) == 1
  {
    assert items[..0] == [] && items[..4] == items;
    OneMore(items, table, 0);
    OneMore(items, table, 1);
    OneMore(items, table, 2);
    OneMore(items, table, 3);
  }

  lemma CutItemsExact(table: string)
    ensures ExactItems(CutItems(table), table)
  {
    CutItemShapes(table);
    CutChainShapes(table, "input");
    CutChainShapes(table, "output");
    assert "input"[0] == 'i' && "output"[0] == 'o';
    CountFour(CutItems(table), table, "input");
    CountFour(CutItems(table), table, "output");
  }

  lemma HashableChain(table: string, hook: string)
    ensures !UnhashableChain(Object(map["chain" := Object(DropChain(table, hook))]))
  {
  }

  lemma CutItemsHashable(table: string)
    ensures forall i :: 0 <= i < 4 ==> !UnhashableChain(CutItems(table)[i])
  {
    CutItemShapes(table);
    HashableChain(table, "input");
    HashableChain(table, "output");
  }

  /** The kernels that activation may leave behind: every exact cut is still exact, no table is gone, only
      the candidate's may have changed, and only the two known names may be new. */
  ghost function Safeguarded(before: Tables): iset<Tables> {
    iset after: Tables |
      && (forall name :: Cut(before, name) ==> Cut(after, name))
      && (forall name :: name in before ==> name in after && (name != CANDIDATE ==> after[name] == before[name]))
      && after.Keys <= before.Keys + {CUT, CANDIDATE}
  }

  /** Adding a cut under the candidate's name or under a free name is safe. */
  lemma InstallSafeguards(tables: Tables, target: string)
    requires target == CANDIDATE || (target == CUT && CUT !in tables)
    ensures tables[target := CutItems(target)] in Safeguarded(tables)
    ensures Cut(tables[target := CutItems(target)], target)
  {
    CutItemsExact(target);
  }

  class Kernel {
    var tables: Tables

    constructor (tables: Tables)
      ensures this.tables == tables
    {
      this.tables := tables;
    }

    /** The state of one known name. */
    method CutStateOf(nft: Nft, present: set<string>, name: string) returns (r: Result<CutState>)
      requires name in present <==> name in tables
      ensures r.Ok? ==> StateIs(r.value, nft, tables, name)
      ensures r.Err? ==> UnhashableIn(ListTable(nft, tables, name))
    {
      if name !in present {
        return Ok(Absent);
      }
      var exact := NftExactCut(ListTable(nft, tables, name), name);
      return if exact.Err? then Err else Ok(if exact.value then Exact else Unknown);
    }

    /** `_known_nft_cut_states`: what it returns is true of the kernel. */
    method KnownStates(nft: Nft) returns (r: Result<Option<(CutState, CutState)>>)
      requires Truthful(nft)
      ensures r.Ok? && r.value.Some? ==>
        StateIs(r.value.value.0, nft, tables, CUT) && StateIs(r.value.value.1, nft, tables, CANDIDATE)
      ensures r.Ok? && Usable(nft.ruleset(tables)) ==> r.value.Some?
      ensures r.Err? ==> Unhashable(nft, tables)
    {
      var ruleset := nft.ruleset(tables);
      if ruleset.None? || !Get(ruleset.value, "nftables").Array? {
        return Ok(None);
      }
      var present := PresentTables(ruleset.value["nftables"].items);
      if present.None? {
        return Ok(None);
      }
      var cut := CutStateOf(nft, present.value, CUT);
      var candidate := CutStateOf(nft, present.value, CANDIDATE);
      if cut.Err? || candidate.Err? {
        return Err;
      }
      return Ok(Some((cut.value, candidate.value)));
    }
  
    /** One `nft -f` transaction that adds a cut under `target`, after deleting it if `replace` is set, and
        the listing that proves it.  The transaction is applied as a whole or not at all; `reported` is its
        exit status. */
    method Install(nft: Nft, target: string, replace: bool, applied: bool, reported: bool) returns (r: Result<bool>)
      requires replace <==> target in tables
      requires reported ==> applied
      modifies this
      ensures tables == if applied then old(tables)[target := CutItems(target)] else old(tables)
      ensures r == Ok(true) ==> Cut(tables, target)
      ensures r == Ok(false) ==> !reported || !nft.readable(tables, target)
      ensures r.Ok?
    {
      if applied {
        tables := tables[target := CutItems(target)];
      }
      if !reported {
        return Ok(false);
      }
      CutItemsExact(target);
      CutItemsHashable(target);
      r := NftExactCut(ListTable(nft, tables, target), target);
    }

    /** `_activate_emergency_network_cut`: true only with an exact cut in the kernel, and always true when
        nft answers; no exact cut and no foreign table is ever lost, and an occupied CUT is not touched. */
    method Activate(nft: Nft, applied: bool, reported: bool) returns (r: Result<bool>)
      requires Truthful(nft) && (reported ==> applied)
      modifies this
      ensures r == Ok(true) ==> Cut(tables, CUT) || Cut(tables, CANDIDATE)
      ensures tables in Safeguarded(old(tables))
      ensures r.Err? ==> Unhashable(nft, old(tables))
      ensures r.Ok? && Usable(nft.ruleset(old(tables))) && reported && (forall t, name :: nft.readable(t, name)) ==> r.value
    {
      var known := KnownStates(nft);
      if known.Err? || known.value.None? {
        return if known.Err? then Err else Ok(false);
      }
      var (cut, candidate) := known.value.value;
      if cut.Exact? || candidate.Exact? {
        return Ok(true);
      }
      var target := if candidate.Absent? then CANDIDATE else if cut.Absent? then CUT else CANDIDATE;
      var replace := (if target == CUT then cut else candidate).Unknown?;
      InstallSafeguards(tables, target);
      r := Install(nft, target, replace, applied, reported);
    }

    /** One transaction that deletes the given tables. */
    method Delete(names: set<string>, applied: bool, reported: bool) returns (ok: bool)
      requires names <= tables.Keys
      modifies this
      ensures ok == reported
      ensures tables == if applied then old(tables) - names else old(tables)
    {
      if applied {
        tables := tables - names;
      }
      return reported;
    }

    /** `_clear_emergency_network_cut`: a normal return means both names are absent; whatever happens, only
        exact cuts were deleted, all of them or none. */
    method Clear(nft: Nft, applied: bool, reported: bool) returns (r: Result<bool>)
      requires Truthful(nft) && (reported ==> applied)
      modifies this
      ensures r.Ok? ==> CUT !in tables && CANDIDATE !in tables
      ensures tables == old(tables) || tables == old(tables) - {CUT, CANDIDATE}
      ensures forall name :: name in old(tables) && name !in tables ==> Cut(old(tables), name)
      ensures (exists name :: name in {CUT, CANDIDATE} && name in old(tables) && !Cut(old(tables), name)) ==> r.Err? && tables == old(tables)
      // with nft answering, it clears whatever cuts there are
      ensures Answers(nft, old(tables)) && OnlyCuts(old(tables)) && reported ==> r.Ok?
    {
      var known := KnownStates(nft);
      if known.Err? || known.value.None? {
        return Err;
      }
      var (cut, candidate) := known.value.value;
      if cut.Unknown? || candidate.Unknown? {
        return Err;
      }
      var exact := (if cut.Exact? then {CUT} else {}) + (if candidate.Exact? then {CANDIDATE} else {});
      if exact == {} {
        return Ok(true);
      }
      assert tables - exact == tables - {CUT, CANDIDATE};
      var ok := Delete(exact, applied, reported);
      if !ok {
        return Err;
      }
      var after := KnownStates(nft);
      if after.Err? || after.value.None? || after.value.value != (Absent, Absent) {
        return Err;
      }
      return Ok(true);
    }
  }
}
