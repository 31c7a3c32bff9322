/**
 * The vehicle-table scraper (scripts/scrape-vehicles.ts): the bracket matcher
 * that cuts the `"results":[…]` array out of the wiki's payload, the filter
 * that turns parsed result records into vehicles, and the first-wins merge of
 * all pages into one table keyed by model id.
 */
module ScrapeVehicles {
  import opened Common

  /** `[` count minus `]` count in `str[lo..hi]`. */
  function Depth(str: string, lo: nat, hi: nat): int
    requires lo <= hi <= |str|
    decreases hi
  {
    if hi == lo then 0
    else Depth(str, lo, hi - 1) + (if str[hi - 1] == '[' then 1 else if str[hi - 1] == ']' then -1 else 0)
  }

  /** `str[lo..hi]` opens with `[`, stays open until its last character, and is closed there. */
  predicate Balanced(str: string, lo: nat, hi: nat)
    requires lo < hi <= |str|
  {
    && Depth(str, lo, hi) == 0
    && forall k :: lo < k < hi ==> Depth(str, lo, k) > 0
  }

  /**
   * `findMatchingBracket`: the index of the `]` that closes the `[` at `openPos`,
   * or -1 when there is no `[` there or it is never closed.
   */
  method FindMatchingBracket(str: string, openPos: int) returns (r: int)
    ensures !(0 <= openPos < |str| && str[openPos] == '[') ==> r == -1
    ensures r != -1 ==> 0 <= openPos < r < |str| && str[r] == ']' && Balanced(str, openPos, r + 1)
    ensures r == -1 && 0 <= openPos < |str| && str[openPos] == '[' ==>
      forall k :: openPos < k <= |str| ==> Depth(str, openPos, k) > 0
  {
    if !(0 <= openPos < |str| && str[openPos] == '[') {
      return -1;
    }
    var depth := 0;
    var i := openPos;
    while i < |str|
      invariant openPos <= i <= |str|
      invariant depth == Depth(str, openPos, i)
      invariant forall k :: openPos < k <= i ==> Depth(str, openPos, k) > 0
    {
      if str[i] == '[' {
        depth := depth + 1;
      } else if str[i] == ']' {
        depth := depth - 1;
        if depth == 0 {
          assert i > openPos;
          return i;
        }
      }
      assert depth == Depth(str, openPos, i + 1);
      i := i + 1;
    }
    return -1;
  }

  /** A JSON record of the `results` array; absent, null and non-string values are `None`. */
  datatype RawRecord = RawRecord(
    model: Option<string>,
    brand: Option<string>,
    title: Option<string>,
    name: Option<string>,
    kind: Option<string>)

  /**
   * An element of the `results` array: a record, or `null`, on which reading
   * `r.model` throws. (A number or a string has no such fields: it is a record
   * whose fields are all absent.)
   */
  datatype Element = Object(record: RawRecord) | Null

  datatype WikiVehicle = WikiVehicle(model: string, brand: string, title: string, name: string, kind: string)

  predicate Truthy(f: Option<string>) {
    f.Some? && f.value != ""
  }

  /** `f || ""` */
  function OrEmpty(f: Option<string>): string {
    if Truthy(f) then f.value else ""
  }

  /** `r.model && r.type` */
  predicate Kept(r: RawRecord) {
    Truthy(r.model) && Truthy(r.kind)
  }

  function ToVehicle(r: RawRecord): (v: WikiVehicle)
    requires Kept(r)
  {
    WikiVehicle(r.model.value, OrEmpty(r.brand), OrEmpty(r.title), OrEmpty(r.name), r.kind.value)
  }

  /** How many elements the loop reads before the first `null`: all of them when there is none. */
  function Reached(results: seq<Element>): (n: nat)
    ensures n <= |results|
    ensures forall j :: 0 <= j < n ==> results[j].Object?
    ensures n < |results| ==> results[n].Null?
  {
    if results == [] || results[0].Null? then 0 else 1 + Reached(results[1..])
  }

  /**
   * The vehicles extraction keeps from the parsed results, in their order. A
   * `null` element throws, and the `catch` returns what was pushed before it.
   */
  function Extracted(results: seq<Element>): (vs: seq<WikiVehicle>)
    ensures |vs| <= |results|
    ensures forall v :: v in vs ==> v.model != "" && v.kind != ""
  {
    if results == [] || results[0].Null? then []
    else (if Kept(results[0].record) then [ToVehicle(results[0].record)] else []) + Extracted(results[1..])
  }

  /**
   * Every extracted vehicle comes from a kept record before the first `null`,
   * and every such record yields its vehicle.
   */
  lemma {:induction false} ExtractedRecords(results: seq<Element>)
    ensures var vs := Extracted(results);
      forall v :: v in vs ==>
        exists i :: 0 <= i < Reached(results) && Kept(results[i].record) && ToVehicle(results[i].record) == v
    ensures var vs := Extracted(results);
      forall i :: 0 <= i < Reached(results) && Kept(results[i].record) ==> ToVehicle(results[i].record) in vs
    decreases |results|
  {
    if results != [] && results[0].Object? {
      var rest := results[1..];
      ExtractedRecords(rest);
      var vs := Extracted(results);
      forall v | v in vs
        ensures exists i :: 0 <= i < Reached(results) && Kept(results[i].record) && ToVehicle(results[i].record) == v
      {
        if Kept(results[0].record) && v == ToVehicle(results[0].record) {
          assert 0 < Reached(results);
        } else {
          assert v in Extracted(rest);
          var k :| 0 <= k < Reached(rest) && Kept(rest[k].record) && ToVehicle(rest[k].record) == v;
          assert results[k + 1] == rest[k];
        }
      }
      forall i | 0 <= i < Reached(results) && Kept(results[i].record)
        ensures ToVehicle(results[i].record) in vs
      {
        if i > 0 {
          assert rest[i - 1] == results[i];
        }
      }
    }
  }

  /** Nothing after a `null` element is read. */
  lemma {:induction false} ExtractedStopsAtNull(a: seq<Element>, b: seq<Element>)
    ensures Extracted(a + [Null] + b) == Extracted(a)
    decreases |a|
  {
    if a == [] {
      assert (a + [Null] + b)[0] == Null;
    } else {
      assert (a + [Null] + b)[0] == a[0] && (a + [Null] + b)[1..] == a[1..] + [Null] + b;
      if a[0].Object? {
        ExtractedStopsAtNull(a[1..], b);
      }
    }
  }

  /** Before any `null`, one more element adds its vehicle, if it is a kept record, at the end. */
  lemma {:induction false} ExtractedSnoc(a: seq<Element>, e: Element)
    requires forall j :: 0 <= j < |a| ==> a[j].Object?
    ensures Extracted(a + [e]) == Extracted(a) + (if e.Object? && Kept(e.record) then [ToVehicle(e.record)] else [])
    decreases |a|
  {
    if a == [] {
      assert [e][1..] == [];
    } else {
      assert (a + [e])[0] == a[0] && (a + [e])[1..] == a[1..] + [e];
      ExtractedSnoc(a[1..], e);
    }
  }

  /** The loop of `extractVehiclesFromRSC` that pushes each kept record, inside its `try`. */
  method ExtractVehicles(results: seq<Element>) returns (vehicles: seq<WikiVehicle>)
    ensures vehicles == Extracted(results)
  {
    vehicles := [];
    var i := 0;
    while i < |results|
      invariant 0 <= i <= |results|
      invariant forall j :: 0 <= j < i ==> results[j].Object?
      invariant vehicles == Extracted(results[..i])
    {
      if results[i].Null? {
        assert results == results[..i] + [Null] + results[i + 1..];
        ExtractedStopsAtNull(results[..i], results[i + 1..]);
        return;
      }
      var r := results[i].record;
      if Truthy(r.model) && Truthy(r.kind) {
        vehicles := vehicles + [WikiVehicle(r.model.value, OrEmpty(r.brand), OrEmpty(r.title), OrEmpty(r.name), r.kind.value)];
      }
      assert results[..i + 1] == results[..i] + [results[i]];
      ExtractedSnoc(results[..i], results[i]);
      i := i + 1;
    }
    assert results[..i] == results;
  }

  /** Missing brand, title and name become empty strings; the record is still kept. */
  lemma ExtractedDefaults(model: string, kind: string)
    requires model != "" && kind != ""
    ensures Extracted([Object(RawRecord(Some(model), None, None, None, Some(kind)))]) == [WikiVehicle(model, "", "", "", kind)]
  {
    var r := Object(RawRecord(Some(model), None, None, None, Some(kind)));
    assert [r][1..] == [];
  }

  /** A record without a model or a type is dropped. */
  lemma ExtractedDropsIncomplete(r: RawRecord)
    requires !Kept(r)
    ensures Extracted([Object(r)]) == []
  {
    assert [Object(r)][1..] == [];
  }

  datatype VehicleEntry = VehicleEntry(brand: string, model: string, category: string)

  /** The merged table: `[model id, entry]` pairs in insertion order, as a `Map` keeps them. */
  type Table = seq<(string, VehicleEntry)>

  predicate Has(all: Table, id: string) {
    exists i :: 0 <= i < |all| && all[i].0 == id
  }

  predicate UniqueKeys(all: Table) {
    forall i, j :: 0 <= i < j < |all| ==> all[i].0 != all[j].0
  }

  function EntryOf(v: WikiVehicle): VehicleEntry {
    VehicleEntry(v.brand, v.title, v.kind)
  }

  /** The table after `vs` are added in order, each only if its model id is new. */
  function Merged(all: Table, vs: seq<WikiVehicle>): Table
    decreases |vs|
  {
    if vs == [] then all
    else if Has(all, vs[0].model) then Merged(all, vs[1..])
    else Merged(all + [(vs[0].model, EntryOf(vs[0]))], vs[1..])
  }

  /** The first vehicle of `vs` with model id `id`. */
  function FirstWith(vs: seq<WikiVehicle>, id: string): Option<WikiVehicle> {
    if vs == [] then None else if vs[0].model == id then Some(vs[0]) else FirstWith(vs[1..], id)
  }

  /** The entry the first vehicle with model id `id` would make. */
  function FirstEntry(vs: seq<WikiVehicle>, id: string): Option<VehicleEntry> {
    match FirstWith(vs, id)
    case None => None
    case Some(v) => Some(EntryOf(v))
  }

  /** The entry a table holds for `id`. */
  function Lookup(all: Table, id: string): Option<VehicleEntry> {
    if all == [] then None else if all[0].0 == id then Some(all[0].1) else Lookup(all[1..], id)
  }

  lemma {:induction false} LookupHas(all: Table, id: string)
    ensures Lookup(all, id).Some? <==> Has(all, id)
    decreases |all|
  {
    if all != [] {
      LookupHas(all[1..], id);
      if all[0].0 != id && Has(all, id) {
        var i :| 0 <= i < |all| && all[i].0 == id;
        assert all[1..][i - 1].0 == id;
      }
    }
  }

  lemma {:induction false} LookupAppend(all: Table, e: (string, VehicleEntry), id: string)
    ensures Lookup(all + [e], id) == if Has(all, id) then Lookup(all, id) else if e.0 == id then Some(e.1) else None
    decreases |all|
  {
    if all != [] {
      assert (all + [e])[1..] == all[1..] + [e];
      LookupAppend(all[1..], e, id);
      if all[0].0 != id && Has(all, id) {
        var i :| 0 <= i < |all| && all[i].0 == id;
        assert all[1..][i - 1].0 == id;
      }
    }
  }

  /**
   * First wins: after merging, every id already in the table keeps its entry,
   * every new id maps to the first vehicle with that id, and the keys stay unique.
   */
  lemma {:induction false} MergedFirstWins(all: Table, vs: seq<WikiVehicle>, id: string)
    requires UniqueKeys(all)
    ensures UniqueKeys(Merged(all, vs))
    ensures Has(all, id) ==> Lookup(Merged(all, vs), id) == Lookup(all, id)
    ensures !Has(all, id) ==> Lookup(Merged(all, vs), id) == FirstEntry(vs, id)
    decreases |vs|
  {
    if vs == [] {
      LookupHas(all, id);
    } else {
      var v := vs[0];
      if v.model != id {
        assert FirstEntry(vs, id) == FirstEntry(vs[1..], id);
      } else {
        assert FirstEntry(vs, id) == Some(EntryOf(v));
      }
      if Has(all, v.model) {
        MergedFirstWins(all, vs[1..], id);
      } else {
        var next := all + [(v.model, EntryOf(v))];
        assert UniqueKeys(next);
        LookupAppend(all, (v.model, EntryOf(v)), id);
        MergedFirstWins(next, vs[1..], id);
        if Has(all, id) {
          var i :| 0 <= i < |all| && all[i].0 == id;
          assert next[i].0 == id;
        } else if v.model == id {
          assert next[|all|].0 == id;
        }
      }
    }
  }

  /** Adds one page of vehicles: `if (!allVehicles.has(v.model)) allVehicles.set(…)`. */
  method MergePage(all: Table, vehicles: seq<WikiVehicle>) returns (r: Table)
    ensures r == Merged(all, vehicles)
  {
    r := all;
    var i := 0;
    while i < |vehicles|
      invariant 0 <= i <= |vehicles|
      invariant Merged(all, vehicles) == Merged(r, vehicles[i..])
    {
      var v := vehicles[i];
      var present := false;
      var j := 0;
      while j < |r| && !present
        invariant 0 <= j <= |r|
        invariant present <==> Has(r[..j], v.model)
        invariant !present ==> forall k :: 0 <= k < j ==> r[k].0 != v.model
      {
        if r[j].0 == v.model {
          present := true;
        }
        assert r[..j + 1][j] == r[j];
        j := j + 1;
      }
      assert present <==> Has(r, v.model) by {
        if !present {
          assert j == |r|;
        } else {
          var k :| 0 <= k < j && r[..j][k].0 == v.model;
          assert r[k].0 == v.model;
        }
      }
      assert vehicles[i..][1..] == vehicles[i + 1..];
      if !present {
        r := r + [(v.model, EntryOf(v))];
      }
      i := i + 1;
    }
  }

  /** All pages' extracted vehicles, one after the other. */
  function AllExtracted(pages: seq<seq<Element>>): seq<WikiVehicle> {
    if pages == [] then [] else AllExtracted(pages[..|pages| - 1]) + Extracted(pages[|pages| - 1])
  }

  lemma {:induction false} MergedConcat(all: Table, a: seq<WikiVehicle>, b: seq<WikiVehicle>)
    ensures Merged(all, a + b) == Merged(Merged(all, a), b)
    decreases |a|
  {
    if a != [] {
      assert a + b != [] && (a + b)[0] == a[0] && (a + b)[1..] == a[1..] + b;
      if Has(all, a[0].model) {
        MergedConcat(all, a[1..], b);
      } else {
        MergedConcat(all + [(a[0].model, EntryOf(a[0]))], a[1..], b);
      }
    } else {
      assert a + b == b;
    }
  }

  /** Step 1 of `main`: every page's results, extracted and merged in page order. */
  method CollectPages(pages: seq<seq<Element>>) returns (all: Table)
    ensures all == Merged([], AllExtracted(pages))
  {
    all := [];
    var p := 0;
    while p < |pages|
      invariant 0 <= p <= |pages|
      invariant all == Merged([], AllExtracted(pages[..p]))
    {
      var vehicles := ExtractVehicles(pages[p]);
      assert pages[..p + 1][..p] == pages[..p];
      MergedConcat([], AllExtracted(pages[..p]), vehicles);
      all := MergePage(all, vehicles);
      p := p + 1;
    }
    assert pages[..p] == pages;
  }

  /** The collected table has one entry per model id, taken from the first page and record that named it. */
  lemma CollectedFirstWins(pages: seq<seq<Element>>, id: string)
    ensures UniqueKeys(Merged([], AllExtracted(pages)))
    ensures var vs := AllExtracted(pages);
      Lookup(Merged([], vs), id) == FirstEntry(vs, id)
  {
    MergedFirstWins([], AllExtracted(pages), id);
  }
}
