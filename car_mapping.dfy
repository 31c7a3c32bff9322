/**
 * Resolution of a rental message's vehicle name to an image slug
 * (packages/shared/src/car-mapping.ts): a reverse index from lower-case
 * "brand model" to vehicle id, and a five-strategy, first-success cascade
 * over the vehicle table.
 */
module CarMapping {
  import opened Common
  import opened Text

  datatype VehicleInfo = VehicleInfo(brand: string, model: string)

  /** One `[id, info]` pair of the vehicle table; the table is kept in `Object.entries` order. */
  type Entry = (string, VehicleInfo)

  predicate IsKey(table: seq<Entry>, id: string) {
    exists i :: 0 <= i < |table| && table[i].0 == id
  }

  /** `${brand} ${model}`.toLowerCase().trim() */
  function FullName(info: VehicleInfo): string {
    Trim(Lower(info.brand + " " + info.model))
  }

  /** The table as (full name, id) pairs, in table order. */
  function Keyed(table: seq<Entry>): (r: seq<(string, string)>)
    ensures |r| == |table|
    ensures forall i :: 0 <= i < |table| ==> r[i] == (FullName(table[i].1), table[i].0)
  {
    seq(|table|, i requires 0 <= i < |table| => (FullName(table[i].1), table[i].0))
  }

  /** A map filled from `pairs` in order, skipping empty keys, so a later pair overwrites. */
  function IndexPairs(pairs: seq<(string, string)>): map<string, string>
    decreases |pairs|
  {
    if pairs == [] then map[]
    else
      var m := IndexPairs(pairs[..|pairs| - 1]);
      var (key, id) := pairs[|pairs| - 1];
      if key != [] then m[key := id] else m
  }

  /** The reverse index `nameToId`. */
  function NameToId(table: seq<Entry>): map<string, string> {
    IndexPairs(Keyed(table))
  }

  /** Pair `i` is the last pair whose key is `k`. */
  predicate LastKeyAt(pairs: seq<(string, string)>, k: string, i: int) {
    0 <= i < |pairs| && pairs[i].0 == k && forall j :: i < j < |pairs| ==> pairs[j].0 != k
  }

  /** A key is in the map iff it is non-empty and some pair has it. */
  lemma {:induction false} IndexPairsKeys(pairs: seq<(string, string)>, k: string)
    ensures k in IndexPairs(pairs) <==> k != [] && exists i :: 0 <= i < |pairs| && pairs[i].0 == k
    decreases |pairs|
  {
    if pairs != [] {
      var n := |pairs| - 1;
      var init := pairs[..n];
      IndexPairsKeys(init, k);
      if !(pairs[n].0 == k && k != []) {
        if k in IndexPairs(init) {
          var i :| 0 <= i < n && init[i].0 == k;
          assert pairs[i].0 == k;
        }
        if k != [] && exists i :: 0 <= i < |pairs| && pairs[i].0 == k {
          var i :| 0 <= i < |pairs| && pairs[i].0 == k;
          assert i < n && init[i].0 == k;
        }
      }
    }
  }

  /** A key in the map maps to the id of the last pair with that key. */
  lemma {:induction false} IndexPairsLast(pairs: seq<(string, string)>, k: string)
    requires k in IndexPairs(pairs)
    ensures exists i :: LastKeyAt(pairs, k, i) && IndexPairs(pairs)[k] == pairs[i].1
    decreases |pairs|
  {
    IndexPairsKeys(pairs, k);
    var n := |pairs| - 1;
    var init := pairs[..n];
    if pairs[n].0 == k {
      assert LastKeyAt(pairs, k, n);
    } else {
      assert k in IndexPairs(init);
      IndexPairsLast(init, k);
      var i :| LastKeyAt(init, k, i) && IndexPairs(init)[k] == init[i].1;
      assert pairs[i] == init[i];
      assert LastKeyAt(pairs, k, i);
    }
  }

  /**
   * A full name is indexed iff it is non-empty and some entry has it; it maps
   * to the id of the last such entry.
   */
  lemma NameToIdLookup(table: seq<Entry>, k: string)
    ensures k in NameToId(table) <==> k != [] && exists i :: 0 <= i < |table| && FullName(table[i].1) == k
    ensures k in NameToId(table) ==>
      exists i :: (0 <= i < |table| && FullName(table[i].1) == k
        && NameToId(table)[k] == table[i].0 && forall j :: i < j < |table| ==> FullName(table[j].1) != k)
  {
    var pairs := Keyed(table);
    IndexPairsKeys(pairs, k);
    if k in NameToId(table) {
      IndexPairsLast(pairs, k);
      var i :| LastKeyAt(pairs, k, i) && IndexPairs(pairs)[k] == pairs[i].1;
      assert FullName(table[i].1) == k;
    }
    if k != [] && exists i :: 0 <= i < |table| && FullName(table[i].1) == k {
      var i :| 0 <= i < |table| && FullName(table[i].1) == k;
      assert pairs[i].0 == k;
    }
  }

  /** The module-level loop that fills `nameToId`. */
  method BuildNameToId(table: seq<Entry>) returns (m: map<string, string>)
    ensures m == NameToId(table)
  {
    m := map[];
    var i := 0;
    while i < |table|
      invariant 0 <= i <= |table|
      invariant m == IndexPairs(Keyed(table)[..i])
    {
      var full := FullName(table[i].1);
      if full != [] {
        m := m[full := table[i].0];
      }
      assert Keyed(table)[..i + 1][..i] == Keyed(table)[..i];
      i := i + 1;
    }
    assert Keyed(table)[..|table|] == Keyed(table);
  }

  // ---------------------------------------------------------------------
  // Stripping the leading tag.

  /** End of a leading `^\[.*?\]` tag: the first "]" after "[", with no line break between. */
  function TagEnd(name: string): (r: Option<nat>)
    ensures r.Some? ==> 2 <= r.value <= |name| && name[0] == '[' && name[r.value - 1] == ']'
  {
    if |name| == 0 || name[0] != '[' then None
    else
      match IndexOf(name, "]", 1)
      case None => None
      case Some(j) =>
        assert name[j..j + 1] == "]";
        if LineEnd(name, 1) >= j then Some(j + 1) else None
  }

  /** The name without a leading tag and the whitespace after it, trimmed. */
  function StripTag(name: string): string {
    match TagEnd(name)
    case Some(e) => Trim(name[SkipWs(name, e)..])
    case None => Trim(name)
  }

  /** A leading "[tag]" without "]" or a line break inside ends right after its "]". */
  lemma TagEndOfTag(tag: string, rest: string)
    requires forall k :: 0 <= k < |tag| ==> tag[k] != ']' && NotLineTerminator(tag[k])
    ensures TagEnd("[" + tag + "]" + rest) == Some(|tag| + 2)
  {
    var name := "[" + tag + "]" + rest;
    var j := |tag| + 1;
    forall k | 1 <= k < j ensures !OccursAt(name, "]", k) && NotLineTerminator(name[k]) {
      assert name[k] == tag[k - 1];
      assert name[k..k + 1][0] == name[k];
    }
    assert name[j..j + 1] == "]";
    IndexOfIs(name, "]", 1, j);
    RunEndIs(name, 1, LineEnd(name, 1), NotLineTerminator);
  }

  /** A leading "[tag]" without "]" or a line break inside is removed, with the spaces after it. */
  lemma StripTagRemovesTag(tag: string, rest: string)
    requires forall k :: 0 <= k < |tag| ==> tag[k] != ']' && NotLineTerminator(tag[k])
    ensures StripTag("[" + tag + "]" + rest) == Trim(rest)
  {
    var name := "[" + tag + "]" + rest;
    TagEndOfTag(tag, rest);
    TrimAfterWs(name, |tag| + 2);
    assert name[|tag| + 2..] == rest;
  }

  /** A name that does not start with "[" is only trimmed. */
  lemma StripTagWithoutTag(name: string)
    requires name == [] || name[0] != '['
    ensures StripTag(name) == Trim(name)
  {
  }

  // ---------------------------------------------------------------------
  // The strategies.

  /** What a table search looks for: a model name, or a two-way id prefix. */
  datatype Criterion = ModelEquals(model: string) | PrefixRelated(word: string)

  predicate Meets(e: Entry, c: Criterion) {
    match c
    case ModelEquals(m) => Lower(e.1.model) == m
    case PrefixRelated(w) => StartsWith(e.0, w) || StartsWith(w, e.0)
  }

  /** Index of the first entry meeting `c`. */
  function FirstIndex(table: seq<Entry>, c: Criterion, from: nat): (r: Option<nat>)
    requires from <= |table|
    ensures r.Some? ==> from <= r.value < |table| && Meets(table[r.value], c)
    ensures r.Some? ==> forall j :: from <= j < r.value ==> !Meets(table[j], c)
    ensures r.None? ==> forall j :: from <= j < |table| ==> !Meets(table[j], c)
    decreases |table| - from
  {
    if from == |table| then None
    else if Meets(table[from], c) then Some(from)
    else FirstIndex(table, c, from + 1)
  }

  /** A `for (const [id, info] of Object.entries(vehiclesMap))` loop that returns at the first hit. */
  method FindFirst(table: seq<Entry>, c: Criterion) returns (r: Option<nat>)
    ensures r == FirstIndex(table, c, 0)
  {
    var i := 0;
    while i < |table|
      invariant 0 <= i <= |table|
      invariant FirstIndex(table, c, i) == FirstIndex(table, c, 0)
    {
      if Meets(table[i], c) {
        return Some(i);
      }
      i := i + 1;
    }
    return None;
  }

  predicate IsLowerAlnum(c: char) {
    'a' <= c <= 'z' || '0' <= c <= '9'
  }

  /** `s.toLowerCase().replace(/[^a-z0-9]/g, "")` */
  function Normalize(s: string): (r: string)
    ensures |r| <= |s|
    ensures forall k :: 0 <= k < |r| ==> IsLowerAlnum(r[k])
  {
    if s == [] then []
    else
      var c := LowerChar(s[0]);
      (if IsLowerAlnum(c) then [c] else []) + Normalize(s[1..])
  }

  /** The last word of the stripped name, lower-cased (strategies 2 and 5). */
  function LastWord(words: seq<string>): string
    requires |words| >= 1
  {
    Lower(words[|words| - 1])
  }

  /** All words but the first, joined and lower-cased (strategy 3). */
  function ModelFull(words: seq<string>): string
    requires |words| >= 1
  {
    Lower(Join(words[1..], " "))
  }

  /** Strategy 1 succeeds: the lower-cased name is an indexed full name with a truthy id. */
  predicate ExactHit(table: seq<Entry>, lower: string) {
    lower in NameToId(table) && NameToId(table)[lower] != []
  }

  /** Property keys a plain JSON object inherits from `Object.prototype` that are lower-case alphanumeric. */
  const InheritedKeys: set<string> := {"constructor"}

  /**
   * The cascade on the stripped name, with the strategy-4 lookup
   * `vehiclesMap[normalized]` seeing the table's own ids and the inherited
   * keys `inherited`.
   */
  function Cascade(table: seq<Entry>, stripped: string, inherited: set<string>): Option<string> {
    var lower := Lower(stripped);
    if ExactHit(table, lower) then Some(NameToId(table)[lower])
    else ByModel(table, stripped, SplitWs(stripped), inherited)
  }

  /** Strategy 2, then the rest: the first entry whose model is the last word. */
  function ByModel(table: seq<Entry>, stripped: string, words: seq<string>, inherited: set<string>): Option<string>
    requires |words| >= 1
  {
    var i := FirstIndex(table, ModelEquals(LastWord(words)), 0);
    if i.Some? then Some(table[i.value].0) else ByFullModel(table, stripped, words, inherited)
  }

  /** Strategy 3, only for names of several words, then the rest. */
  function ByFullModel(table: seq<Entry>, stripped: string, words: seq<string>, inherited: set<string>): Option<string>
    requires |words| >= 1
  {
    var i := if |words| > 1 then FirstIndex(table, ModelEquals(ModelFull(words)), 0) else None;
    if i.Some? then Some(table[i.value].0) else ById(table, stripped, words, inherited)
  }

  /** Strategy 4, then strategy 5. */
  function ById(table: seq<Entry>, stripped: string, words: seq<string>, inherited: set<string>): Option<string>
    requires |words| >= 1
  {
    var normalized := Normalize(stripped);
    if IsKey(table, normalized) || normalized in inherited then Some(normalized)
    else ByPrefix(table, LastWord(words))
  }

  /** Strategy 5: the first id that is a prefix of the last word or has it as a prefix. */
  function ByPrefix(table: seq<Entry>, word: string): Option<string> {
    var i := FirstIndex(table, PrefixRelated(word), 0);
    if i.Some? then Some(table[i.value].0) else None
  }

  function Resolve(table: seq<Entry>, name: string, inherited: set<string>): Option<string> {
    Cascade(table, StripTag(name), inherited)
  }

  /**
   * `vehicleNameToImageSlug` as written: the lookup also sees `Object.prototype`.
   * It departs from the corrected cascade only by answering with an inherited
   * key that is not a table id.
   */
  function SlugOfAsWritten(table: seq<Entry>, name: string): (r: Option<string>)
    ensures r != SlugOf(table, name) ==>
      var normalized := Normalize(StripTag(name));
      normalized in InheritedKeys && !IsKey(table, normalized) && r == Some(normalized)
  {
    Resolve(table, name, InheritedKeys)
  }

  /** `vehicleNameToImageSlug` with strategy 4 restricted to the table's own ids. */
  function SlugOf(table: seq<Entry>, name: string): Option<string> {
    Resolve(table, name, {})
  }

  /** The cascade as the module runs it, over the prebuilt `nameToId`. */
  method VehicleNameToImageSlug(table: seq<Entry>, nameToId: map<string, string>, name: string)
    returns (r: Option<string>)
    requires nameToId == NameToId(table)
    ensures r == SlugOf(table, name)
  {
    var stripped := StripTag(name);
    var lower := Lower(stripped);
    if lower in nameToId && nameToId[lower] != [] {
      return Some(nameToId[lower]);
    }
    var words := SplitWs(stripped);
    assert SlugOf(table, name) == ByModel(table, stripped, words, {});
    var model := LastWord(words);
    var i := FindFirst(table, ModelEquals(model));
    if i.Some? {
      return Some(table[i.value].0);
    }
    assert SlugOf(table, name) == ByFullModel(table, stripped, words, {});
    if |words| > 1 {
      i := FindFirst(table, ModelEquals(ModelFull(words)));
      if i.Some? {
        return Some(table[i.value].0);
      }
    }
    assert SlugOf(table, name) == ById(table, stripped, words, {});
    var normalized := Normalize(stripped);
    if IsKey(table, normalized) {
      return Some(normalized);
    }
    assert SlugOf(table, name) == ByPrefix(table, model);
    i := FindFirst(table, PrefixRelated(model));
    if i.Some? {
      return Some(table[i.value].0);
    }
    return None;
  }

  // ---------------------------------------------------------------------
  // Properties of the cascade.

  /** No entry meets `c` iff the search finds nothing. */
  lemma FirstIndexNone(table: seq<Entry>, c: Criterion)
    ensures FirstIndex(table, c, 0).None? <==> forall i :: 0 <= i < |table| ==> !Meets(table[i], c)
  {
  }

  lemma ByPrefixFacts(table: seq<Entry>, word: string)
    ensures ByPrefix(table, word).Some? ==> IsKey(table, ByPrefix(table, word).value)
    ensures ByPrefix(table, word).None? <==>
      forall i :: 0 <= i < |table| ==> !StartsWith(table[i].0, word) && !StartsWith(word, table[i].0)
  {
    FirstIndexNone(table, PrefixRelated(word));
  }

  lemma ByIdFacts(table: seq<Entry>, stripped: string, words: seq<string>)
    requires |words| >= 1
    ensures ById(table, stripped, words, {}).Some? ==> IsKey(table, ById(table, stripped, words, {}).value)
    ensures ById(table, stripped, words, {}).None? <==>
      !IsKey(table, Normalize(stripped)) && ByPrefix(table, LastWord(words)).None?
  {
    ByPrefixFacts(table, LastWord(words));
  }

  lemma ByFullModelFacts(table: seq<Entry>, stripped: string, words: seq<string>)
    requires |words| >= 1
    ensures ByFullModel(table, stripped, words, {}).Some? ==> IsKey(table, ByFullModel(table, stripped, words, {}).value)
    ensures ByFullModel(table, stripped, words, {}).None? <==>
      && (|words| > 1 ==> forall i :: 0 <= i < |table| ==> Lower(table[i].1.model) != ModelFull(words))
      && ById(table, stripped, words, {}).None?
  {
    ByIdFacts(table, stripped, words);
    FirstIndexNone(table, ModelEquals(ModelFull(words)));
  }

  lemma ByModelFacts(table: seq<Entry>, stripped: string, words: seq<string>)
    requires |words| >= 1
    ensures ByModel(table, stripped, words, {}).Some? ==> IsKey(table, ByModel(table, stripped, words, {}).value)
    ensures ByModel(table, stripped, words, {}).None? <==>
      && (forall i :: 0 <= i < |table| ==> Lower(table[i].1.model) != LastWord(words))
      && ByFullModel(table, stripped, words, {}).None?
  {
    ByFullModelFacts(table, stripped, words);
    FirstIndexNone(table, ModelEquals(LastWord(words)));
  }

  /** Every slug the corrected cascade returns is an id of the table. */
  lemma SlugIsKey(table: seq<Entry>, name: string)
    ensures SlugOf(table, name).Some? ==> IsKey(table, SlugOf(table, name).value)
  {
    var stripped := StripTag(name);
    NameToIdLookup(table, Lower(stripped));
    ByModelFacts(table, stripped, SplitWs(stripped));
  }

  /** The cascade yields nothing exactly when all five strategies fail. */
  lemma SlugNoneIff(table: seq<Entry>, name: string)
    ensures var stripped := StripTag(name);
      var words := SplitWs(stripped);
      SlugOf(table, name).None? <==>
        && !ExactHit(table, Lower(stripped))
        && (forall i :: 0 <= i < |table| ==> Lower(table[i].1.model) != LastWord(words))
        && (|words| > 1 ==> forall i :: 0 <= i < |table| ==> Lower(table[i].1.model) != ModelFull(words))
        && !IsKey(table, Normalize(stripped))
        && (forall i :: 0 <= i < |table| ==>
              !StartsWith(table[i].0, LastWord(words)) && !StartsWith(LastWord(words), table[i].0))
  {
    var stripped := StripTag(name);
    var words := SplitWs(stripped);
    ByModelFacts(table, stripped, words);
    ByFullModelFacts(table, stripped, words);
    ByIdFacts(table, stripped, words);
    ByPrefixFacts(table, LastWord(words));
  }

  /**
   * Strategies are tried in order: when the exact lookup fails and some entry's
   * model equals the last word, the first such entry's id is the slug.
   */
  lemma SlugByModelWhenNoExact(table: seq<Entry>, name: string, i: nat)
    requires var stripped := StripTag(name);
      && !ExactHit(table, Lower(stripped))
      && i < |table| && Lower(table[i].1.model) == LastWord(SplitWs(stripped))
      && forall j :: 0 <= j < i ==> Lower(table[j].1.model) != LastWord(SplitWs(stripped))
    ensures SlugOf(table, name) == Some(table[i].0)
  {
    var words := SplitWs(StripTag(name));
    var r := FirstIndex(table, ModelEquals(LastWord(words)), 0);
    assert r == Some(i) by {
      assert Meets(table[i], ModelEquals(LastWord(words)));
    }
  }

  /** An exact "brand model" hit wins over every other strategy. */
  lemma SlugExactFirst(table: seq<Entry>, name: string)
    requires ExactHit(table, Lower(StripTag(name)))
    ensures SlugOf(table, name) == Some(NameToId(table)[Lower(StripTag(name))])
    ensures exists i :: (0 <= i < |table| && FullName(table[i].1) == Lower(StripTag(name))
      && SlugOf(table, name) == Some(table[i].0))
  {
    NameToIdLookup(table, Lower(StripTag(name)));
  }

  // ---------------------------------------------------------------------
  // The inherited-key lookup of the code as written.

  /** The table of one vehicle, "Ford Focus" with id "t20". */
  const FocusTable: seq<Entry> := [("t20", VehicleInfo("Ford", "Focus"))]

  /** On ASCII letters and digits, normalising is lower-casing. */
  lemma {:induction false} NormalizeAlnum(s: string)
    requires forall k :: 0 <= k < |s| ==> 'a' <= s[k] <= 'z' || 'A' <= s[k] <= 'Z' || '0' <= s[k] <= '9'
    ensures Normalize(s) == Lower(s)
  {
    if s != [] {
      NormalizeAlnum(s[1..]);
      assert Lower(s) == [LowerChar(s[0])] + Lower(s[1..]);
    }
  }

  const ConstructorName: string := "Constructor"

  lemma ConstructorStripped()
    ensures StripTag(ConstructorName) == ConstructorName
  {
    TrimUnchanged(ConstructorName);
  }

  lemma ConstructorLower()
    ensures Lower(ConstructorName) == "constructor"
  {
    var r := Lower(ConstructorName);
    forall k | 0 <= k < 11 ensures r[k] == "constructor"[k] {
      assert r[k] == LowerChar(ConstructorName[k]);
    }
  }

  lemma ConstructorNormalized()
    ensures Normalize(ConstructorName) == "constructor"
  {
    NormalizeAlnum(ConstructorName);
    ConstructorLower();
  }

  lemma ConstructorOneWord()
    ensures SplitWs(ConstructorName) == [ConstructorName]
  {
    RunEndIs(ConstructorName, 0, |ConstructorName|, NotWhitespace);
  }

  lemma ConstructorNotIndexed()
    ensures !ExactHit(FocusTable, "constructor")
  {
    NameToIdLookup(FocusTable, "constructor");
    assert |FullName(FocusTable[0].1)| <= 10;
  }

  lemma ConstructorMeetsNothing()
    ensures !Meets(FocusTable[0], ModelEquals("constructor"))
    ensures !Meets(FocusTable[0], PrefixRelated("constructor"))
  {
    assert |Lower(FocusTable[0].1.model)| == 5;
    assert "constructor"[..3][0] != "t20"[0];
  }

  lemma ConstructorNoKey()
    ensures !IsKey(FocusTable, "constructor")
  {
    assert |FocusTable[0].0| == 3;
  }

  /** After the exact lookup fails, only the inherited key can produce a result. */
  lemma ConstructorAfterExact(inherited: set<string>)
    ensures ByModel(FocusTable, ConstructorName, [ConstructorName], inherited)
      == if "constructor" in inherited then Some("constructor") else None
  {
    var words := [ConstructorName];
    var lower := "constructor";
    ConstructorLower();
    ConstructorNormalized();
    assert LastWord(words) == lower;
    ConstructorMeetsNothing();
    assert FirstIndex(FocusTable, ModelEquals(lower), 0) == None;
    assert FirstIndex(FocusTable, PrefixRelated(lower), 0) == None;
    ConstructorNoKey();
  }

  /** A one-word name without a tag that misses the exact lookup goes on to strategy 2. */
  lemma ResolveOneWordMiss(table: seq<Entry>, name: string, inherited: set<string>)
    requires StripTag(name) == name && SplitWs(name) == [name] && !ExactHit(table, Lower(name))
    ensures Resolve(table, name, inherited) == ByModel(table, name, [name], inherited)
  {
  }

  /**
   * The vehicle name "Constructor" normalises to "constructor", which a plain
   * object inherits from `Object.prototype`; the code as written returns it
   * although the table has no such id.
   */
  lemma ConstructorResolvesToNonKey()
    ensures SlugOfAsWritten(FocusTable, ConstructorName) == Some("constructor")
    ensures !IsKey(FocusTable, "constructor")
    ensures SlugOf(FocusTable, ConstructorName) == None
  {
    ConstructorStripped();
    ConstructorLower();
    ConstructorOneWord();
    ConstructorNotIndexed();
    ResolveOneWordMiss(FocusTable, ConstructorName, InheritedKeys);
    ResolveOneWordMiss(FocusTable, ConstructorName, {});
    ConstructorAfterExact(InheritedKeys);
    ConstructorAfterExact({});
    ConstructorNoKey();
  }
}
