/** The catalog query engine shared by both front-ends: title entries, the
    filter criteria (platform prefix table, region mask, name search), the
    reference meaning of a combination of filters, and the append loops of
    `handleListTitles` / `handleListSearch` proved against it. */
module Catalog {
  import opened Wrappers
  import opened Text
  import IgnoreCase

  /** One catalog entry. `GetTitleEntries` itself is foreign: a catalog is
      given to the model as a sequence of entries per category. */
  datatype TitleEntry = TitleEntry(titleId: Uint64, name: Bytes, region: bv8)

  /** The category flags `TITLE_CATEGORY_*`. */
  datatype Category = Game | Update | Dlc | Demo | AllCategories

  /** The region constants `MCP_REGION_*`, whose values are not part of this model. */
  datatype RegionMasks = RegionMasks(japan: bv8, usa: bv8, europe: bv8)

  /** One filter step. */
  datatype Criterion =
    | OnPlatform(prefixes: seq<Uint64>)
    | InRegion(mask: bv8)
    | NameContains(search: Bytes)

  /** `titleID >> 32` on a `uint64`. */
  function TitleHigh(id: Uint64): (h: nat)
    ensures h < TwoTo32
  {
    id / TwoTo32
  }

  predicate Keeps(c: Criterion, e: TitleEntry) {
    match c
    case OnPlatform(prefixes) => TitleHigh(e.titleId) in prefixes
    case InRegion(mask) => e.region & mask != 0
    case NameContains(search) => IgnoreCase.ContainsIgnoringCase(e.name, search)
  }

  predicate KeepsAll(cs: seq<Criterion>, e: TitleEntry) {
    forall c | c in cs :: Keeps(c, e)
  }

  /** Reference meaning of a filter: the entries of `s` that pass every
      criterion of `cs`, in their original order. */
  function Keep(s: seq<TitleEntry>, cs: seq<Criterion>): (r: seq<TitleEntry>)
    ensures |r| <= |s|
  {
    if s == [] then []
    else
      var init := Keep(s[..|s| - 1], cs);
      if KeepsAll(cs, s[|s| - 1]) then init + [s[|s| - 1]] else init
  }

  /** The filters applied one after another, as the handlers do. */
  function Pipeline(s: seq<TitleEntry>, cs: seq<Criterion>): seq<TitleEntry> {
    if cs == [] then s else Keep(Pipeline(s, cs[..|cs| - 1]), [cs[|cs| - 1]])
  }

  /** `r` is `s` with some elements deleted and the rest in order. */
  predicate IsSubsequence<T(==)>(r: seq<T>, s: seq<T>)
    decreases |s|
  {
    |r| <= |s| &&
    (r == [] ||
     (r[|r| - 1] == s[|s| - 1] && IsSubsequence(r[..|r| - 1], s[..|s| - 1])) ||
     IsSubsequence(r, s[..|s| - 1]))
  }

  // ---- properties of Keep ----

  lemma {:induction false} KeepIsSubsequence(s: seq<TitleEntry>, cs: seq<Criterion>)
    ensures IsSubsequence(Keep(s, cs), s)
  {
    if s != [] {
      KeepIsSubsequence(s[..|s| - 1], cs);
      var init := Keep(s[..|s| - 1], cs);
      var r := Keep(s, cs);
      if KeepsAll(cs, s[|s| - 1]) {
        assert r[..|r| - 1] == init;
      }
    }
  }

  /** Every occurrence of an entry that passes is kept, no other entry is:
      the multiplicity of `x` in the result is its multiplicity in `s` when
      it passes every criterion and 0 otherwise. */
  lemma {:induction false} KeepMultiplicity(s: seq<TitleEntry>, cs: seq<Criterion>, x: TitleEntry)
    ensures multiset(Keep(s, cs))[x] == if KeepsAll(cs, x) then multiset(s)[x] else 0
  {
    if s != [] {
      KeepMultiplicity(s[..|s| - 1], cs, x);
      assert s == s[..|s| - 1] + [s[|s| - 1]];
    }
  }

  lemma KeepMembers(s: seq<TitleEntry>, cs: seq<Criterion>, x: TitleEntry)
    ensures x in Keep(s, cs) <==> x in s && KeepsAll(cs, x)
  {
    KeepMultiplicity(s, cs, x);
  }

  /** Only the criteria that occur matter, not their order or repetition. */
  lemma {:induction false} KeepDependsOnCriteriaSet(s: seq<TitleEntry>, cs1: seq<Criterion>, cs2: seq<Criterion>)
    requires forall c :: c in cs1 <==> c in cs2
    ensures Keep(s, cs1) == Keep(s, cs2)
  {
    if s != [] {
      KeepDependsOnCriteriaSet(s[..|s| - 1], cs1, cs2);
    }
  }

  /** Filtering a filtered sequence by further criteria is filtering once by all of them. */
  lemma {:induction false} KeepThenKeep(s: seq<TitleEntry>, cs1: seq<Criterion>, cs2: seq<Criterion>)
    ensures Keep(Keep(s, cs1), cs2) == Keep(s, cs1 + cs2)
  {
    if s != [] {
      var init := s[..|s| - 1];
      var x := s[|s| - 1];
      KeepThenKeep(init, cs1, cs2);
      var k1 := Keep(s, cs1);
      if KeepsAll(cs1, x) {
        assert k1[..|k1| - 1] == Keep(init, cs1);
      }
      assert KeepsAll(cs1 + cs2, x) <==> KeepsAll(cs1, x) && KeepsAll(cs2, x);
    }
  }

  /** No criteria: the sequence is unchanged. */
  lemma {:induction false} KeepNothing(s: seq<TitleEntry>)
    ensures Keep(s, []) == s
  {
    if s != [] {
      KeepNothing(s[..|s| - 1]);
    }
  }

  /** Filtering is idempotent. */
  lemma KeepIdempotent(s: seq<TitleEntry>, cs: seq<Criterion>)
    ensures Keep(Keep(s, cs), cs) == Keep(s, cs)
  {
    KeepThenKeep(s, cs, cs);
    KeepDependsOnCriteriaSet(s, cs + cs, cs);
  }

  /** Two filters commute. */
  lemma KeepCommutes(s: seq<TitleEntry>, cs1: seq<Criterion>, cs2: seq<Criterion>)
    ensures Keep(Keep(s, cs1), cs2) == Keep(Keep(s, cs2), cs1)
  {
    KeepThenKeep(s, cs1, cs2);
    KeepThenKeep(s, cs2, cs1);
    KeepDependsOnCriteriaSet(s, cs1 + cs2, cs2 + cs1);
  }

  /** Applying the filters one after another keeps exactly the entries that
      pass all of them. */
  lemma {:induction false} PipelineIsConjunction(s: seq<TitleEntry>, cs: seq<Criterion>)
    ensures Pipeline(s, cs) == Keep(s, cs)
  {
    if cs == [] {
      KeepNothing(s);
    } else {
      var front := cs[..|cs| - 1];
      PipelineIsConjunction(s, front);
      KeepThenKeep(s, front, [cs[|cs| - 1]]);
      assert front + [cs[|cs| - 1]] == cs;
    }
  }

  // ---- the append loops ----

  lemma KeepsAllSingleton(c: Criterion, x: TitleEntry)
    ensures KeepsAll([c], x) <==> Keeps(c, x)
  {
    assert c in [c];
  }

  /** `Keep` by one criterion over one more element, the step every loop below takes. */
  lemma KeepSnoc(s: seq<TitleEntry>, i: nat, c: Criterion)
    requires i < |s|
    ensures Keep(s[..i + 1], [c]) ==
            Keep(s[..i], [c]) + (if Keeps(c, s[i]) then [s[i]] else [])
  {
    assert s[..i + 1][..i] == s[..i];
    assert KeepsAll([c], s[i]) <==> Keeps(c, s[i]);
  }

  /** The platform step of `handleListTitles`: keep an entry as soon as some
      prefix equals `TitleID >> 32`. */
  method FilterByPlatform(entries: seq<TitleEntry>, prefixes: seq<Uint64>) returns (filtered: seq<TitleEntry>)
    ensures filtered == Keep(entries, [OnPlatform(prefixes)])
  {
    ghost var cs := [OnPlatform(prefixes)];
    filtered := [];
    var i := 0;
    while i < |entries|
      invariant 0 <= i <= |entries|
      invariant filtered == Keep(entries[..i], cs)
    {
      var entry := entries[i];
      var titleHigh := entry.titleId / TwoTo32;
      KeepSnoc(entries, i, cs[0]);
      var k := 0;
      while k < |prefixes|
        invariant 0 <= k <= |prefixes|
        invariant forall j | 0 <= j < k :: prefixes[j] != titleHigh
        invariant filtered == Keep(entries[..i], cs)
      {
        if titleHigh == prefixes[k] {
          filtered := filtered + [entry];
          break;
        }
        k := k + 1;
      }
      i := i + 1;
    }
    assert entries[..|entries|] == entries;
  }

  /** The region step: keep entries with `Region & mask != 0`. */
  method FilterByRegion(entries: seq<TitleEntry>, mask: bv8) returns (filtered: seq<TitleEntry>)
    ensures filtered == Keep(entries, [InRegion(mask)])
  {
    ghost var cs := [InRegion(mask)];
    filtered := [];
    var i := 0;
    while i < |entries|
      invariant 0 <= i <= |entries|
      invariant filtered == Keep(entries[..i], cs)
    {
      KeepSnoc(entries, i, cs[0]);
      if entries[i].region & mask != 0 {
        filtered := filtered + [entries[i]];
      }
      i := i + 1;
    }
    assert entries[..|entries|] == entries;
  }

  /** The search step: keep entries whose name contains `search`, ignoring case. */
  method FilterBySearch(entries: seq<TitleEntry>, search: Bytes) returns (filtered: seq<TitleEntry>)
    ensures filtered == Keep(entries, [NameContains(search)])
  {
    ghost var cs := [NameContains(search)];
    filtered := [];
    var i := 0;
    while i < |entries|
      invariant 0 <= i <= |entries|
      invariant filtered == Keep(entries[..i], cs)
    {
      KeepSnoc(entries, i, cs[0]);
      var hit := IgnoreCase.ContainsIgnoreCase(entries[i].name, search);
      if hit {
        filtered := filtered + [entries[i]];
      }
      i := i + 1;
    }
    assert entries[..|entries|] == entries;
  }

  // ---- query tokens ----

  function ParseCategory(token: string): Option<Category> {
    match token
    case "game" => Some(Game)
    case "update" => Some(Update)
    case "dlc" => Some(Dlc)
    case "demo" => Some(Demo)
    case "all" => Some(AllCategories)
    case _ => None
  }

  function ParseRegion(token: string, masks: RegionMasks): Option<bv8> {
    match token
    case "japan" => Some(masks.japan)
    case "usa" => Some(masks.usa)
    case "europe" => Some(masks.europe)
    case _ => None
  }

  /** The fixed per-platform table of `TitleID >> 32` prefixes (game, demo,
      system app, system data, system applet, DLC, update; three for vWii). */
  function PlatformPrefixes(token: string): Option<seq<Uint64>> {
    match token
    case "wiiu" => Some([0x00050000, 0x00050002, 0x00050010, 0x0005001B, 0x00050030, 0x0005000C, 0x0005000E])
    case "vwii" => Some([0x00000007, 0x00070002, 0x00070008])
    case "switch" => Some([0x01000000, 0x01000002, 0x01000080, 0x01000081, 0x01000082, 0x0100000C, 0x0100000E])
    case "3ds" => Some([0x00040000, 0x00040002, 0x00040010, 0x0004001B, 0x00040030, 0x0004000C, 0x0004000E])
    case _ => None
  }

  /** The tokens the three tables accept; every other token is refused. */
  lemma AcceptedTokens(token: string, masks: RegionMasks)
    ensures ParseCategory(token).Some? <==>
      token == "game" || token == "update" || token == "dlc" || token == "demo" || token == "all"
    ensures PlatformPrefixes(token).Some? <==> token == "wiiu" || token == "vwii" || token == "switch" || token == "3ds"
    ensures ParseRegion(token, masks).Some? <==> token == "japan" || token == "usa" || token == "europe"
  {
  }

  /** A validated list/search request: which category to fetch and which
      filters to apply, in the order the handler applies them. */
  datatype Query = Query(category: Category, criteria: seq<Criterion>)
}
