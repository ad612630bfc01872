/** The title endpoints of the service: `handleListTitles` (category,
    platform, region and search filters) and `handleGetTitle`. A listing
    reply is the list of entries that pass the filters, and the document of
    `ListingDocument` is what the JSON encoding prints for each. */
module ApiTitles {
  import opened Wrappers
  import opened Text
  import opened Http
  import IgnoreCase
  import opened Catalog
  import Platform

  /** Query defaults: category "" means "game", platform "" means "all". */
  function CategoryToken(category: string): string {
    if category == "" then "game" else category
  }

  function PlatformToken(platform: string): string {
    if platform == "" then "all" else platform
  }

  predicate SkipsRegion(region: string) {
    region == "" || region == "all"
  }

  /** The platform step a `platform=` token asks for (none for "all"). */
  function PlatformCriteria(platform: string): seq<Criterion> {
    if platform == "all" || PlatformPrefixes(platform).None? then []
    else [OnPlatform(PlatformPrefixes(platform).value)]
  }

  /** The region step a `region=` token asks for (none for "" and "all"). */
  function RegionCriteria(region: string, masks: RegionMasks): seq<Criterion> {
    if SkipsRegion(region) || ParseRegion(region, masks).None? then []
    else [InRegion(ParseRegion(region, masks).value)]
  }

  /** The search step a `search=` value asks for (none for the empty string). */
  function SearchCriteria(search: Bytes): seq<Criterion> {
    if search == [] then [] else [NameContains(search)]
  }

  predicate ValidFilterTokens(platform: string, region: string, masks: RegionMasks) {
    && (platform == "all" || PlatformPrefixes(platform).Some?)
    && (SkipsRegion(region) || ParseRegion(region, masks).Some?)
  }

  function FilterCriteria(platform: string, region: string, search: Bytes, masks: RegionMasks): seq<Criterion> {
    PlatformCriteria(platform) + RegionCriteria(region, masks) + SearchCriteria(search)
  }

  /** The validation part of `handleListTitles`, in the order the handler
      checks: category, then platform, then region. */
  function ParseListQuery(category: string, search: Bytes, region: string, platform: string, masks: RegionMasks)
    : (r: Result<Query, HttpError>)
    ensures r.Err? ==> r.error.status == StatusBadRequest
    ensures r.Ok? <==> ParseCategory(CategoryToken(category)).Some? && ValidFilterTokens(PlatformToken(platform), region, masks)
    ensures r.Ok? ==> ParseCategory(CategoryToken(category)) == Some(r.value.category)
    ensures r.Ok? ==> ValidFilterTokens(PlatformToken(platform), region, masks)
    ensures r.Ok? ==> r.value.criteria == FilterCriteria(PlatformToken(platform), region, search, masks)
  {
    var platform := PlatformToken(platform);
    match ParseCategory(CategoryToken(category))
    case None => Err(HttpError(StatusBadRequest, "Invalid category"))
    case Some(flag) =>
      if platform != "all" && PlatformPrefixes(platform).None? then
        Err(HttpError(StatusBadRequest, "Invalid platform"))
      else if !SkipsRegion(region) && ParseRegion(region, masks).None? then
        Err(HttpError(StatusBadRequest, "Invalid region"))
      else
        Ok(Query(flag, FilterCriteria(platform, region, search, masks)))
  }

  /** Which token is rejected, and in which order: an unknown category wins
      over an unknown platform, which wins over an unknown region. */
  lemma ListQueryRejections(category: string, search: Bytes, region: string, platform: string, masks: RegionMasks)
    ensures var r := ParseListQuery(category, search, region, platform, masks);
      && (r == Err(HttpError(StatusBadRequest, "Invalid category"))
          <==> ParseCategory(CategoryToken(category)).None?)
      && (r == Err(HttpError(StatusBadRequest, "Invalid platform"))
          <==> ParseCategory(CategoryToken(category)).Some?
               && PlatformToken(platform) != "all" && PlatformPrefixes(PlatformToken(platform)).None?)
      && (r == Err(HttpError(StatusBadRequest, "Invalid region"))
          <==> ParseCategory(CategoryToken(category)).Some?
               && (PlatformToken(platform) == "all" || PlatformPrefixes(PlatformToken(platform)).Some?)
               && !SkipsRegion(region) && ParseRegion(region, masks).None?)
  {
  }

  /** The reply of a successful `handleListTitles`. */
  function ListReply(catalog: Category -> seq<TitleEntry>, r: Result<Query, HttpError>): Result<seq<TitleEntry>, HttpError> {
    match r
    case Err(e) => Err(e)
    case Ok(q) => Ok(Keep(catalog(q.category), q.criteria))
  }

  /** `handleListTitles`: fetch the category, then narrow `entries` step by
      step. The reply holds exactly the catalog entries of the category that
      pass every requested filter, in catalog order. */
  method HandleListTitles(catalog: Category -> seq<TitleEntry>, masks: RegionMasks,
                          category: string, search: Bytes, region: string, platform: string)
    returns (res: Result<seq<TitleEntry>, HttpError>)
    ensures res == ListReply(catalog, ParseListQuery(category, search, region, platform, masks))
  {
    var category := CategoryToken(category);
    var platform := PlatformToken(platform);
    var categoryFlag := ParseCategory(category);
    if categoryFlag.None? {
      return Err(HttpError(StatusBadRequest, "Invalid category"));
    }
    var entries := catalog(categoryFlag.value);
    ghost var source := entries;
    assert entries == Pipeline(source, []);

    if platform != "all" {
      var prefixes := PlatformPrefixes(platform);
      if prefixes.None? {
        return Err(HttpError(StatusBadRequest, "Invalid platform"));
      }
      entries := FilterByPlatform(entries, prefixes.value);
      PipelineStep(source, [], OnPlatform(prefixes.value));
    }
    ghost var cs := PlatformCriteria(platform);
    assert entries == Pipeline(source, cs);

    if region != "" && region != "all" {
      var regionMask := ParseRegion(region, masks);
      if regionMask.None? {
        return Err(HttpError(StatusBadRequest, "Invalid region"));
      }
      entries := FilterByRegion(entries, regionMask.value);
      PipelineStep(source, cs, InRegion(regionMask.value));
    }
    cs := cs + RegionCriteria(region, masks);
    assert entries == Pipeline(source, cs);

    if search != [] {
      entries := FilterBySearch(entries, search);
      PipelineStep(source, cs, NameContains(search));
    }
    cs := cs + SearchCriteria(search);
    assert entries == Pipeline(source, cs);
    assert cs == FilterCriteria(platform, region, search, masks);

    PipelineIsConjunction(source, cs);
    return Ok(entries);
  }

  /** One title of the listing document: its identifier as `%016X`, its
      name and its platform label; the region and kind strings come from
      the title database and are not modelled. */
  datatype ListedTitle = ListedTitle(id: string, name: Bytes, platform: string)

  /** The `titles` array of the listing document; `count` is its length.
      The platform label is the one `getPlatformFromTitleID` computes, as
      written. */
  function ListingDocument(entries: seq<TitleEntry>): (titles: seq<ListedTitle>)
    ensures |titles| == |entries|
    ensures forall i | 0 <= i < |titles| :: titles[i].name == entries[i].name && Platform.IsLabel(titles[i].platform)
  {
    seq(|entries|, i requires 0 <= i < |entries| =>
      ListedTitle(FormatHex16(entries[i].titleId), entries[i].name, Platform.GetPlatformFromTitleID(entries[i].titleId)))
  }

  /** Every identifier in a listing reads back as its entry's title ID, and
      the label is the as-written classifier's reading of that identifier. */
  lemma ListingIdsReadBack(entries: seq<TitleEntry>, i: nat)
    requires i < |entries|
    ensures ParseUint16(ListingDocument(entries)[i].id) == Some(entries[i].titleId)
    ensures ListingDocument(entries)[i].platform == Platform.GetPlatformFromTitleID(entries[i].titleId)
  {
    FormatParseRoundTrip(entries[i].titleId);
  }

  /** As written, a `platform=wiiu` listing that holds a Wii U system
      application labels it "Unknown". */
  lemma WiiUListingShowsUnknown(entries: seq<TitleEntry>, i: nat)
    requires i < |entries| && entries[i].titleId == 0x0005001010040100
    ensures Keeps(OnPlatform(PlatformPrefixes("wiiu").value), entries[i])
    ensures ListingDocument(entries)[i].platform == "Unknown"
  {
    Platform.WiiUSystemAppMislabelled();
  }

  /** The listing document with the corrected classifier (see Findings):
      only the platform labels differ from the document as written. */
  function CorrectedListingDocument(entries: seq<TitleEntry>): (titles: seq<ListedTitle>)
    ensures |titles| == |ListingDocument(entries)|
    ensures forall i | 0 <= i < |titles| ::
      titles[i].id == ListingDocument(entries)[i].id && titles[i].name == ListingDocument(entries)[i].name
  {
    seq(|entries|, i requires 0 <= i < |entries| =>
      ListedTitle(FormatHex16(entries[i].titleId), entries[i].name, Platform.PlatformOfTitleID(entries[i].titleId)))
  }

  /** Corrected: in a listing narrowed by a `platform=` token, every title
      carries that platform's label. */
  lemma CorrectedListingAgreesWithFilter(s: seq<TitleEntry>, token: string, i: nat)
    requires PlatformPrefixes(token).Some?
    requires i < |Keep(s, [OnPlatform(PlatformPrefixes(token).value)])|
    ensures CorrectedListingDocument(Keep(s, [OnPlatform(PlatformPrefixes(token).value)]))[i].platform
         == Platform.PlatformName(token)
  {
    var c := OnPlatform(PlatformPrefixes(token).value);
    var kept := Keep(s, [c]);
    KeepMembers(s, [c], kept[i]);
    KeepsAllSingleton(c, kept[i]);
    Platform.FilterAgreesWithLabel(token, kept[i]);
  }

  lemma PipelineStep(s: seq<TitleEntry>, cs: seq<Criterion>, c: Criterion)
    ensures Pipeline(s, cs + [c]) == Keep(Pipeline(s, cs), [c])
  {
    assert (cs + [c])[..|cs|] == cs;
  }

  lemma KeepsAllAppend(a: seq<Criterion>, b: seq<Criterion>, x: TitleEntry)
    ensures KeepsAll(a + b, x) <==> KeepsAll(a, x) && KeepsAll(b, x)
  {
  }

  /** What a successful listing holds, filter by filter (the tokens are
      those `ParseListQuery` accepted; see its postconditions). */
  lemma ListedEntries(s: seq<TitleEntry>, platform: string, region: string, search: Bytes,
                      masks: RegionMasks, x: TitleEntry)
    requires ValidFilterTokens(platform, region, masks)
    ensures
      x in Keep(s, FilterCriteria(platform, region, search, masks)) <==>
        && x in s
        && (platform == "all" || TitleHigh(x.titleId) in PlatformPrefixes(platform).value)
        && (SkipsRegion(region) || x.region & ParseRegion(region, masks).value != 0)
        && (search == [] || IgnoreCase.ContainsIgnoringCase(x.name, search))
  {
    var p, g, q := PlatformCriteria(platform), RegionCriteria(region, masks), SearchCriteria(search);
    KeepMembers(s, p + g + q, x);
    KeepsAllAppend(p + g, q, x);
    KeepsAllAppend(p, g, x);
    if platform != "all" {
      KeepsAllSingleton(OnPlatform(PlatformPrefixes(platform).value), x);
    }
    if !SkipsRegion(region) {
      KeepsAllSingleton(InRegion(ParseRegion(region, masks).value), x);
    }
    if search != [] {
      KeepsAllSingleton(NameContains(search), x);
    }
  }

  /** Platform "all", region "" or "all" and an empty search add no filter. */
  lemma ListQuerySkips(category: string, search: Bytes, region: string, platform: string, masks: RegionMasks)
    requires ParseCategory(CategoryToken(category)).Some?
    requires PlatformToken(platform) == "all" && SkipsRegion(region) && search == []
    ensures ParseListQuery(category, search, region, platform, masks)
         == Ok(Query(ParseCategory(CategoryToken(category)).value, []))
  {
    assert FilterCriteria(PlatformToken(platform), region, search, masks) == [];
  }

  /** The reply is an order-preserving subsequence of the category, and
      listing the reply again with the same filters changes nothing. */
  lemma ListingIsStableSubsequence(catalog: Category -> seq<TitleEntry>, q: Query)
    ensures IsSubsequence(Keep(catalog(q.category), q.criteria), catalog(q.category))
    ensures Keep(Keep(catalog(q.category), q.criteria), q.criteria) == Keep(catalog(q.category), q.criteria)
  {
    KeepIsSubsequence(catalog(q.category), q.criteria);
    KeepIdempotent(catalog(q.category), q.criteria);
  }

  /** `handleGetTitle`: parse the hexadecimal identifier, then look it up;
      `GetTitleEntryFromTid` is foreign and returns an entry with identifier
      0 when the title is unknown. */
  function HandleGetTitle(id: string, lookup: Uint64 -> TitleEntry): (r: Result<TitleEntry, HttpError>)
    ensures ParseUint16(id).None? <==> r == Err(HttpError(StatusBadRequest, "Invalid title ID format"))
    ensures r.Ok? <==> ParseUint16(id).Some? && lookup(ParseUint16(id).value).titleId != 0
    ensures r.Ok? ==> r.value == lookup(ParseUint16(id).value)
    ensures r.Err? && ParseUint16(id).Some? ==> r.error == HttpError(StatusNotFound, "Title not found")
  {
    match ParseUint16(id)
    case None => Err(HttpError(StatusBadRequest, "Invalid title ID format"))
    case Some(tid) =>
      var entry := lookup(tid);
      if entry.titleId == 0 then Err(HttpError(StatusNotFound, "Title not found")) else Ok(entry)
  }

  /** An identifier as a listing prints it (`%016X`) resolves to that entry. */
  lemma ListedIdResolves(e: TitleEntry, lookup: Uint64 -> TitleEntry)
    requires e.titleId != 0 && lookup(e.titleId) == e
    ensures HandleGetTitle(FormatHex16(e.titleId), lookup) == Ok(e)
  {
    FormatParseRoundTrip(e.titleId);
  }

  /** "Super Mario 3D World" and "mario", as bytes. */
  const MarioTitleName: Bytes :=
    [0x53, 0x75, 0x70, 0x65, 0x72, 0x20] + [0x4D, 0x61, 0x72, 0x69, 0x6F] + [0x20, 0x33, 0x44, 0x20, 0x57, 0x6F, 0x72, 0x6C, 0x64]
  const MarioTerm: Bytes := [0x6D, 0x61, 0x72, 0x69, 0x6F]

  /** A name contains every term that matches one of its windows. */
  lemma ContainsWindow(before: Bytes, window: Bytes, after: Bytes, term: Bytes)
    requires IgnoreCase.SameIgnoringCase(window, term)
    ensures IgnoreCase.ContainsIgnoringCase(before + window + after, term)
  {
    var name := before + window + after;
    assert name[|before|..|before| + |term|] == window;
    assert IgnoreCase.MatchesAt(name, term, |before|);
  }

  lemma MarioNameMatches()
    ensures IgnoreCase.ContainsIgnoringCase(MarioTitleName, MarioTerm)
  {
    assert IgnoreCase.SameIgnoringCase([0x4D, 0x61, 0x72, 0x69, 0x6F], MarioTerm);
    ContainsWindow([0x53, 0x75, 0x70, 0x65, 0x72, 0x20], [0x4D, 0x61, 0x72, 0x69, 0x6F],
                   [0x20, 0x33, 0x44, 0x20, 0x57, 0x6F, 0x72, 0x6C, 0x64], MarioTerm);
  }

  /** A search in the USA with the other parameters left empty asks for the
      region filter, then the search. */
  lemma UsaSearchQuery(search: Bytes, masks: RegionMasks)
    requires search != []
    ensures ParseListQuery("game", search, "usa", "", masks)
         == Ok(Query(Game, [InRegion(masks.usa), NameContains(search)]))
  {
    assert CategoryToken("game") == "game" && ParseCategory("game") == Some(Game);
    assert PlatformToken("") == "all" && PlatformCriteria("all") == [];
    assert !SkipsRegion("usa") && ParseRegion("usa", masks) == Some(masks.usa);
    assert RegionCriteria("usa", masks) == [InRegion(masks.usa)];
    assert SearchCriteria(search) == [NameContains(search)];
    assert [] + [InRegion(masks.usa)] + [NameContains(search)] == [InRegion(masks.usa), NameContains(search)];
    assert FilterCriteria("all", "usa", search, masks) == [InRegion(masks.usa), NameContains(search)];
  }

  /** In a catalog with one matching entry, the entry is found in its own
      region and nothing is found in a region it does not belong to. */
  lemma OneEntrySearch(s: seq<TitleEntry>, mine: bv8, other: bv8, e: TitleEntry, search: Bytes)
    requires IgnoreCase.ContainsIgnoringCase(e.name, search)
    requires e.region & mine != 0 && e.region & other == 0
    requires s == [e]
    ensures Keep(s, [InRegion(mine), NameContains(search)]) == s
    ensures Keep(s, [InRegion(other), NameContains(search)]) == []
  {
    assert KeepsAll([InRegion(mine), NameContains(search)], e);
    assert s[..0] == [];
    assert !Keeps(InRegion(other), e);
    assert InRegion(other) in [InRegion(other), NameContains(search)];
  }

  /** The listing scenario: a catalog holding one USA entry named
      "Super Mario 3D World"; a search for "mario" in the USA finds it, in
      Europe finds nothing. */
  lemma MarioScenario(catalog: Category -> seq<TitleEntry>, masks: RegionMasks)
    requires masks.usa != 0 && masks.usa & masks.europe == 0
    requires catalog(Game) == [TitleEntry(0x00050000101C9500, MarioTitleName, masks.usa)]
    ensures ParseListQuery("game", MarioTerm, "usa", "", masks)
         == Ok(Query(Game, [InRegion(masks.usa), NameContains(MarioTerm)]))
    ensures Keep(catalog(Game), [InRegion(masks.usa), NameContains(MarioTerm)]) == catalog(Game)
    ensures Keep(catalog(Game), [InRegion(masks.europe), NameContains(MarioTerm)]) == []
  {
    MarioNameMatches();
    UsaSearchQuery(MarioTerm, masks);
    OneEntrySearch(catalog(Game), masks.usa, masks.europe, catalog(Game)[0], MarioTerm);
  }
}
