/** The command line tool's `main`: list/search mode (`handleListSearch`)
    and download mode with its exit codes. Printing the result listing and
    the usage text is output only and is not modelled. */
module CliMain {
  import opened Wrappers
  import opened Text
  import opened Catalog
  import ApiTitles
  import IgnoreCase

  /** The command line flags. */
  datatype Flags = Flags(
    title: string,
    output: string,
    decrypt: bool,
    deleteEncrypted: bool,
    list: bool,
    search: Bytes,
    category: string,
    region: string)

  /** The flag defaults of `main`. */
  function DefaultFlags(): (f: Flags)
    ensures f.category == "game" && f.region == "all" && !f.list && f.search == [] && f.title == ""
  {
    Flags("", "", false, false, false, [], "game", "all")
  }

  /** `-list` or a non-empty `-search` selects list/search mode. */
  predicate IsListMode(f: Flags) {
    f.list || f.search != []
  }

  /** The region step of `handleListSearch`: only "all" skips it. */
  function CliRegionCriteria(region: string, masks: RegionMasks): seq<Criterion> {
    if region == "all" || ParseRegion(region, masks).None? then []
    else [InRegion(ParseRegion(region, masks).value)]
  }

  /** The validation part of `handleListSearch`: the category, then the
      region; an error is the message printed before exiting with status 1. */
  function ParseListSearch(category: string, region: string, search: Bytes, masks: RegionMasks): (r: Result<Query, string>)
    ensures r.Err? <==> ParseCategory(category).None? || (region != "all" && ParseRegion(region, masks).None?)
    ensures ParseCategory(category).None? ==> r == Err("Unknown category: " + category)
    ensures ParseCategory(category).Some? && region != "all" && ParseRegion(region, masks).None? ==>
      r == Err("Unknown region: " + region)
    ensures r.Ok? ==>
      && r.value.category == ParseCategory(category).value
      && r.value.criteria == CliRegionCriteria(region, masks) + ApiTitles.SearchCriteria(search)
  {
    match ParseCategory(category)
    case None => Err("Unknown category: " + category)
    case Some(flag) =>
      if region != "all" && ParseRegion(region, masks).None? then Err("Unknown region: " + region)
      else Ok(Query(flag, CliRegionCriteria(region, masks) + ApiTitles.SearchCriteria(search)))
  }

  /** `handleListSearch`: the entries it would print, or the message it
      prints before exiting with status 1. `catalog` stands for the title
      database's `GetTitleEntries`. */
  method HandleListSearch(catalog: Category -> seq<TitleEntry>, masks: RegionMasks,
                          list: bool, search: Bytes, category: string, region: string)
    returns (res: Result<seq<TitleEntry>, string>)
    ensures var q := ParseListSearch(category, region, search, masks);
      && (q.Err? ==> res == Err(q.error))
      && (q.Ok? ==> res == Ok(Keep(catalog(q.value.category), q.value.criteria)))
  {
    var flag := ParseCategory(category);
    if flag.None? {
      return Err("Unknown category: " + category);
    }
    var entries := catalog(flag.value);
    ghost var all := entries;
    if region != "all" {
      var mask := ParseRegion(region, masks);
      if mask.None? {
        return Err("Unknown region: " + region);
      }
      entries := FilterByRegion(entries, mask.value);
    } else {
      KeepNothing(entries);
    }
    assert entries == Keep(all, CliRegionCriteria(region, masks));
    if search != [] {
      ghost var before := entries;
      entries := FilterBySearch(entries, search);
      KeepThenKeep(all, CliRegionCriteria(region, masks), [NameContains(search)]);
    } else {
      KeepNothing(entries);
      assert CliRegionCriteria(region, masks) + ApiTitles.SearchCriteria(search) == CliRegionCriteria(region, masks);
    }
    return Ok(entries);
  }

  /** What a successful list/search prints, entry by entry. */
  lemma ListedByCli(s: seq<TitleEntry>, region: string, search: Bytes, masks: RegionMasks, x: TitleEntry)
    requires region == "all" || ParseRegion(region, masks).Some?
    ensures
      x in Keep(s, CliRegionCriteria(region, masks) + ApiTitles.SearchCriteria(search)) <==>
        && x in s
        && (region == "all" || x.region & ParseRegion(region, masks).value != 0)
        && (search == [] || IgnoreCase.ContainsIgnoringCase(x.name, search))
  {
    var g, q := CliRegionCriteria(region, masks), ApiTitles.SearchCriteria(search);
    KeepMembers(s, g + q, x);
    ApiTitles.KeepsAllAppend(g, q, x);
    if region != "all" {
      KeepsAllSingleton(InRegion(ParseRegion(region, masks).value), x);
    }
    if search != [] {
      KeepsAllSingleton(NameContains(search), x);
    }
  }

  /** An empty `-region` is rejected here, where the service's `region=`
      parameter skips the filter. */
  lemma EmptyRegionRejected(search: Bytes, masks: RegionMasks)
    ensures ParseListSearch("game", "", search, masks) == Err("Unknown region: ")
    ensures ApiTitles.ParseListQuery("game", search, "", "", masks).Ok?
  {
    assert "Unknown region: " + "" == "Unknown region: ";
  }

  /** The process exit status of `main`. In download mode the title and
      output flags are required, the two filesystem steps may fail
      (`log.Fatal`), and the download call returns an error or not;
      `cancelled` is whether an interrupt has set the reporter's flag by the
      time the call returns. */
  function ExitCode(f: Flags, masks: RegionMasks, absPathOk: bool, mkdirOk: bool,
                    downloadError: Option<string>, cancelled: bool): (code: int)
    ensures code == 0 || code == 1 || code == 130
    ensures IsListMode(f) ==> (code == 0 <==> ParseListSearch(f.category, f.region, f.search, masks).Ok?)
    ensures IsListMode(f) ==> code != 130
    ensures !IsListMode(f) ==>
      (code == 0 <==> f.title != "" && f.output != "" && absPathOk && mkdirOk && downloadError.None? && !cancelled)
    ensures !IsListMode(f) ==>
      (code == 130 <==> f.title != "" && f.output != "" && absPathOk && mkdirOk && cancelled)
  {
    if IsListMode(f) then
      if ParseListSearch(f.category, f.region, f.search, masks).Err? then 1 else 0
    else if f.title == "" || f.output == "" then 1
    else if !absPathOk || !mkdirOk then 1
    else if downloadError.Some? then
      if cancelled then 130 else 1
    else if cancelled then 130
    else 0
  }

  /** With the defaults, asking for nothing is a download without a title,
      which exits with status 1 whatever happens next. */
  lemma NoFlagsIsAnError(masks: RegionMasks, absPathOk: bool, mkdirOk: bool, downloadError: Option<string>, cancelled: bool)
    ensures ExitCode(DefaultFlags(), masks, absPathOk, mkdirOk, downloadError, cancelled) == 1
  {
  }
}
