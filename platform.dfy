/** `getPlatformFromTitleID`: the display label of a title's platform,
    computed from the upper 32 bits of its identifier. The source masks
    those bits with 0xFFFFFFF0; `PlatformOfTitleID` is the corrected
    classifier that masks with 0xFFFF0000 (see README, Findings). */
module Platform {
  import opened Text
  import opened Catalog

  /** The labels the classifier can return. */
  predicate IsLabel(s: string) {
    s == "Wii U" || s == "3DS" || s == "vWii" || s == "Switch" || s == "Wii" || s == "Unknown"
  }

  /** The switch of the source, on `titleHigh` and on the masked value. */
  function Classify(titleHigh: nat, masked: nat): (platform: string)
    ensures IsLabel(platform)
  {
    if masked == 0x00050000 then "Wii U"
    else if masked == 0x00040000 then "3DS"
    else if masked == 0x00000000 then (if titleHigh == 0x00000007 then "vWii" else "Unknown")
    else if masked == 0x00070000 then "vWii"
    else if masked == 0x01000000 then "Switch"
    else if masked == 0x00010000 then "Wii"
    else "Unknown"
  }

  /** As written: `titleHigh & 0xFFFFFFF0` clears only the low four bits
      (for a 32-bit value this is `titleHigh / 16 * 16`). */
  function GetPlatformFromTitleID(titleId: Uint64): (platform: string)
    ensures IsLabel(platform)
    ensures platform == "Wii U" <==> TitleHigh(titleId) / 16 == 0x5000
    ensures platform == "Switch" <==> TitleHigh(titleId) / 16 == 0x100000
  {
    var titleHigh := TitleHigh(titleId);
    Classify(titleHigh, titleHigh / 16 * 16)
  }

  /** Corrected: `titleHigh & 0xFFFF0000`, the platform half of the prefix. */
  function PlatformOfTitleID(titleId: Uint64): (platform: string)
    ensures IsLabel(platform)
    ensures platform == "Wii U" <==> TitleHigh(titleId) / 0x10000 == 0x0005
    ensures platform == "Switch" <==> TitleHigh(titleId) / 0x10000 == 0x0100
  {
    var titleHigh := TitleHigh(titleId);
    Classify(titleHigh, titleHigh / 0x10000 * 0x10000)
  }

  /** Both classifiers look only at `titleId >> 32`. */
  lemma LabelDependsOnlyOnHighBits(a: Uint64, b: Uint64)
    requires TitleHigh(a) == TitleHigh(b)
    ensures GetPlatformFromTitleID(a) == GetPlatformFromTitleID(b)
    ensures PlatformOfTitleID(a) == PlatformOfTitleID(b)
  {
  }

  /** The test vectors, on the source's classifier and on the corrected one. */
  lemma TestVectors()
    ensures GetPlatformFromTitleID(0x00050000101C9500) == "Wii U" == PlatformOfTitleID(0x00050000101C9500)
    ensures GetPlatformFromTitleID(0x00040000000B8B00) == "3DS" == PlatformOfTitleID(0x00040000000B8B00)
    ensures GetPlatformFromTitleID(0x0100000000010000) == "Switch" == PlatformOfTitleID(0x0100000000010000)
    ensures GetPlatformFromTitleID(0x0000000700000000) == "vWii" == PlatformOfTitleID(0x0000000700000000)
    ensures GetPlatformFromTitleID(0x0007000800000000) == "vWii" == PlatformOfTitleID(0x0007000800000000)
    ensures GetPlatformFromTitleID(0x0001000000000000) == "Wii" == PlatformOfTitleID(0x0001000000000000)
  {
  }

  /** The label that the `platform=` token of a listing stands for. */
  function PlatformName(token: string): string {
    match token
    case "wiiu" => "Wii U"
    case "vwii" => "vWii"
    case "switch" => "Switch"
    case "3ds" => "3DS"
    case _ => "Unknown"
  }

  /** As written, a Wii U system application (prefix 0x00050010) passes the
      `platform=wiiu` filter but is labelled "Unknown". */
  lemma WiiUSystemAppMislabelled()
    ensures Keeps(OnPlatform(PlatformPrefixes("wiiu").value), TitleEntry(0x0005001010040100, [], 0))
    ensures GetPlatformFromTitleID(0x0005001010040100) == "Unknown"
    ensures PlatformName("wiiu") == "Wii U"
  {
    assert TitleHigh(0x0005001010040100) == 0x00050010;
  }

  /** Corrected: every entry the platform filter keeps carries that platform's label. */
  lemma FilterAgreesWithLabel(token: string, e: TitleEntry)
    requires PlatformPrefixes(token).Some?
    requires Keeps(OnPlatform(PlatformPrefixes(token).value), e)
    ensures PlatformOfTitleID(e.titleId) == PlatformName(token)
  {
  }
}
