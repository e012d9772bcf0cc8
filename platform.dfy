/**
 * `detect_platform`: which municipal CMS a town's site runs, from the
 * declared "ATS or Platform (if known)" field first and URL hints second.
 */
module Platforms {
  import opened Text
  import opened JsonData

  datatype Platform = CivicPlus | CivicLift | Granicus | Other {
    /** The name the engine writes to `platform_detected`. */
    function Name(): string {
      match this
      case CivicPlus => "civicplus"
      case CivicLift => "civiclift"
      case Granicus => "granicus"
      case Other => "other"
    }

    /** Position in the fixed check order civicplus, civiclift, granicus. */
    function Rank(): nat {
      match this
      case CivicPlus => 0
      case CivicLift => 1
      case Granicus => 2
      case Other => 3
    }
  }

  const PlatformField := "ATS or Platform (if known)"

  /** `(rec.get("ATS or Platform (if known)") or "").strip().lower()`. */
  function Declared(rec: Record): string {
    Lower(Strip(TextOf(Get(rec, PlatformField))))
  }

  /** `f"{home} {emp}".lower()` over the site and employment URLs. */
  function UrlBlob(rec: Record): string {
    Lower(TextOf(Get(rec, "Town Website")) + " " + TextOf(Get(rec, "Employment Page URL")))
  }

  /** The explicit field names platform `p`. */
  predicate DeclaredAs(known: string, p: Platform) {
    p != Other && Contains(known, p.Name())
  }

  /** The URL blob carries a hint of platform `p`. */
  predicate HintedAs(blob: string, p: Platform) {
    match p
    case CivicPlus =>
      Contains(blob, "civicplus.com") || Contains(blob, "jobs.aspx") || Contains(blob, "quicklinks.aspx")
    case CivicLift => Contains(blob, "civiclift")
    case Granicus => Contains(blob, "granicus")
    case Other => false
  }

  predicate AnyDeclared(known: string) {
    DeclaredAs(known, CivicPlus) || DeclaredAs(known, CivicLift) || DeclaredAs(known, Granicus)
  }

  predicate AnyHinted(blob: string) {
    HintedAs(blob, CivicPlus) || HintedAs(blob, CivicLift) || HintedAs(blob, Granicus)
  }

  /**
   * The result is the first platform, in rank order, that the explicit
   * field names; failing that, the first that the URLs hint at; failing
   * that, `Other`.
   */
  function Classify(known: string, blob: string): (p: Platform)
    ensures AnyDeclared(known) ==>
      && DeclaredAs(known, p)
      && (p.Rank() > 0 ==> !DeclaredAs(known, CivicPlus))
      && (p.Rank() > 1 ==> !DeclaredAs(known, CivicLift))
    ensures !AnyDeclared(known) && AnyHinted(blob) ==>
      && HintedAs(blob, p)
      && (p.Rank() > 0 ==> !HintedAs(blob, CivicPlus))
      && (p.Rank() > 1 ==> !HintedAs(blob, CivicLift))
    ensures p == Other <==> !AnyDeclared(known) && !AnyHinted(blob)
  {
    if DeclaredAs(known, CivicPlus) then CivicPlus
    else if DeclaredAs(known, CivicLift) then CivicLift
    else if DeclaredAs(known, Granicus) then Granicus
    else if HintedAs(blob, CivicPlus) then CivicPlus
    else if HintedAs(blob, CivicLift) then CivicLift
    else if HintedAs(blob, Granicus) then Granicus
    else Other
  }

  /** `detect_platform(rec)`. */
  function DetectPlatform(rec: Record): Platform {
    Classify(Declared(rec), UrlBlob(rec))
  }

  /**
   * Once the explicit field names a platform, the URL fields are never
   * consulted: records that agree on that field agree on the platform.
   */
  lemma DeclaredFieldDecides(rec: Record, other: Record)
    requires AnyDeclared(Declared(rec))
    requires Get(other, PlatformField) == Get(rec, PlatformField)
    ensures DetectPlatform(other) == DetectPlatform(rec)
  {
    assert Declared(other) == Declared(rec);
  }
}
