/**
 * The scraper registry (scrapers/scraper_factory.py): a class-level dict from site names to
 * scraper classes, looked up after normalising the name, and extended in place by
 * `register_scraper`. The dict's keys keep their insertion order, as Python's do.
 */
module ScraperFactory {
  import opened Wrappers
  import opened Text
  import SiteSearch

  /** A scraper class: one of the three adapters, or a class registered later. */
  datatype ScraperClass = Adapter(site: SiteSearch.Site) | Custom(name: string, subclassesBase: bool)

  /** `issubclass(scraper_class, BaseScraper)`. */
  predicate IsScraperClass(c: ScraperClass) {
    c.Adapter? || c.subclassesBase
  }

  /** The lookup key `create_scraper` and `is_site_supported` use: lower-cased, then stripped. */
  function Normalize(name: string): string {
    Strip(Lower(name))
  }

  /** The keys of the registry as shipped, in declaration order. */
  const DefaultNames: seq<string> := ["amazon", "ebay", "mercadolivre", "mercado_livre", "ml"]

  const DefaultClasses: map<string, ScraperClass> := map[
    "amazon" := Adapter(SiteSearch.AmazonSite),
    "ebay" := Adapter(SiteSearch.EbaySite),
    "mercadolivre" := Adapter(SiteSearch.MercadoLivreSite),
    "mercado_livre" := Adapter(SiteSearch.MercadoLivreSite),
    "ml" := Adapter(SiteSearch.MercadoLivreSite)]

  predicate Distinct(xs: seq<string>) {
    forall i, j :: 0 <= i < j < |xs| ==> xs[i] != xs[j]
  }

  class Registry {
    /** The dict's keys, in insertion order. */
    var names: seq<string>
    var classes: map<string, ScraperClass>

    ghost predicate Valid()
      reads this
    {
      Distinct(names) && (forall k :: k in classes <==> k in names)
    }

    /** `_scrapers` as the class body declares it; the two aliases name the Mercado Livre adapter. */
    constructor ()
      ensures Valid()
      ensures names == DefaultNames
      ensures classes == DefaultClasses
    {
      names := DefaultNames;
      classes := DefaultClasses;
    }

    /** `is_site_supported`. */
    predicate IsSiteSupported(name: string)
      reads this
    {
      Normalize(name) in classes
    }

    /** `create_scraper`: the class registered under the normalised name, or `ValueError`. */
    function CreateScraper(name: string): (r: Result<ScraperClass, string>)
      reads this
      ensures r.Ok? <==> IsSiteSupported(name)
      ensures r.Ok? ==> Normalize(name) in classes && r.value == classes[Normalize(name)]
      ensures r.Err? ==> r.error == "ValueError"
    {
      var key := Normalize(name);
      if key in classes then Ok(classes[key]) else Err("ValueError")
    }

    /** `get_supported_sites`: every registered name once, in insertion order. */
    function GetSupportedSites(): (sites: seq<string>)
      reads this
      requires Valid()
      ensures Distinct(sites)
      ensures forall k :: k in sites <==> k in classes
    {
      names
    }

    /**
     * `register_scraper`: a class that is not a scraper raises `TypeError` and changes nothing;
     * otherwise the lower-cased (not stripped) name is bound to the class, a new name going last
     * and an existing one keeping its place.
     */
    method RegisterScraper(name: string, c: ScraperClass) returns (r: Result<(), string>)
      requires Valid()
      modifies this
      ensures Valid()
      ensures !IsScraperClass(c) ==> r == Err("TypeError") && names == old(names) && classes == old(classes)
      ensures IsScraperClass(c) ==> r == Ok(()) && classes == old(classes)[Lower(name) := c]
      ensures IsScraperClass(c) ==> names == if Lower(name) in old(classes) then old(names) else old(names) + [Lower(name)]
    {
      if !IsScraperClass(c) {
        return Err("TypeError");
      }
      var key := Lower(name);
      if key !in classes {
        names := names + [key];
      }
      classes := classes[key := c];
      r := Ok(());
    }
  }

  /** A name made of lower-case ASCII letters and underscores. */
  predicate PlainKey(name: string) {
    forall i :: 0 <= i < |name| ==> 'a' <= name[i] <= 'z' || name[i] == '_'
  }

  /** A plain name is its own lookup key. */
  lemma NormalizeIdentity(name: string)
    requires PlainKey(name)
    ensures Normalize(name) == name
  {
    assert Lower(name) == name;
    StripIdentity(name);
  }

  /** A plain registered name reaches the class registered under it. */
  lemma PlainKeyReaches(reg: Registry, name: string)
    requires PlainKey(name) && name in reg.classes
    ensures reg.CreateScraper(name) == Ok(reg.classes[name])
  {
    NormalizeIdentity(name);
  }

  /** In the registry as shipped, the three names of Mercado Livre are plain keys of its adapter. */
  lemma MercadoLivreAliases()
    ensures PlainKey("mercadolivre") && PlainKey("mercado_livre") && PlainKey("ml")
    ensures DefaultClasses["mercadolivre"] == DefaultClasses["mercado_livre"] == DefaultClasses["ml"] == Adapter(SiteSearch.MercadoLivreSite)
  {
  }

  /** A normalised name never begins or ends with whitespace. */
  lemma NormalizeShape(name: string)
    ensures var k := Normalize(name); k == [] || (!IsSpace(k[0]) && !IsSpace(k[|k| - 1]))
  {
    StripShape(Lower(name));
  }

  /**
   * A name registered with whitespace at either end is stored under a key no lookup produces,
   * so `create_scraper` can never return the class registered under it.
   */
  lemma PaddedNameUnreachable(padded: string, name: string)
    requires var k := Lower(padded); k != [] && (IsSpace(k[0]) || IsSpace(k[|k| - 1]))
    ensures Normalize(name) != Lower(padded)
  {
    NormalizeShape(name);
  }
}
