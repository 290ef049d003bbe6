/**
 * The fixed prefix-to-namespace table used for XPath lookups, and the two
 * eSCL namespace URIs that qualify every element lookup of a capability document.
 */
module ScanNamespaceContext {
  import opened Wrappers

  const NS_SCAN: string := "http://schemas.hp.com/imaging/escl/2011/05/03"
  const NS_PWG: string := "http://www.pwg.org/schemas/2010/12/sm"

  /** The only failure of this table: `prefix.equals(..)` on a `null` prefix. */
  datatype NamespaceError = NullPrefix

  /**
   * `getNamespaceURI(prefix)`: "scan" and "pwg" are bound, every other prefix
   * is unbound (`null`), and a `null` prefix raises.
   */
  function GetNamespaceURI(prefix: Option<string>): (r: Result<Option<string>, NamespaceError>)
    ensures prefix.None? <==> r.Err?
    ensures r.Ok? && r.value.Some? <==> prefix == Some("scan") || prefix == Some("pwg")
    ensures r.Ok? && r.value.Some? ==> r.value.value in {NS_SCAN, NS_PWG}
    ensures prefix == Some("scan") ==> r == Ok(Some(NS_SCAN))
    ensures prefix == Some("pwg") ==> r == Ok(Some(NS_PWG))
  {
    match prefix
    case None => Err(NullPrefix)
    case Some(p) =>
      if p == "scan" then Ok(Some(NS_SCAN))
      else if p == "pwg" then Ok(Some(NS_PWG))
      else Ok(None)
  }

  /** `getPrefix(namespaceURI)`: no reverse lookup is offered, for any argument. */
  function GetPrefix(namespaceURI: Option<string>): (r: Option<string>)
    ensures r == None
  {
    None
  }

  /** `getPrefixes(namespaceURI)`: returns `null` for any argument. */
  function GetPrefixes(namespaceURI: Option<string>): (r: Option<seq<string>>)
    ensures r == None
  {
    None
  }

  /**
   * The two namespaces differ, so the table is injective on the prefixes it
   * binds: a bound URI determines its prefix.
   */
  lemma BoundPrefixesDistinct(p: string, q: string)
    requires GetNamespaceURI(Some(p)).Ok? && GetNamespaceURI(Some(p)).value.Some?
    requires GetNamespaceURI(Some(p)) == GetNamespaceURI(Some(q))
    ensures p == q
  {
    assert NS_SCAN[7] != NS_PWG[7];
  }
}
