/** Whether a browser tab shows an Excalidraw page
    (custom-domaints.utilts.ts): excalidraw.com itself, or any page whose
    URL mentions the origin of a domain the user added. The stored domain
    list is passed in as the value the local storage returned. */
module CustomDomains {
  import opened Common

  /** A user-added domain; `enabled` is stored but not consulted here. */
  datatype CustomDomain = CustomDomain(origin: string, enabled: bool)

  /** The `TypeError` thrown by calling `includes` on an undefined URL. */
  datatype PageError = TypeError

  /** `getCustomDomains`: the stored list, or `[]` when nothing is stored. */
  function GetCustomDomains(stored: Option<seq<CustomDomain>>): seq<CustomDomain> {
    stored.GetOr([])
  }

  /** `domains.some(d => url.includes(d.origin))` on a defined URL. */
  function AnyOriginIn(url: string, domains: seq<CustomDomain>): (r: bool)
    ensures r <==> exists i :: 0 <= i < |domains| && Includes(url, domains[i].origin)
  {
    if domains == [] then false
    else if Includes(url, domains[0].origin) then true
    else
      var rest := AnyOriginIn(url, domains[1..]);
      assert forall i :: 1 <= i < |domains| ==> domains[i] == domains[1..][i - 1];
      rest
  }

  /** `isAnExcalidrawPage`, for a tab whose URL may be undefined. */
  function IsAnExcalidrawPage(url: Option<string>, stored: Option<seq<CustomDomain>>): (r: Result<bool, PageError>)
    ensures url.Some? && StartsWith(url.value, ExcalidrawOrigin) ==> r == Ok(true)
    ensures url.Some? && !StartsWith(url.value, ExcalidrawOrigin) ==>
      r == Ok(exists i :: 0 <= i < |GetCustomDomains(stored)| && Includes(url.value, GetCustomDomains(stored)[i].origin))
    ensures url.None? ==> (r.Err? <==> |GetCustomDomains(stored)| > 0)
    ensures url.None? && r.Ok? ==> r.value == false
  {
    if url.Some? && StartsWith(url.value, ExcalidrawOrigin) then Ok(true)
    else
      var customDomains := GetCustomDomains(stored);
      if customDomains == [] then Ok(false)
      else if url.None? then Err(TypeError)
      else Ok(AnyOriginIn(url.value, customDomains))
  }

  /** An excalidraw.com URL is recognised whatever is stored. */
  lemma ExcalidrawUrlIgnoresStore(url: string, s1: Option<seq<CustomDomain>>, s2: Option<seq<CustomDomain>>)
    requires StartsWith(url, ExcalidrawOrigin)
    ensures IsAnExcalidrawPage(Some(url), s1) == IsAnExcalidrawPage(Some(url), s2) == Ok(true)
  {
  }

  /** Only the origins matter: lists that differ only in their `enabled`
      flags give the same answer, so a disabled domain still counts. */
  lemma {:induction false} EnabledIgnored(url: string, ds: seq<CustomDomain>, es: seq<CustomDomain>)
    requires |ds| == |es|
    requires forall i :: 0 <= i < |ds| ==> ds[i].origin == es[i].origin
    ensures AnyOriginIn(url, ds) == AnyOriginIn(url, es)
  {
    if ds != [] {
      EnabledIgnored(url, ds[1..], es[1..]);
    }
  }

  /** With nothing stored, any URL other than excalidraw.com's is not
      recognised. */
  lemma MissingListMeansNo(url: string)
    requires !StartsWith(url, ExcalidrawOrigin)
    ensures IsAnExcalidrawPage(Some(url), None) == Ok(false)
  {
  }

  /** A tab without a URL throws as soon as one domain is stored, and is
      not recognised otherwise. */
  lemma UndefinedUrl(stored: Option<seq<CustomDomain>>)
    ensures stored.Some? && stored.value != [] ==> IsAnExcalidrawPage(None, stored) == Err(TypeError)
    ensures stored.None? || stored.value == [] ==> IsAnExcalidrawPage(None, stored) == Ok(false)
  {
  }

  /** The origin need only occur somewhere in the URL: a page on another
      host that carries the origin in its path is recognised. */
  lemma OriginAnywhereInUrl(origin: string)
    ensures var url := "https://evil.test/" + origin;
            IsAnExcalidrawPage(Some(url), Some([CustomDomain(origin, false)])) == Ok(true)
  {
    var prefix := "https://evil.test/";
    var url := prefix + origin;
    assert url[9] != ExcalidrawOrigin[9];
    assert url[|prefix|..|prefix| + |origin|] == origin;
    assert OccursAt(url, origin, |prefix|);
  }
}
