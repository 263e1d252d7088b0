/** Change detection between two saved versions of a drawing's data
    (background.helpers.ts, `hasDrawingDataChanged`): both JSON strings are
    parsed, structurally compared, and differences that touch only
    volatile bookkeeping keys are ignored. The JSON parser and the
    structural comparison are parameters: any failure of either counts as
    a change. */
module ChangeDetection {
  import opened Common

  /** One step of a difference's path: an object key or an array index. */
  datatype PathSegment = Key(name: string) | Index(position: int)

  /** A difference reported by the structural comparison, reduced to the
      path it was found at. */
  datatype Difference = Difference(path: seq<PathSegment>)

  /** The keys whose changes do not count: they change without the drawing
      having changed. */
  const IgnoredKeys: seq<string> := ["version", "versionNonce", "updated"]

  /** A path segment naming an ignored key; array indices never do. */
  predicate Ignored(seg: PathSegment) {
    seg.Key? && seg.name in IgnoredKeys
  }

  /** The filter's test: no segment of the path, at any depth, is ignored. */
  predicate Kept(d: Difference) {
    forall i :: 0 <= i < |d.path| ==> !Ignored(d.path[i])
  }

  /** The differences that survive the filter, in their original order. */
  function KeptDifferences(ds: seq<Difference>): (r: seq<Difference>)
    ensures |r| <= |ds|
    ensures forall d :: d in r <==> d in ds && Kept(d)
  {
    if ds == [] then []
    else if Kept(ds[0]) then [ds[0]] + KeptDifferences(ds[1..])
    else KeptDifferences(ds[1..])
  }

  /** `hasDrawingDataChanged`: true when either string does not parse or the
      comparison fails; otherwise true exactly when some difference survives
      the filter. */
  function HasDrawingDataChanged<J>(previous: string, next: string,
                                    parse: string -> Option<J>,
                                    compare: (J, J) -> Option<seq<Difference>>): (r: bool)
    ensures parse(previous).None? || parse(next).None? ==> r
    ensures parse(previous).Some? && parse(next).Some? && compare(parse(previous).value, parse(next).value).None? ==> r
    ensures parse(previous).Some? && parse(next).Some? && compare(parse(previous).value, parse(next).value).Some? ==>
      (r <==> exists d :: d in compare(parse(previous).value, parse(next).value).value && Kept(d))
  {
    match (parse(previous), parse(next))
    case (Some(p), Some(n)) =>
      (match compare(p, n)
       case Some(ds) =>
         var kept := KeptDifferences(ds);
         assert |kept| > 0 ==> kept[0] in kept;
         |kept| > 0
       case None => true)
    case _ => true
  }

  /** A difference is discarded when any segment of its path, not only the
      last, is an ignored key. */
  lemma IgnoredAnywhereDiscards(d: Difference, i: int)
    requires 0 <= i < |d.path| && d.path[i].Key? && d.path[i].name in {"version", "versionNonce", "updated"}
    ensures !Kept(d)
  {
    assert d.path[i].name in IgnoredKeys;
  }

  /** Differences whose paths are made of array indices are never
      discarded. */
  lemma IndicesAreKept(d: Difference)
    requires forall i :: 0 <= i < |d.path| ==> d.path[i].Index?
    ensures Kept(d)
  {
  }

  /** A key that merely contains an ignored word is not ignored. */
  lemma SimilarKeyIsKept()
    ensures Kept(Difference([Key("versions"), Index(0), Key("x")]))
  {
    var d := Difference([Key("versions"), Index(0), Key("x")]);
    forall i | 0 <= i < |d.path|
      ensures !Ignored(d.path[i])
    {
      assert "versions" != "version" && "versions" != "versionNonce" && "versions" != "updated";
      assert "x" != "version" && "x" != "versionNonce" && "x" != "updated";
    }
  }

  /** When every difference touches an ignored key, or there are none,
      nothing changed. */
  lemma OnlyIgnoredMeansUnchanged<J>(previous: string, next: string,
                                     parse: string -> Option<J>,
                                     compare: (J, J) -> Option<seq<Difference>>)
    requires parse(previous).Some? && parse(next).Some?
    requires compare(parse(previous).value, parse(next).value).Some?
    requires forall d :: d in compare(parse(previous).value, parse(next).value).value ==>
      exists i :: 0 <= i < |d.path| && Ignored(d.path[i])
    ensures !HasDrawingDataChanged(previous, next, parse, compare)
  {
  }
}
