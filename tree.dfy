/** The tree items the synchronisation compares (background/Tree.ts): an
    element of a drawing, and a drawing holding its elements. Both memoise
    their content hash in a mutable field. The SHA-256 function is a
    parameter. */
module Tree {
  import opened Common
  import opened Mappings

  /** An element's data as far as the items use it: its id, and the string
      `JSON.stringify` makes of the whole of it. */
  datatype ElementData = ElementData(id: string, json: string)

  /** Either kind of tree item, for the operations that accept both. */
  datatype Item = ElementItem(element: Element) | DrawItem(draw: Draw)

  class Element {
    const data: ElementData
    const location: Location
    /** The memoised hash; `None` until first computed. */
    var hashValue: Option<string>

    constructor(data: ElementData, location: Location)
      ensures this.data == data && this.location == location && hashValue.None?
    {
      this.data := data;
      this.location := location;
      hashValue := None;
    }

    /** `canMergeWith`: only an element with the same id, that is, one
        whose `findItem` finds it under this element's id. A drawing never
        merges with an element. */
    predicate CanMergeWith(other: Item)
      ensures other.DrawItem? ==> !CanMergeWith(other)
      ensures CanMergeWith(other) <==> other.ElementItem? && other.element.FindItem(data.id) == Some(other.element)
    {
      other.ElementItem? && other.element.data.id == data.id
    }

    /** `findItem`: this element when the id is its own. */
    function FindItem(id: string): Option<Element> {
      if id == data.id then Some(this) else None
    }

    /** `hash`: computed from the serialised data on the first call (or
        while the memo is the empty string) and then returned from the memo. */
    method Hash(sha256: string -> string, preserveOrder: bool) returns (h: string)
      modifies this
      ensures Truthy(old(hashValue)) ==> h == old(hashValue).value && hashValue == old(hashValue)
      ensures !Truthy(old(hashValue)) ==> h == sha256(data.json) && hashValue == Some(h)
    {
      if !Truthy(hashValue) {
        hashValue := Some(sha256(data.json));
      }
      h := hashValue.value;
    }

    /** `clone`: a new element with a copy of the data and the location given,
        or this one's; the memo is not copied. */
    method Clone(withHash: bool, location: Option<Location>) returns (r: Element)
      ensures fresh(r)
      ensures r.data == data && r.location == location.GetOr(this.location) && r.hashValue.None?
    {
      r := new Element(data, location.GetOr(this.location));
    }

    /** `withLocation`: a new element over the same data, only the location
        changed. */
    method WithLocation(location: Location) returns (r: Element)
      ensures fresh(r)
      ensures r.data == data && r.location == location && r.hashValue.None?
    {
      r := new Element(data, location);
    }
  }

  class Draw {
    /** Never set by the constructor, so `undefined` until assigned. */
    var id: Option<string>
    var children: seq<Element>
    var location: Location
    var loaded: bool
    /** The memo of hashes by key; `None` until the first computation. */
    var hashValue: Option<map<string, string>>

    constructor(children: seq<Element>, location: Location, loaded: bool)
      ensures id.None? && this.children == children && this.location == location && this.loaded == loaded
      ensures hashValue.None?
    {
      id := None;
      this.children := children;
      this.location := location;
      this.loaded := loaded;
      hashValue := None;
    }

    /** `findDraw`: this drawing when the id is its own. */
    function FindDraw(drawingId: string): Option<Draw>
      reads this
    {
      if id == Some(drawingId) then Some(this) else None
    }

    /** `findElement`: the first child whose id matches. */
    function FindElement(elementId: string): (r: Option<Element>)
      reads this
      ensures r.None? <==> forall i :: 0 <= i < |children| ==> children[i].data.id != elementId
      ensures r.Some? ==> r.value.data.id == elementId
      ensures r.Some? ==> exists i :: 0 <= i < |children| && children[i] == r.value
                                      && forall j :: 0 <= j < i ==> children[j].data.id != elementId
    {
      var i := FirstWithId(children, elementId);
      if i == -1 then None else Some(children[i])
    }

    /** `hash`: the memo under the key "true" whatever the argument; without
        it, a drawing that is not loaded fails, and otherwise every child's
        `hash(true)` is called (which memoises the child's own hash), and the
        hash of the drawing's id and its children's hash promises is stored
        and returned. */
    method Hash(sha256: string -> string, preserveOrder: bool) returns (r: Result<string, string>)
      modifies this, children
      ensures old(MemoHit()) ==> r == Ok(old(hashValue).value["true"]) && hashValue == old(hashValue)
      ensures !old(MemoHit()) && !loaded ==> r.Err? && hashValue == old(hashValue)
      ensures !old(MemoHit()) && loaded ==>
        r == Ok(sha256(DrawHashInput(id, |children|)))
        && hashValue == Some(old(hashValue).GetOr(map[])["true" := r.value])
      ensures id == old(id) && children == old(children) && loaded == old(loaded) && location == old(location)
      ensures old(MemoHit()) || !loaded ==>
        forall i :: 0 <= i < |children| ==> children[i].hashValue == old(children[i].hashValue)
      ensures !old(MemoHit()) && loaded ==>
        forall i :: 0 <= i < |children| ==>
          children[i].hashValue == Memoised(old(children[i].hashValue), sha256(children[i].data.json))
    {
      var key := "true";
      if hashValue.Some? && key in hashValue.value && hashValue.value[key] != "" {
        return Ok(hashValue.value[key]);
      }
      if !loaded {
        return Err("Trying to calculate hash of a draw that isn't loaded");
      }
      if hashValue.None? {
        hashValue := Some(map[]);
      }
      HashChildren(children, sha256);
      var h := sha256(DrawHashInput(id, |children|));
      hashValue := Some(hashValue.value[key := h]);
      r := Ok(h);
    }

    /** A truthy memo under the key "true". */
    predicate MemoHit()
      reads this
    {
      hashValue.Some? && "true" in hashValue.value && hashValue.value["true"] != ""
    }
  }

  /** An element's memo after its `hash` has run: kept when truthy, else
      the hash of its data. */
  function Memoised(memo: Option<string>, h: string): Option<string> {
    if Truthy(memo) then memo else Some(h)
  }

  /** `children.map(child => child.hash(true))`, for its effect on the
      children's memos; each element's memo ends up `Memoised`, also when
      the element occurs more than once. */
  method HashChildren(cs: seq<Element>, sha256: string -> string)
    modifies cs
    ensures forall i :: 0 <= i < |cs| ==> cs[i].hashValue == Memoised(old(cs[i].hashValue), sha256(cs[i].data.json))
  {
    var i := 0;
    while i < |cs|
      invariant 0 <= i <= |cs|
      invariant forall j :: 0 <= j < |cs| ==>
        cs[j].hashValue == old(cs[j].hashValue) || cs[j].hashValue == Memoised(old(cs[j].hashValue), sha256(cs[j].data.json))
      invariant forall j :: 0 <= j < i ==> cs[j].hashValue == Memoised(old(cs[j].hashValue), sha256(cs[j].data.json))
    {
      var _ := cs[i].Hash(sha256, true);
      i := i + 1;
    }
  }

  /** JavaScript's `find` with the `findItem` callback: the first element
      whose `findItem(id)` finds something. */
  function FirstFound(cs: seq<Element>, id: string): Option<Element> {
    if cs == [] then None
    else if cs[0].FindItem(id).Some? then Some(cs[0])
    else FirstFound(cs[1..], id)
  }

  /** `findElement` is `children.find(child => child.findItem(id))`. */
  lemma FindElementViaFindItem(d: Draw, id: string)
    ensures d.FindElement(id) == FirstFound(d.children, id)
  {
    FirstWithIdFound(d.children, id);
  }

  lemma {:induction false} FirstWithIdFound(cs: seq<Element>, id: string)
    ensures FirstFound(cs, id) == if FirstWithId(cs, id) == -1 then None else Some(cs[FirstWithId(cs, id)])
  {
    if cs != [] && cs[0].data.id != id {
      FirstWithIdFound(cs[1..], id);
      var r := FirstWithId(cs[1..], id);
      if r != -1 {
        assert cs[1..][r] == cs[r + 1];
      }
    }
  }

  /** Merging is symmetric between elements. */
  lemma CanMergeSymmetric(a: Element, b: Element)
    ensures a.CanMergeWith(ElementItem(b)) == b.CanMergeWith(ElementItem(a))
  {
  }

  /** An element finds itself under its own id and under no other, so it can
      merge with exactly the elements that find themselves under its id. */
  lemma FindItemIffCanMerge(e: Element, o: Element)
    ensures o.FindItem(e.data.id) == (if e.CanMergeWith(ElementItem(o)) then Some(o) else None)
    ensures e.FindItem(e.data.id) == Some(e)
  {
  }

  /** The constructor never sets the id, so `findDraw` finds nothing until
      an id has been assigned; afterwards exactly that id finds the drawing. */
  method FindDrawNeedsId(children: seq<Element>, location: Location, drawingId: string)
    returns (d: Draw, before: Option<Draw>, after: Option<Draw>)
    ensures fresh(d)
    ensures before.None? && after == Some(d)
  {
    d := new Draw(children, location, true);
    before := d.FindDraw(drawingId);
    d.id := Some(drawingId);
    after := d.FindDraw(drawingId);
  }

  /** A drawing whose id is undefined is found under no id at all. */
  lemma UnsetIdFindsNothing(d: Draw)
    requires d.id.None?
    ensures forall x :: d.FindDraw(x).None?
  {
  }

  /** A drawing with an id is found under that id and under no other. */
  lemma FindDrawOnlyOwnId(d: Draw, x: string, y: string)
    requires d.id == Some(x) && y != x
    ensures d.FindDraw(x) == Some(d) && d.FindDraw(y).None?
  {
  }

  /** The position of the first element of the list with the id, or -1. */
  function FirstWithId(cs: seq<Element>, elementId: string): (r: int)
    ensures -1 <= r < |cs|
    ensures r == -1 <==> forall i :: 0 <= i < |cs| ==> cs[i].data.id != elementId
    ensures 0 <= r ==> cs[r].data.id == elementId && forall j :: 0 <= j < r ==> cs[j].data.id != elementId
  {
    if cs == [] then -1
    else if cs[0].data.id == elementId then 0
    else
      var r := FirstWithId(cs[1..], elementId);
      assert forall i :: 1 <= i < |cs| ==> cs[i] == cs[1..][i - 1];
      if r == -1 then -1 else r + 1
  }

  /** `"{}"` once per child, separated by commas: what `JSON.stringify`
      makes of an array of promises. */
  function EmptyObjects(n: nat): (r: string)
    ensures |r| == if n == 0 then 0 else 3 * n - 1
  {
    if n == 0 then "" else if n == 1 then "{}" else EmptyObjects(n - 1) + ",{}"
  }

  /** The string a drawing's hash is taken of: its id (left out when
      undefined) and one empty object per child. */
  function DrawHashInput(id: Option<string>, childCount: nat): string {
    var idPart := if id.Some? then "\"id\":\"" + id.value + "\"," else "";
    "{" + idPart + "\"children\":[" + EmptyObjects(childCount) + "]}"
  }

  /** The hash input fixes the number of children (for a given id) and
      nothing else about them. */
  lemma DrawHashInputCountsChildren(id: Option<string>, m: nat, n: nat)
    ensures DrawHashInput(id, m) == DrawHashInput(id, n) <==> m == n
  {
    if DrawHashInput(id, m) == DrawHashInput(id, n) {
      assert |EmptyObjects(m)| == |EmptyObjects(n)|;
    }
  }

  /** Two drawings with the same id and the same number of children hash
      alike, whatever their elements are. */
  method SameCountSameHash(sha256: string -> string, a: Element, b: Element, id: string)
    returns (ha: Result<string, string>, hb: Result<string, string>)
    requires a.data != b.data
    modifies a, b
    ensures ha.Ok? && ha == hb
  {
    var d1 := new Draw([a], Local, true);
    d1.id := Some(id);
    var d2 := new Draw([b], Local, true);
    d2.id := Some(id);
    ha := d1.Hash(sha256, true);
    hb := d2.Hash(sha256, false);
  }

  /** The memo is never invalidated: adding a child after the first hash
      leaves the drawing's hash unchanged. */
  method HashIsStale(sha256: string -> string, e: Element)
    returns (before: Result<string, string>, after: Result<string, string>)
    requires forall s :: sha256(s) != ""
    modifies e
    ensures before.Ok? && after == before
  {
    var d := new Draw([], Local, true);
    before := d.Hash(sha256, true);
    d.children := d.children + [e];
    after := d.Hash(sha256, true);
  }

  /** An element's second hash is its first, and is the hash of its data. */
  method ElementHashMemoised(sha256: string -> string, data: ElementData)
    returns (first: string, second: string)
    ensures first == second == sha256(data.json)
  {
    var e := new Element(data, Server);
    first := e.Hash(sha256, true);
    second := e.Hash(sha256, false);
  }
}
