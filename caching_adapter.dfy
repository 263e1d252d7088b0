/** The in-memory bookmark cache (background/adapters/caching.adapter.ts):
    a tree of folders and bookmarks, a counter handing out fresh ids, and
    the create, update, move and remove operations on it.

    The tree is a value held in a field that each operation reassigns. The
    cache's lookups by id go through an index that is rebuilt after every
    change; they are modelled as a pre-order search for the first node of
    the right kind with that id, and a change to "the found node" as a
    change to that first node. */
module CachingAdapter {
  import opened Common
  import Diff

  /** A bookmark or a folder with its children in order. A parent id may
      be missing (`undefined`), as it is on the root folder. */
  datatype Node =
    | Bookmark(id: int, parentId: Option<int>, title: string, url: string)
    | Folder(id: int, parentId: Option<int>, title: string, children: seq<Node>)

  /** What a lookup by id asks for. */
  datatype Target = FolderWith(id: int) | BookmarkWith(id: int)

  predicate Matches(n: Node, k: Target) {
    match k
    case FolderWith(i) => n.Folder? && n.id == i
    case BookmarkWith(i) => n.Bookmark? && n.id == i
  }

  /** The first node in pre-order that matches (`findFolder` /
      `findBookmark`). */
  function Find(n: Node, k: Target): (r: Option<Node>)
    ensures r.Some? ==> Matches(r.value, k)
    ensures Matches(n, k) ==> r == Some(n)
  {
    if Matches(n, k) then Some(n)
    else if n.Folder? then FindIn(n.children, k)
    else None
  }

  function FindIn(cs: seq<Node>, k: Target): (r: Option<Node>)
    ensures r.Some? ==> Matches(r.value, k)
  {
    if cs == [] then None
    else if Find(cs[0], k).Some? then Find(cs[0], k)
    else FindIn(cs[1..], k)
  }

  /** Some node of the tree matches: the lookup's reference meaning,
      without an order of search. */
  predicate Contains(n: Node, k: Target) {
    Matches(n, k) || (n.Folder? && exists i :: 0 <= i < |n.children| && Contains(n.children[i], k))
  }

  /** The lookup succeeds exactly when some node of the tree matches. */
  lemma {:induction false} FindIffContains(n: Node, k: Target)
    ensures Find(n, k).Some? <==> Contains(n, k)
    decreases n, 1
  {
    if !Matches(n, k) && n.Folder? {
      FindInIffContains(n.children, k);
    }
  }

  lemma {:induction false} FindInIffContains(cs: seq<Node>, k: Target)
    ensures FindIn(cs, k).Some? <==> exists i :: 0 <= i < |cs| && Contains(cs[i], k)
    decreases cs, 0
  {
    if cs != [] {
      FindIffContains(cs[0], k);
      FindInIffContains(cs[1..], k);
      assert forall i :: 1 <= i < |cs| ==> cs[i] == cs[1..][i - 1];
    }
  }

  /** `findFolder(parentId)`: an `undefined` id finds nothing; otherwise a
      folder with that id is found exactly when the tree holds one. */
  function FindParent(t: Node, parentId: Option<int>): (r: Option<Node>)
    ensures parentId.None? ==> r.None?
    ensures r.Some? <==> parentId.Some? && Contains(t, FolderWith(parentId.value))
    ensures r.Some? ==> r.value.Folder? && Some(r.value.id) == parentId
    ensures parentId.Some? ==> r == Find(t, FolderWith(parentId.value))
  {
    if parentId.None? then None
    else
      FindIffContains(t, FolderWith(parentId.value));
      Find(t, FolderWith(parentId.value))
  }

  /** A change to one node. */
  datatype Change =
    | Push(child: Node)          // `children.push(child)`
    | SpliceAt(index: int)       // `children.splice(index, 1)`
    | Replace(children: seq<Node>)
    | Rewrite(title: string, url: string)

  function Apply(n: Node, c: Change): (r: Node)
    ensures forall k :: Matches(r, k) == Matches(n, k)
  {
    match n
    case Bookmark(id, p, _, _) =>
      (match c
       case Rewrite(title, url) => Bookmark(id, p, title, url)
       case _ => n)
    case Folder(id, p, title, cs) =>
      (match c
       case Push(x) => Folder(id, p, title, cs + [x])
       case SpliceAt(i) => Folder(id, p, title, Diff.SpliceOne(cs, i))
       case Replace(cs') => Folder(id, p, title, cs')
       case Rewrite(_, _) => n)
  }

  /** The tree with the change applied to the node `Find` returns; the
      whole tree when nothing matches. */
  function Edit(n: Node, k: Target, c: Change): (r: Node)
    ensures forall k' :: Matches(r, k') == Matches(n, k')
  {
    if Matches(n, k) then Apply(n, c)
    else match n
      case Folder(id, p, title, cs) => Folder(id, p, title, EditIn(cs, k, c))
      case Bookmark(_, _, _, _) => n
  }

  function EditIn(cs: seq<Node>, k: Target, c: Change): seq<Node> {
    if cs == [] then []
    else if Find(cs[0], k).Some? then [Edit(cs[0], k, c)] + cs[1..]
    else [cs[0]] + EditIn(cs[1..], k, c)
  }

  /** The ids of all bookmarks in a tree, with repetitions. */
  function BookmarkIds(n: Node): multiset<int> {
    match n
    case Bookmark(id, _, _, _) => multiset{id}
    case Folder(_, _, _, cs) => BookmarkIdsIn(cs)
  }

  function BookmarkIdsIn(cs: seq<Node>): multiset<int> {
    if cs == [] then multiset{} else BookmarkIds(cs[0]) + BookmarkIdsIn(cs[1..])
  }

  // ---------------------------------------------------------------------
  // Properties of lookup and change

  /** After a change, the lookup finds the changed node. */
  lemma {:induction false} FindAfterEdit(n: Node, k: Target, c: Change)
    requires Find(n, k).Some?
    ensures Find(Edit(n, k, c), k) == Some(Apply(Find(n, k).value, c))
  {
    if !Matches(n, k) {
      FindInAfterEdit(n.children, k, c);
    }
  }

  lemma {:induction false} FindInAfterEdit(cs: seq<Node>, k: Target, c: Change)
    requires FindIn(cs, k).Some?
    ensures FindIn(EditIn(cs, k, c), k) == Some(Apply(FindIn(cs, k).value, c))
  {
    var e := EditIn(cs, k, c);
    if Find(cs[0], k).Some? {
      FindAfterEdit(cs[0], k, c);
      assert e[0] == Edit(cs[0], k, c);
    } else {
      FindInAfterEdit(cs[1..], k, c);
      assert e[0] == cs[0] && e[1..] == EditIn(cs[1..], k, c);
    }
  }

  /** A change replaces the found node's bookmarks by the changed node's and
      leaves every other bookmark in place. */
  lemma {:induction false} EditBookmarkIds(n: Node, k: Target, c: Change)
    requires Find(n, k).Some?
    ensures BookmarkIds(Find(n, k).value) <= BookmarkIds(n)
    ensures BookmarkIds(Edit(n, k, c)) == BookmarkIds(n) - BookmarkIds(Find(n, k).value) + BookmarkIds(Apply(Find(n, k).value, c))
  {
    if !Matches(n, k) {
      EditInBookmarkIds(n.children, k, c);
    }
  }

  lemma {:induction false} EditInBookmarkIds(cs: seq<Node>, k: Target, c: Change)
    requires FindIn(cs, k).Some?
    ensures BookmarkIds(FindIn(cs, k).value) <= BookmarkIdsIn(cs)
    ensures BookmarkIdsIn(EditIn(cs, k, c)) == BookmarkIdsIn(cs) - BookmarkIds(FindIn(cs, k).value) + BookmarkIds(Apply(FindIn(cs, k).value, c))
  {
    var e := EditIn(cs, k, c);
    var f := FindIn(cs, k).value;
    var head, rest := BookmarkIds(cs[0]), BookmarkIdsIn(cs[1..]);
    assert BookmarkIdsIn(cs) == head + rest;
    if Find(cs[0], k).Some? {
      EditBookmarkIds(cs[0], k, c);
      assert e[0] == Edit(cs[0], k, c) && e[1..] == cs[1..];
      assert BookmarkIdsIn(e) == BookmarkIds(e[0]) + rest;
      ReplaceInSum(head, rest, BookmarkIds(f), BookmarkIds(Apply(f, c)));
    } else {
      EditInBookmarkIds(cs[1..], k, c);
      assert e[0] == cs[0] && e[1..] == EditIn(cs[1..], k, c);
      assert BookmarkIdsIn(e) == head + BookmarkIdsIn(e[1..]);
      ReplaceInSum(rest, head, BookmarkIds(f), BookmarkIds(Apply(f, c)));
    }
  }

  /** Replacing part `f` of one summand by `a` replaces it in the sum. */
  lemma ReplaceInSum(x: multiset<int>, y: multiset<int>, f: multiset<int>, a: multiset<int>)
    requires f <= x
    ensures f <= x + y && f <= y + x
    ensures (x - f + a) + y == (x + y) - f + a
    ensures y + (x - f + a) == (y + x) - f + a
  {
  }

  /** Bookmark ids of concatenated child lists add up. */
  lemma {:induction false} BookmarkIdsAppend(a: seq<Node>, b: seq<Node>)
    ensures BookmarkIdsIn(a + b) == BookmarkIdsIn(a) + BookmarkIdsIn(b)
  {
    if a != [] {
      calc {
        BookmarkIdsIn(a + b);
        { assert (a + b)[0] == a[0] && (a + b)[1..] == a[1..] + b; }
        BookmarkIds(a[0]) + BookmarkIdsIn(a[1..] + b);
        { BookmarkIdsAppend(a[1..], b); }
        BookmarkIds(a[0]) + (BookmarkIdsIn(a[1..]) + BookmarkIdsIn(b));
        { UnionAssoc(BookmarkIds(a[0]), BookmarkIdsIn(a[1..]), BookmarkIdsIn(b)); }
        (BookmarkIds(a[0]) + BookmarkIdsIn(a[1..])) + BookmarkIdsIn(b);
        BookmarkIdsIn(a) + BookmarkIdsIn(b);
      }
    } else {
      assert a + b == b;
    }
  }

  lemma UnionAssoc(x: multiset<int>, y: multiset<int>, z: multiset<int>)
    ensures x + (y + z) == (x + y) + z
  {
  }

  /** Splicing out one child drops exactly that child's bookmarks. */
  lemma {:induction false} SpliceBookmarkIds(cs: seq<Node>, i: int)
    requires 0 <= i < |cs|
    ensures BookmarkIds(cs[i]) <= BookmarkIdsIn(cs)
    ensures BookmarkIdsIn(Diff.SpliceOne(cs, i)) == BookmarkIdsIn(cs) - BookmarkIds(cs[i])
  {
    Diff.SpliceInside(cs, i);
    var a, b := cs[..i], cs[i + 1..];
    var xb := [cs[i]] + b;
    assert cs == a + xb;
    assert xb[0] == cs[i] && xb[1..] == b;
    var x, ma, mb := BookmarkIds(cs[i]), BookmarkIdsIn(a), BookmarkIdsIn(b);
    assert BookmarkIdsIn(xb) == x + mb;
    BookmarkIdsAppend(a, xb);
    assert BookmarkIdsIn(cs) == ma + (x + mb);
    BookmarkIdsAppend(a, b);
    assert BookmarkIdsIn(a + b) == ma + mb;
  }

  // ---------------------------------------------------------------------
  // Moving a node out of and into a folder

  /** `parent.children.splice(parent.children.indexOf(x), 1)` on the folder
      the lookup finds. */
  function MoveOut(t: Node, parentId: int, x: Node): Node
    requires Find(t, FolderWith(parentId)).Some?
  {
    Edit(t, FolderWith(parentId), SpliceAt(Diff.IndexOf(Find(t, FolderWith(parentId)).value.children, x)))
  }

  /** `parent.children.push(x)` on the folder the lookup finds. */
  function MoveIn(t: Node, parentId: int, x: Node): Node {
    Edit(t, FolderWith(parentId), Push(x))
  }

  /** Pushing onto a folder puts the node at the end of its children and
      adds exactly the node's bookmarks. */
  lemma MoveInAppends(t: Node, parentId: int, x: Node)
    requires Find(t, FolderWith(parentId)).Some?
    ensures var f := Find(t, FolderWith(parentId)).value;
      Find(MoveIn(t, parentId, x), FolderWith(parentId)) == Some(Folder(f.id, f.parentId, f.title, f.children + [x]))
    ensures BookmarkIds(MoveIn(t, parentId, x)) == BookmarkIds(t) + BookmarkIds(x)
  {
    var f := Find(t, FolderWith(parentId)).value;
    FindAfterEdit(t, FolderWith(parentId), Push(x));
    EditBookmarkIds(t, FolderWith(parentId), Push(x));
    BookmarkIdsAppend(f.children, [x]);
    assert BookmarkIdsIn([x]) == BookmarkIds(x) by {
      assert [x][1..] == [];
    }
  }

  /** Splicing out a node the folder holds removes its first occurrence and
      exactly its bookmarks. */
  lemma MoveOutRemoves(t: Node, parentId: int, x: Node)
    requires Find(t, FolderWith(parentId)).Some? && x in Find(t, FolderWith(parentId)).value.children
    ensures var f := Find(t, FolderWith(parentId)).value; var i := Diff.IndexOf(f.children, x);
      Find(MoveOut(t, parentId, x), FolderWith(parentId)) == Some(Folder(f.id, f.parentId, f.title, f.children[..i] + f.children[i + 1..]))
    ensures BookmarkIds(x) <= BookmarkIds(t)
    ensures BookmarkIds(MoveOut(t, parentId, x)) == BookmarkIds(t) - BookmarkIds(x)
  {
    MoveOutShape(t, parentId, x);
    MoveOutBookmarkIds(t, parentId, x);
  }

  lemma MoveOutShape(t: Node, parentId: int, x: Node)
    requires Find(t, FolderWith(parentId)).Some? && x in Find(t, FolderWith(parentId)).value.children
    ensures var f := Find(t, FolderWith(parentId)).value; var i := Diff.IndexOf(f.children, x);
      Find(MoveOut(t, parentId, x), FolderWith(parentId)) == Some(Folder(f.id, f.parentId, f.title, f.children[..i] + f.children[i + 1..]))
  {
    var f := Find(t, FolderWith(parentId)).value;
    var i := Diff.IndexOf(f.children, x);
    FindAfterEdit(t, FolderWith(parentId), SpliceAt(i));
    Diff.SpliceInside(f.children, i);
  }

  lemma MoveOutBookmarkIds(t: Node, parentId: int, x: Node)
    requires Find(t, FolderWith(parentId)).Some? && x in Find(t, FolderWith(parentId)).value.children
    ensures BookmarkIds(x) <= BookmarkIds(t)
    ensures BookmarkIds(MoveOut(t, parentId, x)) == BookmarkIds(t) - BookmarkIds(x)
  {
    var f := Find(t, FolderWith(parentId)).value;
    var i := Diff.IndexOf(f.children, x);
    var after := Apply(f, SpliceAt(i));
    EditBookmarkIds(t, FolderWith(parentId), SpliceAt(i));
    SpliceBookmarkIds(f.children, i);
    assert BookmarkIds(after) == BookmarkIds(f) - BookmarkIds(x);
    SubtractPart(BookmarkIds(t), BookmarkIds(f), BookmarkIds(x));
  }

  /** Taking out a part and putting back what is left of it minus `x`
      takes out just `x`. */
  lemma SubtractPart(whole: multiset<int>, part: multiset<int>, x: multiset<int>)
    requires x <= part <= whole
    ensures x <= whole
    ensures whole - part + (part - x) == whole - x
  {
  }

  /** The `indexOf` quirk: splicing out a node the folder does not hold
      removes the folder's last child instead. */
  lemma MoveOutAbsentDropsLast(t: Node, parentId: int, x: Node)
    requires Find(t, FolderWith(parentId)).Some?
    requires var f := Find(t, FolderWith(parentId)).value; x !in f.children && |f.children| > 0
    ensures var f := Find(t, FolderWith(parentId)).value;
      Find(MoveOut(t, parentId, x), FolderWith(parentId)) == Some(Folder(f.id, f.parentId, f.title, f.children[..|f.children| - 1]))
  {
    var f := Find(t, FolderWith(parentId)).value;
    FindAfterEdit(t, FolderWith(parentId), SpliceAt(Diff.IndexOf(f.children, x)));
    Diff.RetractAbsent(f.children, x);
  }

  // ---------------------------------------------------------------------
  // Importing a folder with fresh ids

  function Size(n: Node): nat {
    match n
    case Bookmark(_, _, _, _) => 1
    case Folder(_, _, _, cs) => 1 + SizeIn(cs)
  }

  function SizeIn(cs: seq<Node>): nat {
    if cs == [] then 0 else Size(cs[0]) + SizeIn(cs[1..])
  }

  /** The ids of all nodes in pre-order. */
  function AllIds(n: Node): seq<int> {
    match n
    case Bookmark(id, _, _, _) => [id]
    case Folder(id, _, _, cs) => [id] + AllIdsIn(cs)
  }

  function AllIdsIn(cs: seq<Node>): seq<int> {
    if cs == [] then [] else AllIds(cs[0]) + AllIdsIn(cs[1..])
  }

  /** A tree with its ids and parent ids erased: what a clone keeps. */
  function Strip(n: Node): Node {
    match n
    case Bookmark(_, _, title, url) => Bookmark(0, None, title, url)
    case Folder(_, _, title, cs) => Folder(0, None, title, StripIn(cs))
  }

  function StripIn(cs: seq<Node>): seq<Node> {
    if cs == [] then [] else [Strip(cs[0])] + StripIn(cs[1..])
  }

  /** Every node's parent id is the id of the folder it sits in. */
  predicate WellParented(cs: seq<Node>, parentId: int) {
    forall i :: 0 <= i < |cs| ==>
      cs[i].parentId == Some(parentId) && (cs[i].Folder? ==> WellParented(cs[i].children, cs[i].id))
  }

  /** The integers `lo`, `lo + 1`, ..., `hi - 1`. */
  function Range(lo: int, hi: int): (r: seq<int>)
    requires lo <= hi
    ensures |r| == hi - lo
    ensures forall i :: 0 <= i < |r| ==> r[i] == lo + i
  {
    seq(hi - lo, i requires 0 <= i < hi - lo => lo + i)
  }

  lemma RangeAppend(a: int, b: int, c: int)
    requires a <= b <= c
    ensures Range(a, b) + Range(b, c) == Range(a, c)
  {
  }

  /** `traverse` renumbering one node: it gets the next id and the parent
      id given, then its children are renumbered under it, in pre-order. */
  function Renumber(n: Node, parentId: int, next: int): (r: (Node, int))
    ensures r.1 == next + Size(n)
    ensures AllIds(r.0) == Range(next + 1, r.1 + 1)
    ensures Strip(r.0) == Strip(n)
    ensures r.0.parentId == Some(parentId)
    ensures r.0.Folder? ==> WellParented(r.0.children, r.0.id)
  {
    match n
    case Bookmark(_, _, title, url) =>
      (Bookmark(next + 1, Some(parentId), title, url), next + 1)
    case Folder(_, _, title, cs) =>
      var (cs', last) := RenumberIn(cs, next + 1, next + 1);
      RangeAppend(next + 1, next + 2, last + 1);
      (Folder(next + 1, Some(parentId), title, cs'), last)
  }

  function RenumberIn(cs: seq<Node>, parentId: int, next: int): (r: (seq<Node>, int))
    ensures r.1 == next + SizeIn(cs)
    ensures AllIdsIn(r.0) == Range(next + 1, r.1 + 1)
    ensures StripIn(r.0) == StripIn(cs)
    ensures WellParented(r.0, parentId)
  {
    if cs == [] then ([], next)
    else
      var (h, mid) := Renumber(cs[0], parentId, next);
      var (rest, last) := RenumberIn(cs[1..], parentId, mid);
      var out := [h] + rest;
      assert out[0] == h && out[1..] == rest;
      RangeAppend(next + 1, mid + 1, last + 1);
      assert forall i :: 1 <= i < |out| ==> out[i] == rest[i - 1];
      (out, last)
  }

  /** The imported nodes get pairwise distinct ids, all above the counter's
      old value and at most its new value. */
  lemma ImportedIdsFresh(cs: seq<Node>, parentId: int, highestId: int)
    ensures var r := RenumberIn(cs, parentId, highestId);
      (forall i :: 0 <= i < |AllIdsIn(r.0)| ==> highestId < AllIdsIn(r.0)[i] <= r.1)
      && (forall i, j :: 0 <= i < j < |AllIdsIn(r.0)| ==> AllIdsIn(r.0)[i] != AllIdsIn(r.0)[j])
  {
  }

  // ---------------------------------------------------------------------
  // The adapter

  /** The errors the adapter throws; `TypeError` is the one the runtime
      throws when the cache holds no tree (after `resetCache`) or an
      imported item is not a folder. */
  datatype AdapterError =
    | UnknownCreateTarget
    | UnknownBookmarkUpdate
    | UnknownMoveOrigin
    | UnknownMoveTarget
    | UnknownFolderUpdate
    | FolderLoop
    | TypeError

  class Adapter {
    /** The last id handed out. */
    var highestId: int
    /** The bookmark tree; `None` is the empty object `resetCache` stores. */
    var cache: Option<Node>

    /** The constructor calls `resetCache`. */
    constructor()
      ensures highestId == 0 && cache.None?
    {
      highestId := 0;
      cache := None;
    }

    method ResetCache()
      modifies this
      ensures highestId == 0 && cache.None?
    {
      highestId := 0;
      cache := None;
    }

    /** `createBookmark`: the id is taken from the counter before the parent
        is looked up, so a failed create still uses one up. */
    method CreateBookmark(parentId: Option<int>, title: string, url: string) returns (r: Result<int, AdapterError>)
      modifies this
      ensures highestId == old(highestId) + 1
      ensures old(cache).None? ==> r == Err(TypeError) && cache == old(cache)
      ensures old(cache).Some? && FindParent(old(cache).value, parentId).None? ==>
        r == Err(UnknownCreateTarget) && cache == old(cache)
      ensures old(cache).Some? && FindParent(old(cache).value, parentId).Some? ==>
        r == Ok(highestId)
        && cache == Some(MoveIn(old(cache).value, parentId.value, Bookmark(highestId, parentId, title, url)))
    {
      highestId := highestId + 1;
      var id := highestId;
      if cache.None? {
        return Err(TypeError);
      }
      var t := cache.value;
      if FindParent(t, parentId).None? {
        return Err(UnknownCreateTarget);
      }
      cache := Some(MoveIn(t, parentId.value, Bookmark(id, parentId, title, url)));
      r := Ok(id);
    }

    /** `updateBookmark`: title and url are always overwritten; only then,
        and only when the parent id differs, the bookmark moves to the end
        of the new parent's children. A missing folder on the move path
        fails after the rewrite has happened. */
    method UpdateBookmark(id: int, parentId: Option<int>, title: string, url: string) returns (error: Option<AdapterError>)
      modifies this
      ensures highestId == old(highestId)
      ensures old(cache).None? ==> error == Some(TypeError) && cache == old(cache)
      ensures old(cache).Some? && Find(old(cache).value, BookmarkWith(id)).None? ==>
        error == Some(UnknownBookmarkUpdate) && cache == old(cache)
      ensures old(cache).Some? && Find(old(cache).value, BookmarkWith(id)).Some? ==>
        var b := Find(old(cache).value, BookmarkWith(id)).value;
        var t1 := Edit(old(cache).value, BookmarkWith(id), Rewrite(title, url));
        var moved := Bookmark(id, b.parentId, title, url);
        if b.parentId == parentId then (error.None? && cache == Some(t1))
        else if FindParent(t1, b.parentId).None? then (error == Some(UnknownMoveOrigin) && cache == Some(t1))
        else if FindParent(t1, parentId).None? then (error == Some(UnknownMoveTarget) && cache == Some(t1))
        else (error.None? &&
              cache == Some(MoveIn(MoveOut(t1, b.parentId.value, moved), parentId.value, Bookmark(id, parentId, title, url))))
    {
      error := None;
      if cache.None? {
        return Some(TypeError);
      }
      var t := cache.value;
      var found := Find(t, BookmarkWith(id));
      if found.None? {
        return Some(UnknownBookmarkUpdate);
      }
      var b := found.value;
      var t1 := Edit(t, BookmarkWith(id), Rewrite(title, url));
      cache := Some(t1);
      if b.parentId == parentId {
        return;
      }
      if FindParent(t1, b.parentId).None? {
        return Some(UnknownMoveOrigin);
      }
      if FindParent(t1, parentId).None? {
        return Some(UnknownMoveTarget);
      }
      var moved := Bookmark(id, b.parentId, title, url);
      var t2 := MoveOut(t1, b.parentId.value, moved);
      cache := Some(MoveIn(t2, parentId.value, Bookmark(id, parentId, title, url)));
    }

    /** `removeBookmark`: silently nothing when the bookmark or its parent
        is missing; otherwise it is spliced out of its parent's children. */
    method RemoveBookmark(id: int) returns (error: Option<AdapterError>)
      modifies this
      ensures highestId == old(highestId)
      ensures old(cache).None? ==> error == Some(TypeError) && cache == old(cache)
      ensures old(cache).Some? ==> error.None?
      ensures old(cache).Some? ==>
        var t := old(cache).value;
        var b := Find(t, BookmarkWith(id));
        if b.None? || FindParent(t, b.value.parentId).None? then cache == old(cache)
        else cache == Some(MoveOut(t, b.value.parentId.value, b.value))
    {
      error := None;
      if cache.None? {
        return Some(TypeError);
      }
      var t := cache.value;
      var b := Find(t, BookmarkWith(id));
      if b.None? {
        return;
      }
      if FindParent(t, b.value.parentId).None? {
        return;
      }
      cache := Some(MoveOut(t, b.value.parentId.value, b.value));
    }

    /** `createFolder` creates nothing and returns `undefined`. */
    method CreateFolder(parentId: Option<int>, title: string) returns (r: Option<int>)
      ensures r.None?
    {
      r := None;
    }

    /** `updateFolder`: the folder, its parent and the new parent must all be
        found, and the new parent must not lie inside the folder (the folder
        itself included). The folder then moves, with its new title and
        parent id, to the end of the new parent's children, even when the
        parent is unchanged. */
    method UpdateFolder(id: int, parentId: Option<int>, title: string) returns (error: Option<AdapterError>)
      modifies this
      ensures highestId == old(highestId)
      ensures old(cache).None? ==> error == Some(TypeError) && cache == old(cache)
      ensures old(cache).Some? ==>
        var t := old(cache).value;
        var f := Find(t, FolderWith(id));
        if f.None? then (error == Some(UnknownFolderUpdate) && cache == old(cache))
        else if FindParent(t, f.value.parentId).None? then (error == Some(UnknownMoveOrigin) && cache == old(cache))
        else if FindParent(t, parentId).None? then (error == Some(UnknownMoveTarget) && cache == old(cache))
        else if Find(f.value, FolderWith(parentId.value)).Some? then (error == Some(FolderLoop) && cache == old(cache))
        else (error.None? &&
              cache == Some(MoveIn(MoveOut(t, f.value.parentId.value, f.value), parentId.value,
                                   Folder(id, parentId, title, f.value.children))))
    {
      error := None;
      if cache.None? {
        return Some(TypeError);
      }
      var t := cache.value;
      var f := Find(t, FolderWith(id));
      if f.None? {
        return Some(UnknownFolderUpdate);
      }
      var oldFolder := f.value;
      if FindParent(t, oldFolder.parentId).None? {
        return Some(UnknownMoveOrigin);
      }
      if FindParent(t, parentId).None? {
        return Some(UnknownMoveTarget);
      }
      if Find(oldFolder, FolderWith(parentId.value)).Some? {
        return Some(FolderLoop);
      }
      var t2 := MoveOut(t, oldFolder.parentId.value, oldFolder);
      cache := Some(MoveIn(t2, parentId.value, Folder(id, parentId, title, oldFolder.children)));
    }

    /** `removeFolder`: silently nothing when the folder or its parent is
        missing (the root has none); otherwise the folder, with everything
        in it, is spliced out of its parent's children. */
    method RemoveFolder(id: int) returns (error: Option<AdapterError>)
      modifies this
      ensures highestId == old(highestId)
      ensures old(cache).None? ==> error == Some(TypeError) && cache == old(cache)
      ensures old(cache).Some? ==> error.None?
      ensures old(cache).Some? ==>
        var t := old(cache).value;
        var f := Find(t, FolderWith(id));
        if f.None? || FindParent(t, f.value.parentId).None? then cache == old(cache)
        else cache == Some(MoveOut(t, f.value.parentId.value, f.value))
    {
      error := None;
      if cache.None? {
        return Some(TypeError);
      }
      var t := cache.value;
      var f := Find(t, FolderWith(id));
      if f.None? {
        return;
      }
      if FindParent(t, f.value.parentId).None? {
        return;
      }
      cache := Some(MoveOut(t, f.value.parentId.value, f.value));
    }

    /** `bulkImportFolder`: the target folder's children are replaced by a
        copy of the imported folder's children, renumbered from the counter
        in pre-order, each with its enclosing folder's new id as parent id.
        Returns the copy, which carries the target's id. */
    method BulkImportFolder(id: int, folder: Node) returns (r: Result<Node, AdapterError>)
      modifies this
      ensures old(cache).None? || (old(cache).Some? && Find(old(cache).value, FolderWith(id)).None?) ==>
        r.Err? && cache == old(cache) && highestId == old(highestId)
      ensures old(cache).None? ==> r == Err(TypeError)
      ensures old(cache).Some? && Find(old(cache).value, FolderWith(id)).None? ==> r == Err(UnknownCreateTarget)
      ensures old(cache).Some? && Find(old(cache).value, FolderWith(id)).Some? && folder.Bookmark? ==>
        r == Err(TypeError) && cache == old(cache) && highestId == old(highestId)
      ensures old(cache).Some? && Find(old(cache).value, FolderWith(id)).Some? && folder.Folder? ==>
        var (cs, last) := RenumberIn(folder.children, id, old(highestId));
        highestId == last && r == Ok(Folder(id, folder.parentId, folder.title, cs))
        && cache == Some(Edit(old(cache).value, FolderWith(id), Replace(cs)))
    {
      if cache.None? {
        return Err(TypeError);
      }
      var t := cache.value;
      if Find(t, FolderWith(id)).None? {
        return Err(UnknownCreateTarget);
      }
      if folder.Bookmark? {
        return Err(TypeError);
      }
      var (cs, last) := RenumberIn(folder.children, id, highestId);
      highestId := last;
      cache := Some(Edit(t, FolderWith(id), Replace(cs)));
      r := Ok(Folder(id, folder.parentId, folder.title, cs));
    }
  }

  // ---------------------------------------------------------------------
  // Properties of the operations

  /** A successful create puts the bookmark at the end of its parent's
      children and adds exactly its id to the tree. */
  lemma CreateAppends(t: Node, parentId: int, id: int, title: string, url: string)
    requires Find(t, FolderWith(parentId)).Some?
    ensures var f := Find(t, FolderWith(parentId)).value; var b := Bookmark(id, Some(parentId), title, url);
      Find(MoveIn(t, parentId, b), FolderWith(parentId)) == Some(Folder(f.id, f.parentId, f.title, f.children + [b]))
    ensures BookmarkIds(MoveIn(t, parentId, Bookmark(id, Some(parentId), title, url))) == BookmarkIds(t) + multiset{id}
  {
    MoveInAppends(t, parentId, Bookmark(id, Some(parentId), title, url));
  }

  /** Removing a bookmark that sits in its parent's children drops exactly
      that one bookmark id. */
  lemma RemoveBookmarkDropsOne(t: Node, id: int)
    requires Find(t, BookmarkWith(id)).Some?
    requires var b := Find(t, BookmarkWith(id)).value;
      FindParent(t, b.parentId).Some? && b in FindParent(t, b.parentId).value.children
    ensures var b := Find(t, BookmarkWith(id)).value;
      BookmarkIds(MoveOut(t, b.parentId.value, b)) == BookmarkIds(t) - multiset{id}
  {
    var b := Find(t, BookmarkWith(id)).value;
    MoveOutRemoves(t, b.parentId.value, b);
  }

  /** Removing a folder drops exactly the bookmarks inside it. */
  lemma RemoveFolderDropsSubtree(t: Node, id: int)
    requires Find(t, FolderWith(id)).Some?
    requires var f := Find(t, FolderWith(id)).value;
      FindParent(t, f.parentId).Some? && f in FindParent(t, f.parentId).value.children
    ensures var f := Find(t, FolderWith(id)).value;
      BookmarkIds(MoveOut(t, f.parentId.value, f)) == BookmarkIds(t) - BookmarkIds(f)
  {
    var f := Find(t, FolderWith(id)).value;
    MoveOutRemoves(t, f.parentId.value, f);
  }

  /** Rewriting a bookmark's title and url changes no bookmark id. */
  lemma RewriteKeepsIds(t: Node, id: int, title: string, url: string)
    requires Find(t, BookmarkWith(id)).Some?
    ensures BookmarkIds(Edit(t, BookmarkWith(id), Rewrite(title, url))) == BookmarkIds(t)
    ensures Find(Edit(t, BookmarkWith(id), Rewrite(title, url)), BookmarkWith(id))
      == Some(Bookmark(id, Find(t, BookmarkWith(id)).value.parentId, title, url))
  {
    EditBookmarkIds(t, BookmarkWith(id), Rewrite(title, url));
    FindAfterEdit(t, BookmarkWith(id), Rewrite(title, url));
  }

  /** A move whose old parent holds the bookmark and whose new parent is
      still found afterwards loses and invents no bookmark. */
  lemma MoveKeepsBookmarks(t: Node, oldParent: int, newParent: int, x: Node)
    requires Find(t, FolderWith(oldParent)).Some? && x in Find(t, FolderWith(oldParent)).value.children
    requires Find(MoveOut(t, oldParent, x), FolderWith(newParent)).Some?
    ensures BookmarkIds(MoveIn(MoveOut(t, oldParent, x), newParent, x)) == BookmarkIds(t)
  {
    MoveOutRemoves(t, oldParent, x);
    MoveInAppends(MoveOut(t, oldParent, x), newParent, x);
  }

  /** A folder can never be moved into itself: the loop check finds it. */
  lemma SelfParentIsLoop(f: Node)
    requires f.Folder?
    ensures Find(f, FolderWith(f.id)).Some?
  {
  }

  /** Renaming a folder without moving it still moves it to the end of its
      parent's children. */
  method RenameMovesToEnd() returns (before: seq<Node>, after: seq<Node>)
    ensures before == [Folder(1, Some(0), "a", []), Folder(2, Some(0), "b", [])]
    ensures after == [Folder(2, Some(0), "b", []), Folder(1, Some(0), "a2", [])]
  {
    before := [Folder(1, Some(0), "a", []), Folder(2, Some(0), "b", [])];
    var adapter := new Adapter();
    adapter.cache := Some(Folder(0, None, "root", before));
    var error := adapter.UpdateFolder(1, Some(0), "a2");
    var t := Folder(0, None, "root", before);
    var f1 := Folder(1, Some(0), "a", []);
    assert Find(t, FolderWith(1)) == Some(f1) by {
      assert FindIn(before, FolderWith(1)) == Some(f1);
    }
    assert Find(f1, FolderWith(0)).None? by {
      assert FindIn(f1.children, FolderWith(0)).None?;
    }
    assert Diff.IndexOf(before, f1) == 0;
    var t2 := MoveOut(t, 0, f1);
    assert t2 == Folder(0, None, "root", [Folder(2, Some(0), "b", [])]) by {
      Diff.SpliceInside(before, 0);
    }
    after := adapter.cache.value.children;
  }
}
