/** The popup's drawing list: which drawings a sidebar selection shows
    (filter-and-sort-drawings.util.ts), in which order, and which tab the
    selection belongs to (useSidebarSelected.hook.tsx). The sort reorders
    the array it is given in place. */
module Popup {
  import opened Common

  /** A drawing as the list sees it, times parsed to milliseconds:
      `createdAt`, the stored `lastModified`, and `updatedAt`, a field the
      stored records do not have, so it is normally absent. */
  datatype Listed = Listed(id: string, name: string, createdAt: int, lastModified: Option<int>, updatedAt: Option<int>)

  /** A user folder: its id (with the "folder:" prefix) and the ids of the
      drawings in it. */
  datatype FolderEntry = FolderEntry(id: string, drawingIds: seq<string>)

  datatype SortBy = LastCreated | Alphabetically | LastModified

  const FolderPrefix := "folder:"

  // ---------------------------------------------------------------------
  // Sidebar selection

  /** The branch of the filter a selection takes. */
  datatype Branch = InFolder | FavoritesOnly | SearchResults | Everything

  function BranchOf(sidebarSelected: string): Branch {
    if StartsWith(sidebarSelected, FolderPrefix) then InFolder
    else if sidebarSelected == "Favorites" then FavoritesOnly
    else if sidebarSelected == "Results" then SearchResults
    else Everything
  }

  /** `getSelectedTab`. */
  function SelectedTab(sidebarSelected: string): (r: string)
    ensures r in {"Favorites", "Results", "Folder", "All"}
    ensures sidebarSelected == "Favorites" <==> r == "Favorites"
    ensures sidebarSelected == "Results" <==> r == "Results"
    ensures StartsWith(sidebarSelected, FolderPrefix) <==> r == "Folder"
  {
    if sidebarSelected == "Favorites" then
      assert sidebarSelected[0] != FolderPrefix[0];
      "Favorites"
    else if sidebarSelected == "Results" then
      assert sidebarSelected[..|FolderPrefix|][0] != FolderPrefix[0];
      "Results"
    else if StartsWith(sidebarSelected, FolderPrefix) then "Folder"
    else "All"
  }

  /** The tab shown and the filter applied always agree, whichever order
      the two check the selection in. */
  lemma TabAgreesWithFilter(sidebarSelected: string)
    ensures SelectedTab(sidebarSelected) == match BranchOf(sidebarSelected)
      case InFolder => "Folder"
      case FavoritesOnly => "Favorites"
      case SearchResults => "Results"
      case Everything => "All"
  {
  }

  /** The initial selection, the empty string, shows every drawing in the
      "All" tab; so does "All". */
  lemma InitialSelectionIsAll()
    ensures SelectedTab("") == "All" && BranchOf("") == Everything
    ensures SelectedTab("All") == "All" && BranchOf("All") == Everything
  {
  }

  // ---------------------------------------------------------------------
  // Filtering

  /** `s.filter(p)`: the elements satisfying `p`, in order. */
  function Select<T(!new)>(s: seq<T>, p: T -> bool): (r: seq<T>)
    ensures |r| <= |s|
    ensures forall x :: x in r <==> x in s && p(x)
    ensures multiset(r) <= multiset(s)
    ensures (forall x :: x in s ==> p(x)) ==> r == s
    ensures forall x :: multiset(r)[x] == if p(x) then multiset(s)[x] else 0
  {
    if s == [] then []
    else
      var rest := Select(s[1..], p);
      assert s == [s[0]] + s[1..];
      assert multiset(s) == multiset{s[0]} + multiset(s[1..]);
      if p(s[0]) then [s[0]] + rest else rest
  }

  /** `folders.find(f => f.id === id)`. */
  function FindFolder(folders: seq<FolderEntry>, id: string): (r: Option<FolderEntry>)
    ensures r.Some? ==> r.value in folders && r.value.id == id
    ensures r.None? <==> forall f :: f in folders ==> f.id != id
    ensures r.Some? ==>
      exists i :: 0 <= i < |folders| && folders[i] == r.value && forall j :: 0 <= j < i ==> folders[j].id != id
  {
    if folders == [] then None
    else if folders[0].id == id then Some(folders[0])
    else
      assert forall f :: f in folders[1..] ==> f in folders;
      assert forall f :: f in folders ==> f == folders[0] || f in folders[1..];
      FindFolder(folders[1..], id)
  }

  /** `filter` keeps the order: selecting from a concatenation selects from
      each part and concatenates the results. */
  lemma {:induction false} SelectAppend<T(!new)>(s: seq<T>, t: seq<T>, p: T -> bool)
    ensures Select(s + t, p) == Select(s, p) + Select(t, p)
  {
    if s == [] {
      assert s + t == t;
    } else {
      var u := s + t;
      assert u[0] == s[0] && u[1..] == s[1..] + t;
      SelectAppend(s[1..], t, p);
      if p(s[0]) {
        calc {
          Select(u, p);
          [s[0]] + Select(s[1..] + t, p);
          [s[0]] + (Select(s[1..], p) + Select(t, p));
          ([s[0]] + Select(s[1..], p)) + Select(t, p);
        }
      } else {
        assert Select(u, p) == Select(s[1..] + t, p);
      }
    }
  }

  /** The search test: a non-empty name containing the term, both lowered. */
  predicate MatchesSearch(name: string, searchTerm: string) {
    name != "" && Includes(ToLower(name), ToLower(searchTerm))
  }

  /** The drawings a selection shows, in their original order. */
  function Filtered(drawings: seq<Listed>, folders: seq<FolderEntry>, favorites: seq<string>,
                    searchTerm: string, sidebarSelected: string): (r: seq<Listed>)
    ensures multiset(r) <= multiset(drawings)
    ensures BranchOf(sidebarSelected) == InFolder && FindFolder(folders, sidebarSelected).None? ==> r == []
    ensures BranchOf(sidebarSelected) == InFolder && FindFolder(folders, sidebarSelected).Some? ==>
      forall d :: d in r <==> d in drawings && d.id in FindFolder(folders, sidebarSelected).value.drawingIds
    ensures BranchOf(sidebarSelected) == FavoritesOnly ==>
      forall d :: d in r <==> d in drawings && d.id in favorites
    ensures BranchOf(sidebarSelected) == SearchResults ==>
      forall d :: d in r <==> d in drawings && MatchesSearch(d.name, searchTerm)
    ensures BranchOf(sidebarSelected) == Everything ==> r == drawings
  {
    match BranchOf(sidebarSelected)
    case InFolder =>
      (match FindFolder(folders, sidebarSelected)
       case None => []
       case Some(folder) => Select(drawings, (d: Listed) => d.id in folder.drawingIds))
    case FavoritesOnly => Select(drawings, (d: Listed) => d.id in favorites)
    case SearchResults => Select(drawings, (d: Listed) => MatchesSearch(d.name, searchTerm))
    case Everything => drawings
  }

  /** Every string contains the empty string, so an empty search term
      shows exactly the drawings with a name. */
  lemma EmptySearchShowsNamed(drawings: seq<Listed>, folders: seq<FolderEntry>, favorites: seq<string>)
    ensures forall d :: d in Filtered(drawings, folders, favorites, "", "Results") <==> d in drawings && d.name != ""
  {
    assert BranchOf("Results") == SearchResults by {
      assert "Results"[..|FolderPrefix|][0] != FolderPrefix[0];
    }
    forall d | d in drawings && d.name != ""
      ensures MatchesSearch(d.name, "")
    {
      assert OccursAt(ToLower(d.name), ToLower(""), 0);
    }
  }

  /** The search ignores ASCII case: terms that lower alike show the same
      drawings. */
  lemma SearchIgnoresCase(drawings: seq<Listed>, folders: seq<FolderEntry>, favorites: seq<string>, t1: string, t2: string)
    requires ToLower(t1) == ToLower(t2)
    ensures Filtered(drawings, folders, favorites, t1, "Results") == Filtered(drawings, folders, favorites, t2, "Results")
  {
    assert BranchOf("Results") == SearchResults by {
      assert "Results"[..|FolderPrefix|][0] != FolderPrefix[0];
    }
    SelectSameTest(drawings, (d: Listed) => MatchesSearch(d.name, t1), (d: Listed) => MatchesSearch(d.name, t2));
  }

  /** Filtering with two tests that agree on every element gives the same
      list. */
  lemma {:induction false} SelectSameTest<T(!new)>(s: seq<T>, p: T -> bool, q: T -> bool)
    requires forall x :: p(x) == q(x)
    ensures Select(s, p) == Select(s, q)
  {
    if s != [] {
      SelectSameTest(s[1..], p, q);
    }
  }

  // ---------------------------------------------------------------------
  // Ordering

  /** Code-unit order on names, standing for `localeCompare`. */
  predicate LexLe(a: string, b: string) {
    if a == [] then true
    else if b == [] then false
    else if a[0] != b[0] then a[0] < b[0]
    else LexLe(a[1..], b[1..])
  }

  lemma {:induction false} LexLeTotal(a: string, b: string)
    ensures LexLe(a, b) || LexLe(b, a)
  {
    if a != [] && b != [] && a[0] == b[0] {
      LexLeTotal(a[1..], b[1..]);
    }
  }

  lemma {:induction false} LexLeTransitive(a: string, b: string, c: string)
    requires LexLe(a, b) && LexLe(b, c)
    ensures LexLe(a, c)
  {
    if a != [] && b != [] && c != [] && a[0] == b[0] && b[0] == c[0] {
      LexLeTransitive(a[1..], b[1..], c[1..]);
    }
  }

  lemma {:induction false} LexLeAntisymmetric(a: string, b: string)
    requires LexLe(a, b) && LexLe(b, a)
    ensures a == b
  {
    if a != [] && b != [] {
      LexLeAntisymmetric(a[1..], b[1..]);
      assert a == [a[0]] + a[1..] && b == [b[0]] + b[1..];
    }
  }

  /** The comparator handed to `sort`: negative when `a` goes first. */
  function Compare(sortBy: SortBy, a: Listed, b: Listed): int {
    match sortBy
    case LastCreated => a.createdAt - b.createdAt
    case Alphabetically => if a.name == b.name then 0 else if LexLe(a.name, b.name) then -1 else 1
    case LastModified =>
      if a.updatedAt.Some? && b.updatedAt.Some? then b.updatedAt.value - a.updatedAt.value
      else if a.updatedAt.Some? then -1
      else if b.updatedAt.Some? then 1
      else 0
  }

  /** `a` may go before `b`. */
  predicate Le(sortBy: SortBy, a: Listed, b: Listed) {
    Compare(sortBy, a, b) <= 0
  }

  lemma LeTotal(sortBy: SortBy, a: Listed, b: Listed)
    ensures Le(sortBy, a, b) || Le(sortBy, b, a)
  {
    if sortBy == Alphabetically {
      LexLeTotal(a.name, b.name);
    }
  }

  lemma LeTransitive(sortBy: SortBy, a: Listed, b: Listed, c: Listed)
    requires Le(sortBy, a, b) && Le(sortBy, b, c)
    ensures Le(sortBy, a, c)
  {
    if sortBy == Alphabetically {
      if a.name != b.name && b.name != c.name {
        LexLeTransitive(a.name, b.name, c.name);
        if a.name == c.name {
          LexLeAntisymmetric(a.name, b.name);
        }
      }
    }
  }

  /** Oldest first by creation time. */
  lemma LastCreatedOldestFirst(a: Listed, b: Listed)
    ensures Le(LastCreated, a, b) <==> a.createdAt <= b.createdAt
  {
  }

  /** Newest update first; drawings with an update time before those
      without; those without tie with each other. */
  lemma LastModifiedOrder(a: Listed, b: Listed)
    ensures a.updatedAt.Some? && b.updatedAt.Some? ==> (Le(LastModified, a, b) <==> a.updatedAt.value >= b.updatedAt.value)
    ensures a.updatedAt.Some? && b.updatedAt.None? ==> Le(LastModified, a, b) && !Le(LastModified, b, a)
    ensures a.updatedAt.None? && b.updatedAt.None? ==> Compare(LastModified, a, b) == 0
  {
  }

  /** The comparator with the last-modification order read from the
      field the records do carry, `lastModified`. */
  function CompareIntended(sortBy: SortBy, a: Listed, b: Listed): (r: int)
    ensures sortBy != LastModified ==> r == Compare(sortBy, a, b)
    ensures sortBy == LastModified ==>
      r == Compare(sortBy, a.(updatedAt := a.lastModified), b.(updatedAt := b.lastModified))
  {
    if sortBy == LastModified then
      if a.lastModified.Some? && b.lastModified.Some? then b.lastModified.value - a.lastModified.value
      else if a.lastModified.Some? then -1
      else if b.lastModified.Some? then 1
      else 0
    else Compare(sortBy, a, b)
  }

  /** With the intended field, the newest modification comes first, and
      the order is total and transitive. */
  lemma IntendedNewestFirst(a: Listed, b: Listed, c: Listed)
    ensures a.lastModified.Some? && b.lastModified.Some? ==>
      (CompareIntended(LastModified, a, b) <= 0 <==> a.lastModified.value >= b.lastModified.value)
    ensures CompareIntended(LastModified, a, b) <= 0 || CompareIntended(LastModified, b, a) <= 0
    ensures CompareIntended(LastModified, a, b) <= 0 && CompareIntended(LastModified, b, c) <= 0 ==>
      CompareIntended(LastModified, a, c) <= 0
  {
  }

  /** Two stored records modified at different times tie under the
      comparator as written, so the sort keeps them in their listed order,
      older first; the intended comparator puts the newer first. */
  lemma LastModifiedIgnoresModification()
    ensures var older := Listed("a", "a", 0, Some(1000), None);
            var newer := Listed("b", "b", 0, Some(2000), None);
            Compare(LastModified, older, newer) == 0
            && Sorted(LastModified, [older, newer])
            && CompareIntended(LastModified, newer, older) < 0
            && CompareIntended(LastModified, older, newer) > 0
  {
  }

  predicate Sorted(sortBy: SortBy, s: seq<Listed>) {
    forall i, j :: 0 <= i < j < |s| ==> Le(sortBy, s[i], s[j])
  }

  /** Every pair compares equal. */
  predicate AllTies(sortBy: SortBy, s: seq<Listed>) {
    forall i, j :: 0 <= i < |s| && 0 <= j < |s| ==> Compare(sortBy, s[i], s[j]) == 0
  }

  /** The stored records carry no `updatedAt`, so by last modification
      everything ties. */
  lemma NoUpdateTimesAllTie(s: seq<Listed>)
    requires forall i :: 0 <= i < |s| ==> s[i].updatedAt.None?
    ensures AllTies(LastModified, s)
  {
  }

  /** `s` with the elements at `j - 1` and `j` exchanged. */
  function SwapDown(s: seq<Listed>, j: int): (r: seq<Listed>)
    requires 0 < j < |s|
    ensures |r| == |s| && r[j - 1] == s[j] && r[j] == s[j - 1]
    ensures forall k :: 0 <= k < |s| && k != j - 1 && k != j ==> r[k] == s[k]
    ensures multiset(r) == multiset(s)
  {
    var r := s[j - 1 := s[j]][j := s[j - 1]];
    assert s == s[..j - 1] + [s[j - 1], s[j]] + s[j + 1..];
    assert r == s[..j - 1] + [s[j], s[j - 1]] + s[j + 1..];
    r
  }

  /** The state of one insertion: `s` is `o` with its element `i` moved
      down to position `j`, past only elements that must follow it. */
  predicate Inserting(sortBy: SortBy, s: seq<Listed>, o: seq<Listed>, i: int, j: int) {
    0 <= j <= i < |s| == |o|
    && multiset(s) == multiset(o)
    && s[i + 1..] == o[i + 1..]
    && s[..j] == o[..j]
    && Sorted(sortBy, o[..i])
    && (forall k, l :: j < k < l <= i ==> Le(sortBy, s[k], s[l]))
    && (forall k, l :: 0 <= k < j < l <= i ==> Le(sortBy, s[k], s[l]))
    && (forall l :: j < l <= i ==> Le(sortBy, s[j], s[l]))
  }

  /** Moving the element one place further down keeps the insertion state. */
  lemma InsertingStep(sortBy: SortBy, s: seq<Listed>, o: seq<Listed>, i: int, j: int)
    requires Inserting(sortBy, s, o, i, j) && j > 0 && Compare(sortBy, s[j - 1], s[j]) > 0
    ensures Inserting(sortBy, SwapDown(s, j), o, i, j - 1)
  {
    var r := SwapDown(s, j);
    LeTotal(sortBy, s[j - 1], s[j]);
    assert r[i + 1..] == s[i + 1..];
    assert r[..j - 1] == s[..j - 1];
    forall k, l | 0 <= k < j - 1 < l <= i
      ensures Le(sortBy, r[k], r[l])
    {
      if l == j {
        assert r[k] == o[..i][k] && r[l] == o[..i][j - 1];
      }
    }
  }

  /** Once the element stops, the first `i + 1` places are in order. */
  lemma InsertingDone(sortBy: SortBy, s: seq<Listed>, o: seq<Listed>, i: int, j: int)
    requires Inserting(sortBy, s, o, i, j) && (j == 0 || Le(sortBy, s[j - 1], s[j]))
    ensures Sorted(sortBy, s[..i + 1])
  {
    forall k | 0 <= k < j
      ensures Le(sortBy, s[k], s[j])
    {
      if k < j - 1 {
        assert Le(sortBy, o[..i][k], o[..i][j - 1]);
        LeTransitive(sortBy, s[k], s[j - 1], s[j]);
      }
    }
    forall k, l | 0 <= k < l <= i
      ensures Le(sortBy, s[k], s[l])
    {
      if l < j {
        assert s[k] == o[..i][k] && s[l] == o[..i][l];
      }
    }
  }

  /** One step of the in-place sort: the element at `i` is moved left past
      every element that must come after it. */
  method InsertStep(a: array<Listed>, i: int, sortBy: SortBy)
    requires 0 < i < a.Length
    requires Sorted(sortBy, a[..i])
    modifies a
    ensures Sorted(sortBy, a[..i + 1])
    ensures multiset(a[..]) == multiset(old(a[..]))
    ensures a[i + 1..] == old(a[i + 1..])
    ensures AllTies(sortBy, old(a[..])) ==> a[..] == old(a[..])
  {
    var j := i;
    while j > 0 && Compare(sortBy, a[j - 1], a[j]) > 0
      invariant Inserting(sortBy, a[..], old(a[..]), i, j)
      invariant AllTies(sortBy, old(a[..])) ==> a[..] == old(a[..])
      decreases j
    {
      ghost var before := a[..];
      InsertingStep(sortBy, before, old(a[..]), i, j);
      a[j - 1], a[j] := a[j], a[j - 1];
      assert a[..] == SwapDown(before, j);
      j := j - 1;
    }
    InsertingDone(sortBy, a[..], old(a[..]), i, j);
  }

  /** The `sort` call: afterwards the array is ordered and holds the same
      drawings; when everything ties it is left as it was. */
  method SortInPlace(a: array<Listed>, sortBy: SortBy)
    modifies a
    ensures Sorted(sortBy, a[..])
    ensures multiset(a[..]) == multiset(old(a[..]))
    ensures AllTies(sortBy, old(a[..])) ==> a[..] == old(a[..])
  {
    if a.Length == 0 {
      return;
    }
    var i := 1;
    while i < a.Length
      invariant 1 <= i <= a.Length
      invariant Sorted(sortBy, a[..i])
      invariant multiset(a[..]) == multiset(old(a[..]))
      invariant AllTies(sortBy, old(a[..])) ==> a[..] == old(a[..])
    {
      InsertStep(a, i, sortBy);
      i := i + 1;
    }
    assert a[..] == a[..a.Length];
  }

  /** `filterAndSortDrawings`. The selection's drawings, ordered by the
      chosen key. A selection that shows everything sorts and returns the
      caller's own array; any other returns a new array and leaves the
      caller's alone. */
  method FilterAndSortDrawings(drawings: array<Listed>, folders: seq<FolderEntry>, favorites: seq<string>,
                               searchTerm: string, sortBy: SortBy, sidebarSelected: string)
    returns (result: array<Listed>)
    modifies drawings
    ensures BranchOf(sidebarSelected) == Everything ==> result == drawings
    ensures BranchOf(sidebarSelected) != Everything ==> fresh(result) && drawings[..] == old(drawings[..])
    ensures multiset(result[..]) == multiset(Filtered(old(drawings[..]), folders, favorites, searchTerm, sidebarSelected))
    ensures Sorted(sortBy, result[..])
    ensures AllTies(sortBy, Filtered(old(drawings[..]), folders, favorites, searchTerm, sidebarSelected)) ==>
      result[..] == Filtered(old(drawings[..]), folders, favorites, searchTerm, sidebarSelected)
  {
    var f := Filtered(drawings[..], folders, favorites, searchTerm, sidebarSelected);
    if BranchOf(sidebarSelected) == Everything {
      result := drawings;
    } else {
      result := new Listed[|f|](i requires 0 <= i < |f| => f[i]);
      assert result[..] == f;
    }
    SortInPlace(result, sortBy);
  }

  /** Sorting the stored records by last modification returns the
      selection's drawings in the order they were listed. */
  method LastModifiedKeepsListedOrder(drawings: array<Listed>, folders: seq<FolderEntry>, favorites: seq<string>,
                                      searchTerm: string, sidebarSelected: string)
    returns (result: array<Listed>)
    requires forall i :: 0 <= i < drawings.Length ==> drawings[i].updatedAt.None?
    modifies drawings
    ensures result[..] == Filtered(old(drawings[..]), folders, favorites, searchTerm, sidebarSelected)
  {
    var f := Filtered(drawings[..], folders, favorites, searchTerm, sidebarSelected);
    forall i | 0 <= i < |f|
      ensures f[i].updatedAt.None?
    {
      assert f[i] in multiset(drawings[..]);
    }
    NoUpdateTimesAllTie(f);
    result := FilterAndSortDrawings(drawings, folders, favorites, searchTerm, LastModified, sidebarSelected);
  }
}
