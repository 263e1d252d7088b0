/** The identifier mapping of the synchronisation engine (Mappings.ts): for
    each item type a pair of dictionaries, `LocalToServer` and
    `ServerToLocal`, translating an item's id between the two locations.

    JavaScript dictionaries are keyed by strings; indexing one with an
    `undefined` id uses the key "undefined" (`KeyOf`). */
module Mappings {
  import opened Common

  type Id = string

  /** `ItemLocation`: where an item lives. */
  datatype Location = Local | Server

  /** The item types the snapshot has tables for. */
  datatype ItemType = BookmarkType | FolderType

  /** An item as the mapping sees it (`TItem`): its id and parent id may be
      undefined, e.g. after a failed lookup was assigned to them. */
  datatype Item = Item(id: Option<Id>, parentId: Option<Id>, itemType: ItemType, location: Location, title: string)

  /** The property key JavaScript uses for `dict[id]`. */
  function KeyOf(id: Option<Id>): string {
    match id
    case Some(s) => s
    case None => "undefined"
  }

  /** `dict[id]`, which is `undefined` when the key is absent. */
  function Get(m: map<string, Id>, id: Option<Id>): Option<Id> {
    if KeyOf(id) in m then Some(m[KeyOf(id)]) else None
  }

  /** The contents of one `InternalItemTypeMapping`. */
  datatype Tables = Tables(localToServer: map<string, Id>, serverToLocal: map<string, Id>)

  /** The two dictionaries are mutual inverses. */
  ghost predicate Consistent(t: Tables) {
    && (forall k :: k in t.localToServer ==>
          t.localToServer[k] in t.serverToLocal && t.serverToLocal[t.localToServer[k]] == k)
    && (forall k :: k in t.serverToLocal ==>
          t.serverToLocal[k] in t.localToServer && t.localToServer[t.serverToLocal[k]] == k)
  }

  /** The errors the mapping operations throw. */
  datatype MappingError =
    | EmptyMapping          // "Cannot add empty mapping"
    | TypeErrorOnUndefined  // reading `LocalToServer` of `undefined`

  /** The effect of a successful `add`: both directions are written, nothing
      else is touched. */
  function Added(t: Tables, localId: Id, remoteId: Id): Tables {
    Tables(t.localToServer[localId := remoteId], t.serverToLocal[remoteId := localId])
  }

  /** `remove` by local id: the partner's inverse entry, then the entry itself. */
  function RemovedByLocal(t: Tables, localId: Option<Id>): Tables {
    Tables(t.localToServer - {KeyOf(localId)},
           t.serverToLocal - {KeyOf(Get(t.localToServer, localId))})
  }

  /** `remove` by remote id: the mirror image of `RemovedByLocal`. */
  function RemovedByRemote(t: Tables, remoteId: Option<Id>): Tables {
    Tables(t.localToServer - {KeyOf(Get(t.serverToLocal, remoteId))},
           t.serverToLocal - {KeyOf(remoteId)})
  }

  /** Whether `remove` takes its (broken) self-heal branch: both ids truthy
      and the stored pair disagreeing with them. */
  predicate TakesSelfHealBranch(t: Tables, localId: Option<Id>, remoteId: Option<Id>) {
    Truthy(localId) && Truthy(remoteId) && Get(t.localToServer, localId) != remoteId
  }

  /** One `InternalItemTypeMapping` object; `add` and `remove` change it in place. */
  class ItemTypeMapping {
    var localToServer: map<string, Id>
    var serverToLocal: map<string, Id>

    constructor (t: Tables)
      ensures Value() == t
    {
      localToServer := t.localToServer;
      serverToLocal := t.serverToLocal;
    }

    function Value(): Tables
      reads this
    {
      Tables(localToServer, serverToLocal)
    }
  }

  /** `Mappings.add`: refuses an undefined id, otherwise writes both directions. */
  method Add(m: ItemTypeMapping, localId: Option<Id>, remoteId: Option<Id>) returns (err: Option<MappingError>)
    modifies m
    ensures err.Some? <==> localId.None? || remoteId.None?
    ensures err.Some? ==> err.value == EmptyMapping && m.Value() == old(m.Value())
    ensures err.None? ==> m.Value() == Added(old(m.Value()), localId.value, remoteId.value)
  {
    if localId.None? || remoteId.None? {
      return Some(EmptyMapping);
    }
    m.localToServer := m.localToServer[localId.value := remoteId.value];
    m.serverToLocal := m.serverToLocal[remoteId.value := localId.value];
    err := None;
  }

  /** `Mappings.remove`. When both ids are truthy and disagree with the stored
      pair it removes by local id and then calls itself on that call's
      result, which is `undefined`; that second call throws, after the local
      side is already gone. `m == null` stands for that `undefined` table. */
  method Remove(m: ItemTypeMapping?, localId: Option<Id>, remoteId: Option<Id>) returns (err: Option<MappingError>)
    modifies m
    decreases (if localId.Some? then 1 else 0) + (if remoteId.Some? then 1 else 0)
    ensures m == null ==> err == Some(TypeErrorOnUndefined)
    ensures m != null && TakesSelfHealBranch(old(m.Value()), localId, remoteId) ==>
      err == Some(TypeErrorOnUndefined) && m.Value() == RemovedByLocal(old(m.Value()), localId)
    ensures m != null && !TakesSelfHealBranch(old(m.Value()), localId, remoteId) ==>
      err.None? &&
      m.Value() == if localId.Some? then RemovedByLocal(old(m.Value()), localId)
                   else RemovedByRemote(old(m.Value()), remoteId)
  {
    if Truthy(localId) && Truthy(remoteId) {
      if m == null {
        return Some(TypeErrorOnUndefined);
      }
      if Get(m.localToServer, localId) != remoteId {
        err := Remove(m, localId, None);
        // the first call returns nothing, and that `undefined` is the table of the second
        var returned: ItemTypeMapping? := null;
        err := Remove(returned, None, remoteId);
        return;
      }
    }
    if m == null {
      return Some(TypeErrorOnUndefined);
    }
    if localId.Some? {
      m.serverToLocal := m.serverToLocal - {KeyOf(Get(m.localToServer, localId))};
      m.localToServer := m.localToServer - {KeyOf(localId)};
    } else {
      m.localToServer := m.localToServer - {KeyOf(Get(m.serverToLocal, remoteId))};
      m.serverToLocal := m.serverToLocal - {KeyOf(remoteId)};
    }
    err := None;
  }

  /** The per-type tables of one direction of a snapshot (`Mapping`). */
  datatype TypeTables = TypeTables(bookmark: map<string, Id>, folder: map<string, Id>) {
    function Of(t: ItemType): map<string, Id> {
      match t
      case BookmarkType => bookmark
      case FolderType => folder
    }
  }

  /** `MappingSnapshot`: both directions for both item types. */
  datatype Snapshot = Snapshot(serverToLocal: TypeTables, localToServer: TypeTables) {
    /** `snapshot[from + "To" + to]` for two different locations. */
    function Direction(from: Location): TypeTables {
      match from
      case Local => localToServer
      case Server => serverToLocal
    }
  }

  /** The `Mappings` instance: one table pair for folders, one for bookmarks. */
  class Mappings {
    const folders: ItemTypeMapping
    const bookmarks: ItemTypeMapping

    constructor (foldersData: ItemTypeMapping, bookmarksData: ItemTypeMapping)
      ensures folders == foldersData && bookmarks == bookmarksData
    {
      folders := foldersData;
      bookmarks := bookmarksData;
    }

    /** `getSnapshot`: copies of the four dictionaries. A snapshot is a value,
        so later changes to the instance cannot reach it. */
    function GetSnapshot(): (s: Snapshot)
      reads folders, bookmarks
      ensures s.localToServer.Of(BookmarkType) == bookmarks.localToServer
      ensures s.serverToLocal.Of(BookmarkType) == bookmarks.serverToLocal
      ensures s.localToServer.Of(FolderType) == folders.localToServer
      ensures s.serverToLocal.Of(FolderType) == folders.serverToLocal
    {
      Snapshot(TypeTables(bookmarks.serverToLocal, folders.serverToLocal),
               TypeTables(bookmarks.localToServer, folders.localToServer))
    }

    method AddFolder(localId: Option<Id>, remoteId: Option<Id>) returns (err: Option<MappingError>)
      modifies folders
      ensures err.Some? <==> localId.None? || remoteId.None?
      ensures err.Some? ==> folders.Value() == old(folders.Value())
      ensures err.None? ==> folders.Value() == Added(old(folders.Value()), localId.value, remoteId.value)
    {
      err := Add(folders, localId, remoteId);
    }

    method AddBookmark(localId: Option<Id>, remoteId: Option<Id>) returns (err: Option<MappingError>)
      modifies bookmarks
      ensures err.Some? <==> localId.None? || remoteId.None?
      ensures err.Some? ==> bookmarks.Value() == old(bookmarks.Value())
      ensures err.None? ==> bookmarks.Value() == Added(old(bookmarks.Value()), localId.value, remoteId.value)
    {
      err := Add(bookmarks, localId, remoteId);
    }

    method RemoveFolder(localId: Option<Id>, remoteId: Option<Id>) returns (err: Option<MappingError>)
      modifies folders
      ensures TakesSelfHealBranch(old(folders.Value()), localId, remoteId) ==>
        err == Some(TypeErrorOnUndefined) && folders.Value() == RemovedByLocal(old(folders.Value()), localId)
      ensures !TakesSelfHealBranch(old(folders.Value()), localId, remoteId) ==>
        err.None? &&
        folders.Value() == if localId.Some? then RemovedByLocal(old(folders.Value()), localId)
                           else RemovedByRemote(old(folders.Value()), remoteId)
    {
      err := Remove(folders, localId, remoteId);
    }

    method RemoveBookmark(localId: Option<Id>, remoteId: Option<Id>) returns (err: Option<MappingError>)
      modifies bookmarks
      ensures TakesSelfHealBranch(old(bookmarks.Value()), localId, remoteId) ==>
        err == Some(TypeErrorOnUndefined) && bookmarks.Value() == RemovedByLocal(old(bookmarks.Value()), localId)
      ensures !TakesSelfHealBranch(old(bookmarks.Value()), localId, remoteId) ==>
        err.None? &&
        bookmarks.Value() == if localId.Some? then RemovedByLocal(old(bookmarks.Value()), localId)
                             else RemovedByRemote(old(bookmarks.Value()), remoteId)
    {
      err := Remove(bookmarks, localId, remoteId);
    }
  }

  /** `Mappings.mapId`: the item's own id within its location, otherwise the
      entry of the `location + "To" + target` table for its type, which may
      be undefined. A mapped id is always one the table holds as a partner. */
  function MapId(s: Snapshot, item: Item, target: Location): (r: Option<Id>)
    ensures item.location == target ==> r == item.id
    ensures item.location != target && r.Some? ==> r.value in s.Direction(item.location).Of(item.itemType).Values
  {
    if item.location == target then item.id
    else Get(s.Direction(item.location).Of(item.itemType), item.id)
  }

  /** `Mappings.mapParentId`: like `MapId` over `parentId`, but always in the
      folder table, whatever the item's type; that is, `mapId` of the parent
      folder. */
  function MapParentId(s: Snapshot, item: Item, target: Location): (r: Option<Id>)
    ensures r == MapId(s, ParentFolder(item), target)
  {
    if item.location == target then item.parentId
    else Get(s.Direction(item.location).folder, item.parentId)
  }

  /** The parent of an item, as a folder item at the same location. */
  function ParentFolder(item: Item): Item {
    Item(item.parentId, None, FolderType, item.location, "")
  }

  /** `Mappings.mappable`: either item maps onto the other. Two items at the
      same location are mappable exactly when their ids are equal. */
  function Mappable(s: Snapshot, item1: Item, item2: Item): (r: bool)
    ensures item1.location == item2.location ==> (r <==> item1.id == item2.id)
  {
    MapId(s, item1, item2.location) == item2.id || MapId(s, item2, item1.location) == item1.id
  }

  /** Both directions of a snapshot are inverse, for each item type. */
  ghost predicate SnapshotConsistent(s: Snapshot) {
    forall t: ItemType :: Consistent(Tables(s.localToServer.Of(t), s.serverToLocal.Of(t)))
  }

  /** On a consistent snapshot, mapping a defined id to the other location
      and back gives the id again. */
  lemma MapIdRoundTrip(s: Snapshot, item: Item, target: Location)
    requires SnapshotConsistent(s)
    requires item.location != target && item.id.Some?
    requires MapId(s, item, target).Some?
    ensures MapId(s, item.(id := MapId(s, item, target), location := target), item.location) == item.id
  {
    var t := Tables(s.localToServer.Of(item.itemType), s.serverToLocal.Of(item.itemType));
    assert Consistent(t);
  }

  /** On a consistent snapshot, two items of one type at different locations
      with defined ids are mappable exactly when the first maps onto the
      second: `mappable`'s second test adds nothing. */
  lemma MappableOneWay(s: Snapshot, a: Item, b: Item)
    requires SnapshotConsistent(s)
    requires a.location != b.location && a.itemType == b.itemType
    requires a.id.Some? && b.id.Some?
    ensures Mappable(s, a, b) <==> MapId(s, a, b.location) == b.id
  {
    var t := Tables(s.localToServer.Of(a.itemType), s.serverToLocal.Of(a.itemType));
    assert Consistent(t);
  }

  // ---------------------------------------------------------------------
  // Properties

  /** A failed `add` changes nothing; a successful one writes exactly the two
      entries, so both lookups answer with the partner. */
  lemma AddWritesBothDirections(t: Tables, localId: Id, remoteId: Id)
    ensures Get(Added(t, localId, remoteId).localToServer, Some(localId)) == Some(remoteId)
    ensures Get(Added(t, localId, remoteId).serverToLocal, Some(remoteId)) == Some(localId)
    ensures forall k :: k != localId ==> Get(Added(t, localId, remoteId).localToServer, Some(k)) == Get(t.localToServer, Some(k))
    ensures forall k :: k != remoteId ==> Get(Added(t, localId, remoteId).serverToLocal, Some(k)) == Get(t.serverToLocal, Some(k))
  {
  }

  /** Re-adding a local id that already had another partner leaves the old
      partner's inverse entry behind: the tables stop being inverses. */
  lemma {:induction false} AddLeavesStaleInverse(t: Tables, localId: Id, oldRemote: Id, remoteId: Id)
    requires Consistent(t)
    requires localId in t.localToServer && t.localToServer[localId] == oldRemote
    requires oldRemote != remoteId
    ensures oldRemote in Added(t, localId, remoteId).serverToLocal
    ensures Added(t, localId, remoteId).serverToLocal[oldRemote] == localId
    ensures Added(t, localId, remoteId).localToServer[localId] == remoteId
    ensures !Consistent(Added(t, localId, remoteId))
  {
    var t' := Added(t, localId, remoteId);
    assert t.serverToLocal[oldRemote] == localId;
    assert t'.serverToLocal[oldRemote] == localId;
    assert t'.localToServer[t'.serverToLocal[oldRemote]] == remoteId;
  }

  /** Adding a pair of ids that are both unmapped keeps the tables inverse. */
  lemma AddFreshPairKeepsConsistency(t: Tables, localId: Id, remoteId: Id)
    requires Consistent(t)
    requires localId !in t.localToServer && remoteId !in t.serverToLocal
    ensures Consistent(Added(t, localId, remoteId))
  {
    var t' := Added(t, localId, remoteId);
    forall k | k in t'.localToServer
      ensures t'.localToServer[k] in t'.serverToLocal && t'.serverToLocal[t'.localToServer[k]] == k
    {
      if k != localId {
        assert t.localToServer[k] != remoteId;
      }
    }
    forall k | k in t'.serverToLocal
      ensures t'.serverToLocal[k] in t'.localToServer && t'.localToServer[t'.serverToLocal[k]] == k
    {
      if k != remoteId {
        assert t.serverToLocal[k] != localId;
      }
    }
  }

  /** On inverse tables, removal by local id removes both directions of the
      pair and keeps the tables inverse; for an unmapped local id this needs
      the key "undefined" to be absent (see `RemoveUnmappedLocalId`). */
  lemma RemoveByLocalKeepsConsistency(t: Tables, localId: Id)
    requires Consistent(t)
    requires localId in t.localToServer || "undefined" !in t.serverToLocal
    ensures Consistent(RemovedByLocal(t, Some(localId)))
    ensures localId !in RemovedByLocal(t, Some(localId)).localToServer
    ensures localId in t.localToServer ==> t.localToServer[localId] !in RemovedByLocal(t, Some(localId)).serverToLocal
  {
    var t' := RemovedByLocal(t, Some(localId));
    if localId in t.localToServer {
      var r := t.localToServer[localId];
      forall k | k in t'.serverToLocal
        ensures t'.serverToLocal[k] in t'.localToServer && t'.localToServer[t'.serverToLocal[k]] == k
      {
        assert t.serverToLocal[k] != localId;
      }
    } else {
      forall k | k in t'.serverToLocal
        ensures t'.serverToLocal[k] in t'.localToServer && t'.localToServer[t'.serverToLocal[k]] == k
      {
        assert t.serverToLocal[k] in t.localToServer;
      }
    }
  }

  /** The mirror image for removal by remote id: on inverse tables it
      removes both directions of the pair and keeps the tables inverse; for
      an unmapped remote id this needs the key "undefined" to be absent from
      `LocalToServer`. */
  lemma RemoveByRemoteKeepsConsistency(t: Tables, remoteId: Id)
    requires Consistent(t)
    requires remoteId in t.serverToLocal || "undefined" !in t.localToServer
    ensures Consistent(RemovedByRemote(t, Some(remoteId)))
    ensures remoteId !in RemovedByRemote(t, Some(remoteId)).serverToLocal
    ensures remoteId in t.serverToLocal ==> t.serverToLocal[remoteId] !in RemovedByRemote(t, Some(remoteId)).localToServer
  {
    var t' := RemovedByRemote(t, Some(remoteId));
    if remoteId in t.serverToLocal {
      forall k | k in t'.localToServer
        ensures t'.localToServer[k] in t'.serverToLocal && t'.serverToLocal[t'.localToServer[k]] == k
      {
        assert t.localToServer[k] != remoteId;
      }
    } else {
      forall k | k in t'.localToServer
        ensures t'.localToServer[k] in t'.serverToLocal && t'.serverToLocal[t'.localToServer[k]] == k
      {
        assert t.localToServer[k] in t.serverToLocal;
      }
    }
  }

  /** Removing a local id that has no entry looks up its partner as
      `undefined` and so deletes the `ServerToLocal` entry stored under the
      key "undefined", whoever it belongs to. */
  lemma RemoveUnmappedLocalId(t: Tables, localId: Id)
    requires localId !in t.localToServer
    ensures RemovedByLocal(t, Some(localId)).localToServer == t.localToServer
    ensures RemovedByLocal(t, Some(localId)).serverToLocal == t.serverToLocal - {"undefined"}
  {
  }

  /** The self-heal branch of `remove` never completes: it always throws, and
      leaves the tables as if only the local id had been given. */
  lemma SelfHealBranchOutcome(t: Tables, localId: Id, remoteId: Id)
    requires localId != "" && remoteId != ""
    requires Get(t.localToServer, Some(localId)) != Some(remoteId)
    ensures TakesSelfHealBranch(t, Some(localId), Some(remoteId))
    ensures localId !in RemovedByLocal(t, Some(localId)).localToServer
  {
  }

  /** An empty-string local id is falsy, so the consistency check is skipped
      and the call removes by that local id even when a remote id is given. */
  lemma FalsyLocalIdSkipsSelfHeal(t: Tables, remoteId: Option<Id>)
    ensures !TakesSelfHealBranch(t, Some(""), remoteId)
  {
  }

  /** `mapId` is the identity within a location. */
  lemma MapIdWithinLocation(s: Snapshot, item: Item)
    ensures MapId(s, item, item.location) == item.id
    ensures MapParentId(s, item, item.location) == item.parentId
  {
  }

  /** `mapParentId` does not depend on the item's type. */
  lemma MapParentIdIgnoresType(s: Snapshot, item: Item, target: Location)
    ensures MapParentId(s, item, target) == MapParentId(s, item.(itemType := FolderType), target)
    ensures MapParentId(s, item, target) == MapParentId(s, item.(itemType := BookmarkType), target)
  {
  }

  /** `mappable` is symmetric. */
  lemma MappableSymmetric(s: Snapshot, a: Item, b: Item)
    ensures Mappable(s, a, b) == Mappable(s, b, a)
  {
  }

  /** After `addBookmark(l, r)`, a fresh snapshot maps Local bookmark `l` to
      `r` and Server bookmark `r` to `l`, while a snapshot taken before keeps
      its old contents. */
  method SnapshotAfterAddBookmark(m: Mappings, localId: Id, remoteId: Id, item: Item)
    returns (before: Snapshot, after: Snapshot)
    requires item.itemType == BookmarkType
    modifies m.bookmarks
    ensures before == old(m.GetSnapshot())
    ensures after == m.GetSnapshot()
    ensures MapId(after, item.(id := Some(localId), location := Local), Server) == Some(remoteId)
    ensures MapId(after, item.(id := Some(remoteId), location := Server), Local) == Some(localId)
    ensures Mappable(after, item.(id := Some(localId), location := Local), item.(id := Some(remoteId), location := Server))
  {
    before := m.GetSnapshot();
    var err := m.AddBookmark(Some(localId), Some(remoteId));
    after := m.GetSnapshot();
  }
}
