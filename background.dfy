/** The background message handlers (background/index.ts) that read and
    write drawing records in the extension's local store: saving a new
    drawing, updating and renaming one, collecting the file ids still in
    use, reconciling with the cloud at login, and logging out.

    The store is a dictionary from record id to drawing record. Values the
    handlers obtain from outside (the clock, the content hash, the cloud
    drive's answers, the JSON parser) are parameters. */
module Background {
  import opened Common

  /** The four serialised parts of a drawing. */
  datatype DrawingData = DrawingData(excalidraw: string, excalidrawState: string, versionFiles: string, versionDataState: string)

  /** A stored drawing record (`IDrawing`); timestamps are ISO date strings,
      kept opaque. */
  datatype Drawing = Drawing(
    id: string,
    name: string,
    createdAt: string,
    imageBase64: Option<string>,
    viewBackgroundColor: Option<string>,
    hash: Option<string>,
    lastSync: Option<string>,
    lastModified: Option<string>,
    data: DrawingData)

  /** The prefix that marks a drawing record's id. */
  const DrawingPrefix := "drawing:"

  /** The `o?.id?.startsWith?.("drawing:")` filter. */
  predicate IsDrawingRecord(d: Drawing) {
    StartsWith(d.id, DrawingPrefix)
  }

  /** JavaScript `a || b` on strings: `b` when `a` is empty. */
  function OrElse(a: string, b: string): string {
    if a != "" then a else b
  }

  /** JavaScript `a || b` on optional strings: `b` when `a` is falsy. */
  function OrElseOpt(a: Option<string>, b: Option<string>): Option<string> {
    if Truthy(a) then a else b
  }

  // ---------------------------------------------------------------------
  // Message payloads and the outside world

  /** The payload of SAVE_NEW_DRAWING and UPDATE_DRAWING. */
  datatype DrawingPayload = DrawingPayload(
    id: string,
    name: string,
    imageBase64: Option<string>,
    viewBackgroundColor: Option<string>,
    data: DrawingData)

  /** A file listed by the cloud drive: its drive id, file name, modification
      time and the properties the extension stored on it. */
  datatype CloudFile = CloudFile(id: string, name: string, modifiedTime: string, excalisaveId: string, hash: Option<string>)

  /** What downloading a cloud file yields: the fields of the exported
      drawing the login handler copies (elements and app state already
      serialised). */
  datatype FileContent = FileContent(
    createdAt: string,
    imageBase64: Option<string>,
    viewBackgroundColor: Option<string>,
    elements: string,
    appState: string)

  /** One element of a drawing's element list, as far as file-id collection
      looks at it. */
  datatype Element = Element(elementType: string, fileId: Option<string>)

  /** The scope the login result must grant. */
  const DriveFileScope := "https://www.googleapis.com/auth/drive.file"

  // ---------------------------------------------------------------------
  // Records built by the handlers

  /** SAVE_NEW_DRAWING's record: no hash, no sync or modification time. */
  function NewRecord(p: DrawingPayload, now: string): (d: Drawing)
    ensures d.id == p.id && d.name == p.name && d.createdAt == now && d.data == p.data
    ensures d.imageBase64 == p.imageBase64 && d.viewBackgroundColor == p.viewBackgroundColor
    ensures d.hash.None? && d.lastSync.None? && d.lastModified.None?
  {
    Drawing(p.id, p.name, now, p.imageBase64, p.viewBackgroundColor, None, None, None, p.data)
  }

  /** UPDATE_DRAWING writes only when the content hash or the editor state
      changed. */
  predicate UpdateWrites(cur: Drawing, p: DrawingPayload, hash: string) {
    Some(hash) != cur.hash || p.data.excalidrawState != cur.data.excalidrawState
  }

  /** UPDATE_DRAWING's new record. */
  function UpdatedRecord(cur: Drawing, p: DrawingPayload, hash: string, now: string): (d: Drawing)
    ensures d.id == cur.id && d.createdAt == cur.createdAt && d.lastSync == cur.lastSync
    ensures d.hash == Some(hash) && d.data == p.data
    ensures Some(hash) != cur.hash ==> d.lastModified == Some(now)
    ensures Some(hash) == cur.hash ==> d.lastModified == cur.lastModified
    ensures d.name == (if p.name != "" then p.name else cur.name)
    ensures d.imageBase64 == (if Truthy(p.imageBase64) then p.imageBase64 else cur.imageBase64)
    ensures d.viewBackgroundColor == (if Truthy(p.viewBackgroundColor) then p.viewBackgroundColor else cur.viewBackgroundColor)
  {
    cur.(name := OrElse(p.name, cur.name),
         imageBase64 := OrElseOpt(p.imageBase64, cur.imageBase64),
         viewBackgroundColor := OrElseOpt(p.viewBackgroundColor, cur.viewBackgroundColor),
         hash := Some(hash),
         lastModified := if Some(hash) != cur.hash then Some(now) else cur.lastModified,
         data := p.data)
  }

  /** A record after a cloud save answered with a modification time: sync
      and modification time become that time, nothing else changes. */
  function Synced(d: Drawing, modifiedTime: string): (r: Drawing)
    ensures r.lastSync == Some(modifiedTime) && r.lastModified == Some(modifiedTime)
    ensures r.(lastSync := d.lastSync, lastModified := d.lastModified) == d
  {
    d.(lastSync := Some(modifiedTime), lastModified := Some(modifiedTime))
  }

  /** `s.split(sep)[0]`: the part of `s` before the first occurrence of a
      non-empty `sep`, or all of `s` when `sep` does not occur. */
  function BeforeFirst(s: string, sep: string): (r: string)
    requires sep != ""
    ensures StartsWith(s, r)
    ensures r == s <==> !Includes(s, sep)
    ensures r != s ==> OccursAt(s, sep, |r|)
    ensures forall i :: 0 <= i < |r| ==> !OccursAt(s, sep, i)
  {
    if |s| < |sep| then
      assert !Includes(s, sep);
      s
    else if s[..|sep|] == sep then
      assert OccursAt(s, sep, 0);
      ""
    else
      var rest := BeforeFirst(s[1..], sep);
      var r := [s[0]] + rest;
      assert s == [s[0]] + s[1..];
      OccursInTail(s, sep);
      assert r == s <==> rest == s[1..];
      r
  }

  /** A separator occurs at position `i + 1` of `s` exactly when it occurs
      at `i` of its tail. */
  lemma OccursInTail(s: string, sep: string)
    requires s != []
    ensures forall j :: 1 <= j ==> (OccursAt(s, sep, j) <==> OccursAt(s[1..], sep, j - 1))
    ensures forall i :: 0 <= i ==> (OccursAt(s[1..], sep, i) <==> OccursAt(s, sep, i + 1))
  {
    forall i | 0 <= i
      ensures OccursAt(s[1..], sep, i) <==> OccursAt(s, sep, i + 1)
    {
      if i <= |s[1..]| - |sep| {
        assert s[1..][i..i + |sep|] == s[i + 1..i + 1 + |sep|];
      }
    }
  }

  /** The local record LOGIN_RESULT creates for a cloud file that has none:
      named after the file name without its extension, with the cloud hash,
      and synced at the file's modification time. */
  function DownloadedRecord(f: CloudFile, c: FileContent, versionNow: string): (d: Drawing)
    ensures d.id == f.excalisaveId && d.hash == f.hash
    ensures d.lastSync == Some(f.modifiedTime) && d.lastModified == Some(f.modifiedTime)
    ensures StartsWith(f.name, d.name) && (Includes(f.name, ".excalidraw") ==> OccursAt(f.name, ".excalidraw", |d.name|))
    ensures d.viewBackgroundColor == Some(if Truthy(c.viewBackgroundColor) then c.viewBackgroundColor.value else "#ffffff")
  {
    Drawing(f.excalisaveId, BeforeFirst(f.name, ".excalidraw"), c.createdAt, c.imageBase64,
            Some(if Truthy(c.viewBackgroundColor) then c.viewBackgroundColor.value else "#ffffff"),
            f.hash, Some(f.modifiedTime), Some(f.modifiedTime),
            DrawingData(c.elements, c.appState, versionNow, versionNow))
  }

  // ---------------------------------------------------------------------
  // Whole-store effects

  type Store = map<string, Drawing>

  /** Every record is stored under its own id. */
  predicate WellKeyed(m: Store) {
    forall k :: k in m ==> m[k].id == k
  }

  /** The store after LOGIN_RESULT has looked at one cloud file: a missing
      record is downloaded (a failed download is skipped); a record whose
      truthy hash equals the file's is marked synced; any other record is
      left alone. */
  function SyncedFile(m: Store, f: CloudFile, download: string -> Option<FileContent>, versionNow: string): (r: Store)
    ensures r.Keys == m.Keys + (if f.excalisaveId !in m && download(f.id).Some? then {f.excalisaveId} else {})
    ensures forall k :: k in m && k != f.excalisaveId ==> r[k] == m[k]
    ensures f.excalisaveId !in m && download(f.id).Some? ==>
      r[f.excalisaveId] == DownloadedRecord(f, download(f.id).value, versionNow)
    ensures f.excalisaveId in m ==>
      r[f.excalisaveId] == if Truthy(m[f.excalisaveId].hash) && f.hash == m[f.excalisaveId].hash
                           then Synced(m[f.excalisaveId], f.modifiedTime) else m[f.excalisaveId]
  {
    var key := f.excalisaveId;
    if key !in m then
      match download(f.id)
      case Some(c) => m[key := DownloadedRecord(f, c, versionNow)]
      case None => m
    else if Truthy(m[key].hash) && f.hash == m[key].hash then
      m[key := Synced(m[key], f.modifiedTime)]
    else m
  }

  /** The store after looking at each cloud file in turn. */
  function SyncedFiles(m: Store, files: seq<CloudFile>, download: string -> Option<FileContent>, versionNow: string): (r: Store)
    ensures m.Keys <= r.Keys
    ensures WellKeyed(m) ==> WellKeyed(r)
    decreases |files|
  {
    if files == [] then m
    else SyncedFiles(SyncedFile(m, files[0], download, versionNow), files[1..], download, versionNow)
  }

  /** `lastSync` cleared on every drawing record whose id is not in `keep`. */
  function ClearedLastSync(m: Store, keep: set<string>): (r: Store)
    ensures r.Keys == m.Keys
    ensures forall k :: k in m ==> r[k].(lastSync := m[k].lastSync) == m[k]
    ensures forall k :: k in m ==> (r[k].lastSync == if IsDrawingRecord(m[k]) && m[k].id !in keep then None else m[k].lastSync)
  {
    map k | k in m :: ClearOne(m[k], keep)
  }

  /** One record of that pass. */
  function ClearOne(d: Drawing, keep: set<string>): Drawing {
    if IsDrawingRecord(d) && d.id !in keep then d.(lastSync := None) else d
  }

  /** Part way through the pass: the records in `todo` are still as in
      `orig`, the others are cleared. */
  predicate PartlyCleared(cur: Store, orig: Store, keep: set<string>, todo: set<string>) {
    cur.Keys == orig.Keys && todo <= orig.Keys &&
    forall k :: k in cur ==> cur[k] == if k in todo then orig[k] else ClearOne(orig[k], keep)
  }

  lemma ClearStep(cur: Store, orig: Store, keep: set<string>, todo: set<string>, k: string)
    requires PartlyCleared(cur, orig, keep, todo) && k in todo
    requires WellKeyed(cur)
    ensures PartlyCleared(cur[k := ClearOne(cur[k], keep)], orig, keep, todo - {k})
    ensures WellKeyed(cur[k := ClearOne(cur[k], keep)])
  {
  }

  lemma ClearDone(cur: Store, orig: Store, keep: set<string>)
    requires PartlyCleared(cur, orig, keep, {})
    ensures cur == ClearedLastSync(orig, keep)
  {
  }

  /** The drive ids of the cloud files, the set the login handler keeps. */
  function DriveIds(files: seq<CloudFile>): set<string> {
    set f | f in files :: f.id
  }

  /** The local ids of the cloud files' drawings. */
  function ExcalisaveIds(files: seq<CloudFile>): set<string> {
    set f | f in files :: f.excalisaveId
  }

  /** The file ids an element list uses: those of image elements with a
      truthy file id. */
  function FileIdsOf(elements: seq<Element>): (r: set<string>)
    ensures forall f :: f in r ==> f != ""
    ensures forall e :: e in elements && e.elementType == "image" && Truthy(e.fileId) ==> e.fileId.value in r
    ensures forall f :: f in r ==> exists e :: e in elements && e.elementType == "image" && e.fileId == Some(f)
  {
    set e | e in elements && e.elementType == "image" && Truthy(e.fileId) :: e.fileId.value
  }

  /** CLEANUP_FILES' used set: the distinct file ids used by the drawing
      records' element lists; `None` when one of the lists does not parse
      (the handler then throws before asking for any deletion). */
  function UsedFileIds(m: Store, parse: string -> Option<seq<Element>>): (r: Option<set<string>>)
    ensures r.None? <==> exists k :: k in m && IsDrawingRecord(m[k]) && parse(m[k].data.excalidraw).None?
    ensures r.Some? ==> forall k :: k in m && IsDrawingRecord(m[k]) ==>
      FileIdsOf(parse(m[k].data.excalidraw).value) <= r.value
    ensures r.Some? ==> forall f :: f in r.value ==>
      exists k :: k in m && IsDrawingRecord(m[k]) && f in FileIdsOf(parse(m[k].data.excalidraw).value)
  {
    if exists k :: k in m && IsDrawingRecord(m[k]) && parse(m[k].data.excalidraw).None? then None
    else Some(set k, f | k in m && IsDrawingRecord(m[k]) && f in FileIdsOf(parse(m[k].data.excalidraw).value) :: f)
  }

  /** The request CLEANUP_FILES sends to the page: the used file ids and the
      caller's execution timestamp. */
  datatype CleanupRequest = CleanupRequest(fileIds: set<string>, executionTimestamp: int)

  // ---------------------------------------------------------------------
  // The handlers

  class LocalStore {
    /** The drawing records of `browser.storage.local`, by key. */
    var drawings: Store
    /** The `cloudFolderId` entry of the same store. */
    var cloudFolderId: Option<string>

    predicate Valid()
      reads this
    {
      WellKeyed(drawings)
    }

    constructor(drawings: Store, cloudFolderId: Option<string>)
      requires WellKeyed(drawings)
      ensures Valid() && this.drawings == drawings && this.cloudFolderId == cloudFolderId
    {
      this.drawings := drawings;
      this.cloudFolderId := cloudFolderId;
    }

    /** SAVE_NEW_DRAWING: one record under the payload's id, replacing any
        record stored there. */
    method SaveNew(p: DrawingPayload, now: string)
      requires Valid()
      modifies this
      ensures Valid()
      ensures drawings == old(drawings)[p.id := NewRecord(p, now)]
      ensures cloudFolderId == old(cloudFolderId)
    {
      drawings := drawings[p.id := NewRecord(p, now)];
    }

    /** UPDATE_DRAWING. `hashOf` is the content hash the handler computes from
        the payload and the stored record (`None` when the element list does
        not parse, which throws before anything is written);
        `cloudModifiedTime` is the modification time the cloud save answered
        with, when the payload asks for one (`None` when no save was asked for,
        the answer had no valid time, or the save threw). */
    method Update(p: DrawingPayload, hashOf: (DrawingPayload, Drawing) -> Option<string>, now: string,
                  saveToCloud: bool, cloudModifiedTime: Option<string>)
      requires Valid()
      modifies this
      ensures Valid()
      ensures cloudFolderId == old(cloudFolderId)
      ensures p.id !in old(drawings) ==> drawings == old(drawings)
      ensures p.id in old(drawings) && hashOf(p, old(drawings)[p.id]).None? ==> drawings == old(drawings)
      ensures p.id in old(drawings) && hashOf(p, old(drawings)[p.id]).Some? ==>
        var cur := old(drawings)[p.id];
        var hash := hashOf(p, cur).value;
        var written := if UpdateWrites(cur, p, hash) then UpdatedRecord(cur, p, hash, now) else cur;
        drawings == old(drawings)[p.id := if saveToCloud && Truthy(cloudModifiedTime)
                                          then Synced(written, cloudModifiedTime.value) else written]
    {
      if p.id !in drawings {
        return;
      }
      var cur := drawings[p.id];
      var h := hashOf(p, cur);
      if h.None? {
        return;
      }
      var hash := h.value;
      if UpdateWrites(cur, p, hash) {
        drawings := drawings[p.id := UpdatedRecord(cur, p, hash, now)];
      }
      if saveToCloud && Truthy(cloudModifiedTime) {
        var reread := drawings[p.id];
        drawings := drawings[p.id := Synced(reread, cloudModifiedTime.value)];
      }
    }

    /** RENAME_DRAWING: only the name of an existing record changes. */
    method Rename(id: string, name: string)
      requires Valid()
      modifies this
      ensures Valid()
      ensures cloudFolderId == old(cloudFolderId)
      ensures id !in old(drawings) ==> drawings == old(drawings)
      ensures id in old(drawings) ==> drawings == old(drawings)[id := old(drawings)[id].(name := name)]
    {
      if id !in drawings {
        return;
      }
      drawings := drawings[id := drawings[id].(name := name)];
    }

    /** CLEANUP_FILES: the request sent to the page, if the element lists
        parse. The store is not changed. */
    method CleanupFiles(parse: string -> Option<seq<Element>>, executionTimestamp: int)
      returns (request: Option<CleanupRequest>)
      requires Valid()
      ensures request.None? <==> UsedFileIds(drawings, parse).None?
      ensures request.Some? ==> request.value == CleanupRequest(UsedFileIds(drawings, parse).value, executionTimestamp)
    {
      var used := UsedFileIds(drawings, parse);
      if used.None? {
        return None;
      }
      request := Some(CleanupRequest(used.value, executionTimestamp));
    }

    /** One iteration of LOGIN_RESULT's loop over the cloud files. */
    method SyncFile(f: CloudFile, download: string -> Option<FileContent>, versionNow: string)
      requires Valid()
      modifies this
      ensures Valid()
      ensures drawings == SyncedFile(old(drawings), f, download, versionNow)
      ensures cloudFolderId == old(cloudFolderId)
    {
      var key := f.excalisaveId;
      if key !in drawings {
        var content := download(f.id);
        if content.Some? {
          drawings := drawings[key := DownloadedRecord(f, content.value, versionNow)];
        }
      } else {
        var d := drawings[key];
        if Truthy(d.hash) && f.hash == d.hash {
          drawings := drawings[key := Synced(d, f.modifiedTime)];
        }
      }
    }

    /** The loop clearing `lastSync` on every drawing record whose id is not
        in `keep`, one record at a time. */
    method ClearLastSync(keep: set<string>)
      requires Valid()
      modifies this
      ensures Valid()
      ensures drawings == ClearedLastSync(old(drawings), keep)
      ensures cloudFolderId == old(cloudFolderId)
    {
      var todo := drawings.Keys;
      while todo != {}
        invariant Valid() && PartlyCleared(drawings, old(drawings), keep, todo)
        invariant cloudFolderId == old(cloudFolderId)
        decreases |todo|
      {
        var k :| k in todo;
        var d := drawings[k];
        ClearStep(drawings, old(drawings), keep, todo, k);
        if IsDrawingRecord(d) && d.id !in keep {
          drawings := drawings[k := d.(lastSync := None)];
        } else {
          assert drawings == drawings[k := ClearOne(d, keep)];
        }
        todo := todo - {k};
      }
      ClearDone(drawings, old(drawings), keep);
    }

    /** LOGIN_RESULT. Without success or without the drive scope nothing
        changes. Otherwise the cloud folder id is cleared and the cloud files
        are listed; `files` is `None` when the listing throws, which ends the
        handler with nothing else changed. After a listing each cloud file is
        looked at in turn, and `lastSync` is cleared on every drawing record
        whose id is not among the drive ids of the files. */
    method LoginResult(success: bool, grantedScopes: seq<string>, files: Option<seq<CloudFile>>,
                       download: string -> Option<FileContent>, versionNow: string)
      requires Valid()
      modifies this
      ensures Valid()
      ensures !success || DriveFileScope !in grantedScopes ==>
        drawings == old(drawings) && cloudFolderId == old(cloudFolderId)
      ensures success && DriveFileScope in grantedScopes ==> cloudFolderId.None?
      ensures success && DriveFileScope in grantedScopes && files.None? ==> drawings == old(drawings)
      ensures success && DriveFileScope in grantedScopes && files.Some? ==>
        drawings == ClearedLastSync(SyncedFiles(old(drawings), files.value, download, versionNow), DriveIds(files.value))
    {
      if !success || DriveFileScope !in grantedScopes {
        return;
      }
      cloudFolderId := None;
      if files.None? {
        return;
      }
      SyncFiles(files.value, download, versionNow);
      ClearLastSync(DriveIds(files.value));
    }

    /** LOGIN_RESULT as its comment intends: `lastSync` is kept on the
        records that correspond to a cloud file. */
    method LoginResultCorrected(success: bool, grantedScopes: seq<string>, files: Option<seq<CloudFile>>,
                                download: string -> Option<FileContent>, versionNow: string)
      requires Valid()
      modifies this
      ensures Valid()
      ensures !success || DriveFileScope !in grantedScopes ==>
        drawings == old(drawings) && cloudFolderId == old(cloudFolderId)
      ensures success && DriveFileScope in grantedScopes ==> cloudFolderId.None?
      ensures success && DriveFileScope in grantedScopes && files.None? ==> drawings == old(drawings)
      ensures success && DriveFileScope in grantedScopes && files.Some? ==>
        drawings == ClearedLastSync(SyncedFiles(old(drawings), files.value, download, versionNow), ExcalisaveIds(files.value))
    {
      if !success || DriveFileScope !in grantedScopes {
        return;
      }
      cloudFolderId := None;
      if files.None? {
        return;
      }
      SyncFiles(files.value, download, versionNow);
      ClearLastSync(ExcalisaveIds(files.value));
    }

    /** The `for` loop over the cloud files. */
    method SyncFiles(files: seq<CloudFile>, download: string -> Option<FileContent>, versionNow: string)
      requires Valid()
      modifies this
      ensures Valid()
      ensures drawings == SyncedFiles(old(drawings), files, download, versionNow)
      ensures cloudFolderId == old(cloudFolderId)
    {
      var i := 0;
      while i < |files|
        invariant 0 <= i <= |files|
        invariant Valid()
        invariant SyncedFiles(drawings, files[i..], download, versionNow) == SyncedFiles(old(drawings), files, download, versionNow)
        invariant cloudFolderId == old(cloudFolderId)
      {
        SyncFile(files[i], download, versionNow);
        assert files[i..][1..] == files[i + 1..];
        i := i + 1;
      }
    }

    /** LOGOUT: `lastSync` cleared on every drawing record. */
    method Logout()
      requires Valid()
      modifies this
      ensures Valid()
      ensures drawings == ClearedLastSync(old(drawings), {})
      ensures cloudFolderId == old(cloudFolderId)
    {
      ClearLastSync({});
    }
  }

  // ---------------------------------------------------------------------
  // Properties

  /** An UPDATE_DRAWING whose hash and editor state are both unchanged
      writes nothing, whatever else the payload carries. */
  lemma UnchangedContentNotWritten(cur: Drawing, p: DrawingPayload, hash: string)
    requires cur.hash == Some(hash) && p.data.excalidrawState == cur.data.excalidrawState
    ensures !UpdateWrites(cur, p, hash)
  {
  }

  /** A write caused only by the editor state keeps the modification time. */
  lemma StateOnlyChangeKeepsLastModified(cur: Drawing, p: DrawingPayload, hash: string, now: string)
    requires cur.hash == Some(hash) && UpdateWrites(cur, p, hash)
    ensures p.data.excalidrawState != cur.data.excalidrawState
    ensures UpdatedRecord(cur, p, hash, now).lastModified == cur.lastModified
  {
  }

  /** Clearing `lastSync` leaves the records that are not drawing records,
      and those kept, exactly as they were. */
  lemma ClearedLastSyncKeeps(m: Store, keep: set<string>, k: string)
    requires k in m && (!IsDrawingRecord(m[k]) || m[k].id in keep)
    ensures ClearedLastSync(m, keep)[k] == m[k]
  {
  }

  /** No drive id is a drawing id, so the login handler clears `lastSync`
      on every drawing record, including one whose cloud file matched and
      was just marked synced. */
  lemma LoginClearsEverySync(m: Store, files: seq<CloudFile>, k: string)
    requires forall f :: f in files ==> !StartsWith(f.id, DrawingPrefix)
    requires k in m && IsDrawingRecord(m[k])
    ensures ClearedLastSync(m, DriveIds(files))[k].lastSync.None?
  {
  }

  /** A file whose hash matches its record is marked synced by the loop and
      then cleared again by the login handler's tail. */
  method LoginUndoesSync() returns (before: Store, after: Store)
    ensures "drawing:1" in before && "drawing:1" in after
    ensures SyncedFile(before, FileA(), NoDownload, "0")["drawing:1"].lastSync == Some("2024-01-01T00:00:00.000Z")
    ensures after["drawing:1"].lastSync.None?
  {
    var data := DrawingData("[]", "{}", "0", "0");
    var d := Drawing("drawing:1", "A", "2023-01-01T00:00:00.000Z", None, None, Some("h"), None, None, data);
    before := map["drawing:1" := d];
    var store := new LocalStore(before, None);
    store.LoginResult(true, [DriveFileScope], Some([FileA()]), NoDownload, "0");
    after := store.drawings;
    assert [FileA()][1..] == [];
    assert StartsWith("drawing:1", DrawingPrefix);
    assert "drawing:1" !in DriveIds([FileA()]);
  }

  function FileA(): CloudFile {
    CloudFile("1AbCdEf", "A.excalidraw", "2024-01-01T00:00:00.000Z", "drawing:1", Some("h"))
  }

  function NoDownload(id: string): Option<FileContent> {
    None
  }

  /** With the local ids as the kept set, every record that has a cloud
      file keeps the `lastSync` the loop gave it. */
  lemma CorrectedLoginKeepsSync(m: Store, files: seq<CloudFile>, k: string)
    requires WellKeyed(m) && k in m
    requires exists f :: f in files && f.excalisaveId == k
    ensures ClearedLastSync(m, ExcalisaveIds(files))[k] == m[k]
  {
    var f :| f in files && f.excalisaveId == k;
    assert m[k].id in ExcalisaveIds(files);
  }

  /** Logging out changes nothing but `lastSync`, and clears it on every
      drawing record. */
  lemma LogoutClearsAll(m: Store, k: string)
    requires k in m && IsDrawingRecord(m[k])
    ensures ClearedLastSync(m, {})[k] == m[k].(lastSync := None)
  {
  }

  /** Records that are not drawing records contribute no used file ids. */
  lemma NonDrawingRecordsUnused(m: Store, parse: string -> Option<seq<Element>>, k: string)
    requires k in m && !IsDrawingRecord(m[k])
    ensures UsedFileIds(m - {k}, parse) == UsedFileIds(m, parse)
  {
    var m' := m - {k};
    assert forall j :: j in m && IsDrawingRecord(m[j]) ==> j in m' && m'[j] == m[j];
    if UsedFileIds(m, parse).Some? {
      assert UsedFileIds(m', parse).value == UsedFileIds(m, parse).value;
    }
  }
}
