/** The two page scripts that act on the page's image-file store (an
    IndexedDB object store of binary files keyed by file id):
    delete-unused-files.ts removes the files no drawing uses, and
    switch-drawing.ts loads another drawing and first marks every stored
    file as recently retrieved. Timestamps are integer milliseconds since
    the Unix epoch. */
module AssetGc {
  import opened Common
  import opened Background

  /** A stored binary file (`BinaryFileData`): the fields the scripts read
      or write, and its payload. */
  datatype BinaryFile = BinaryFile(mimeType: string, dataURL: string, created: int, lastRetrieved: Option<int>)

  /** The parameters the delete script is injected with; any part may be
      missing. */
  datatype DeleteParams = DeleteParams(fileIds: Option<seq<string>>, executionTimestamp: Option<int>)

  /** JavaScript truthiness of an optional number: `undefined` and `0` are
      falsy. */
  predicate TruthyNumber(n: Option<int>) {
    n.Some? && n.value != 0
  }

  /** The script's guard: parameters present, a non-empty used list and a
      truthy execution timestamp. */
  predicate Runs(params: Option<DeleteParams>) {
    params.Some? && params.value.fileIds.Some? && |params.value.fileIds.value| > 0
    && TruthyNumber(params.value.executionTimestamp)
  }

  /** The per-key decision: a file is deleted when the script runs, its key
      is not among the used ids, and it was created no later than the
      execution timestamp. */
  predicate ShouldDelete(params: Option<DeleteParams>, key: string, file: BinaryFile) {
    Runs(params)
    && key !in params.value.fileIds.value
    && file.created <= params.value.executionTimestamp.value
  }

  /** The files that survive a run of the delete script. */
  function KeptFiles(m: map<string, BinaryFile>, params: Option<DeleteParams>): (r: map<string, BinaryFile>)
    ensures r.Keys <= m.Keys
    ensures forall k :: k in r ==> r[k] == m[k]
    ensures forall k :: k in m ==> (k in r <==> !ShouldDelete(params, k, m[k]))
  {
    map k | k in m && !ShouldDelete(params, k, m[k]) :: m[k]
  }

  /** Every stored file with `lastRetrieved` set to `t`. */
  function Bumped(m: map<string, BinaryFile>, t: int): (r: map<string, BinaryFile>)
    ensures r.Keys == m.Keys
    ensures forall k :: k in m ==> r[k] == m[k].(lastRetrieved := Some(t))
  {
    map k | k in m :: m[k].(lastRetrieved := Some(t))
  }

  // ---------------------------------------------------------------------
  // The far-future retrieval time

  /** Leap years among 1 .. y of the proleptic Gregorian calendar. */
  function LeapYearsThrough(y: nat): nat {
    y / 4 - y / 100 + y / 400
  }

  predicate IsLeapYear(y: int) {
    (y % 4 == 0 && y % 100 != 0) || y % 400 == 0
  }

  /** Milliseconds from the Unix epoch to 1 January of `y`, 00:00 UTC. */
  function YearStartUtc(y: int): int
    requires y >= 1970
  {
    (365 * (y - 1970) + LeapYearsThrough(y - 1) - LeapYearsThrough(1969)) * MillisPerDay
  }

  /** Going from `y - 1` to `y`, the quotient by one of the calendar's
      divisors grows by one exactly when it divides `y`. */
  lemma DivStep(y: int, n: int)
    requires n == 4 || n == 100 || n == 400
    ensures y / n - (y - 1) / n == if y % n == 0 then 1 else 0
  {
    if n == 4 {
      assert y / 4 - (y - 1) / 4 == if y % 4 == 0 then 1 else 0;
    } else if n == 100 {
      assert y / 100 - (y - 1) / 100 == if y % 100 == 0 then 1 else 0;
    } else {
      assert y / 400 - (y - 1) / 400 == if y % 400 == 0 then 1 else 0;
    }
  }

  /** Going from `y - 1` to `y`, the leap-year count grows by one exactly
      when `y` is a leap year. */
  lemma LeapStep(y: int)
    requires y >= 1
    ensures LeapYearsThrough(y) - LeapYearsThrough(y - 1) == if IsLeapYear(y) then 1 else 0
  {
    DivStep(y, 4);
    DivStep(y, 100);
    DivStep(y, 400);
    DivisorsNest(y);
  }

  /** A multiple of 400 is a multiple of 100, and that of 4. */
  lemma DivisorsNest(y: int)
    ensures y % 400 == 0 ==> y % 100 == 0
    ensures y % 100 == 0 ==> y % 4 == 0
  {
    if y % 400 == 0 {
      var q := y / 400;
      assert y == 100 * (4 * q);
    }
    if y % 100 == 0 {
      var q := y / 100;
      assert y == 4 * (25 * q);
    }
  }

  /** The closed form agrees with counting year lengths: the epoch starts
      at 0 and each year adds 366 days when it is a leap year, else 365. */
  lemma YearStartUtcSteps(y: int)
    requires y >= 1970
    ensures YearStartUtc(1970) == 0
    ensures YearStartUtc(y + 1) - YearStartUtc(y) == (if IsLeapYear(y) then 366 else 365) * MillisPerDay
  {
    LeapStep(y);
    var days := 365 * (y - 1970) + LeapYearsThrough(y - 1) - LeapYearsThrough(1969);
    var step := if IsLeapYear(y) then 366 else 365;
    assert 365 * (y + 1 - 1970) + LeapYearsThrough(y) - LeapYearsThrough(1969) == days + step;
    assert (days + step) * MillisPerDay - days * MillisPerDay == step * MillisPerDay;
  }

  /** `new Date(2400, 0, 1).getTime()`: local midnight of 1 January 2400,
      where `timezoneOffsetMinutes` is the runtime's `getTimezoneOffset()`
      on that date (minutes to add to local time to get UTC). */
  function FarFuture(timezoneOffsetMinutes: int): (r: int)
    ensures r == YearStartUtc(2400) + timezoneOffsetMinutes * 60000
  {
    13569465600000 + timezoneOffsetMinutes * 60000
  }

  /** In UTC the far-future time is exactly the start of the year 2400. */
  lemma FarFutureIsYear2400()
    ensures FarFuture(0) == YearStartUtc(2400) == 13569465600000
  {
  }

  // ---------------------------------------------------------------------
  // The scripts

  /** What switching leaves for the page to write into its local storage as
      it unloads: the target's data and its id. */
  datatype UnloadWrites = UnloadWrites(data: DrawingData, drawingId: string)

  class FilesStore {
    /** The `files-store` object store, by file id. */
    var files: map<string, BinaryFile>

    constructor(files: map<string, BinaryFile>)
      ensures this.files == files
    {
      this.files := files;
    }

    /** delete-unused-files.ts: each key of the store is looked at once;
        used and newer files stay, every other file is deleted. */
    method DeleteUnusedFiles(params: Option<DeleteParams>)
      modifies this
      ensures files == KeptFiles(old(files), params)
    {
      if !Runs(params) {
        return;
      }
      var keys := files.Keys;
      while keys != {}
        invariant keys <= old(files).Keys
        invariant forall k :: k in keys ==> k in files && files[k] == old(files)[k]
        invariant forall k :: k in old(files) && k !in keys ==>
          (k in files <==> k in KeptFiles(old(files), params)) && (k in files ==> files[k] == old(files)[k])
        invariant files.Keys <= old(files).Keys
        decreases |keys|
      {
        var key :| key in keys;
        var usedIds := params.value.fileIds.value;
        if key !in usedIds {
          var file := files[key];
          if file.created <= params.value.executionTimestamp.value {
            files := files - {key};
          }
        }
        keys := keys - {key};
      }
    }

    /** The loop of switch-drawing.ts rewriting every entry with
        `lastRetrieved` set to `t`. */
    method BumpLastRetrieved(t: int)
      modifies this
      ensures files == Bumped(old(files), t)
    {
      var keys := files.Keys;
      while keys != {}
        invariant keys <= files.Keys == old(files).Keys
        invariant forall k :: k in keys ==> files[k] == old(files)[k]
        invariant forall k :: k in files && k !in keys ==> files[k] == old(files)[k].(lastRetrieved := Some(t))
        decreases |keys|
      {
        var id :| id in keys;
        files := files[id := files[id].(lastRetrieved := Some(t))];
        keys := keys - {id};
      }
    }

    /** switch-drawing.ts. Without a target nothing happens. With a truthy
        current drawing id, an update of that drawing is sent first. A
        target with no record stops the script before the file store is
        touched; otherwise the target's data is queued for the unload and
        every stored file is bumped to the far-future retrieval time.
        `records` is the drawing store as the script reads it, after the
        update it sent. */
    method SwitchDrawing(targetDrawingId: Option<string>, currentDrawingId: Option<string>,
                         records: Store, timezoneOffsetMinutes: int)
      returns (updateSentFor: Option<string>, onUnload: Option<UnloadWrites>)
      modifies this
      ensures !Truthy(targetDrawingId) ==> updateSentFor.None? && onUnload.None? && files == old(files)
      ensures Truthy(targetDrawingId) ==> updateSentFor == (if Truthy(currentDrawingId) then currentDrawingId else None)
      ensures Truthy(targetDrawingId) && targetDrawingId.value !in records ==> onUnload.None? && files == old(files)
      ensures Truthy(targetDrawingId) && targetDrawingId.value in records ==>
        onUnload == Some(UnloadWrites(records[targetDrawingId.value].data, targetDrawingId.value))
        && files == Bumped(old(files), FarFuture(timezoneOffsetMinutes))
    {
      updateSentFor, onUnload := None, None;
      if !Truthy(targetDrawingId) {
        return;
      }
      var target := targetDrawingId.value;
      if Truthy(currentDrawingId) {
        updateSentFor := currentDrawingId;
      }
      if target !in records {
        return;
      }
      onUnload := Some(UnloadWrites(records[target].data, target));
      BumpLastRetrieved(FarFuture(timezoneOffsetMinutes));
    }
  }

  // ---------------------------------------------------------------------
  // Properties

  /** Without the guard's parameters nothing is deleted; in particular an
      empty used list deletes nothing. */
  lemma NoParamsNoDeletion(m: map<string, BinaryFile>, params: Option<DeleteParams>)
    requires params.None? || params.value.fileIds.None? || params.value.fileIds.value == []
             || !TruthyNumber(params.value.executionTimestamp)
    ensures KeptFiles(m, params) == m
  {
  }

  /** A file whose id is in the used list is never deleted. */
  lemma UsedFileKept(m: map<string, BinaryFile>, params: Option<DeleteParams>, k: string)
    requires k in m && params.Some? && params.value.fileIds.Some? && k in params.value.fileIds.value
    ensures k in KeptFiles(m, params) && KeptFiles(m, params)[k] == m[k]
  {
  }

  /** A file created after the execution timestamp is never deleted; one
      created exactly at it is, when unused. */
  lemma CreationCutoff(m: map<string, BinaryFile>, params: Option<DeleteParams>, k: string)
    requires k in m && Runs(params) && k !in params.value.fileIds.value
    ensures m[k].created > params.value.executionTimestamp.value ==> k in KeptFiles(m, params)
    ensures m[k].created == params.value.executionTimestamp.value ==> k !in KeptFiles(m, params)
  {
  }

  /** One key's outcome depends on that key's file alone: adding or removing
      other files does not change it. */
  lemma DecisionIsPerKey(m: map<string, BinaryFile>, m': map<string, BinaryFile>, params: Option<DeleteParams>, k: string)
    requires k in m && k in m' && m[k] == m'[k]
    ensures (k in KeptFiles(m, params)) == (k in KeptFiles(m', params))
  {
  }

  /** The delete script never looks at `lastRetrieved`: bumping it, as
      switching drawings does, protects no file from this script. */
  lemma BumpDoesNotProtect(m: map<string, BinaryFile>, params: Option<DeleteParams>, t: int)
    ensures KeptFiles(Bumped(m, t), params).Keys == KeptFiles(m, params).Keys
  {
    forall k | k in m
      ensures (k in KeptFiles(Bumped(m, t), params)) == (k in KeptFiles(m, params))
    {
      assert Bumped(m, t)[k].created == m[k].created;
    }
  }

  /** Running the delete script twice with the same parameters deletes
      nothing more the second time. */
  lemma DeleteIdempotent(m: map<string, BinaryFile>, params: Option<DeleteParams>)
    ensures KeptFiles(KeptFiles(m, params), params) == KeptFiles(m, params)
  {
  }
}
