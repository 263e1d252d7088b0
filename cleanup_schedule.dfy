/** When the popup asks for a cleanup of unused image files: the two
    schedulers, `checkCleanOutdatedFiles` (chek-clean-outdated-files.util.ts)
    and `checkAndPerformUnusedFilesCleanup` (cleanup-unused-files.util.ts).
    Both read the last cleanup date from the session store, and when more
    than three days have passed (or there is no date) and the active tab is
    an excalidraw.com page, they send a CLEANUP_FILES message and record the
    current time. Times are integer milliseconds. */
module CleanupSchedule {
  import opened Common

  /** `Ndays` of the popup utility: three days, written out. */
  const NDays := 1000 * 60 * 60 * 24 * 3

  /** `DEFAULT_CLEANUP_INTERVAL_DAYS` of the library utility. */
  const DefaultCleanupIntervalDays := 3

  /** The library utility's interval in milliseconds. */
  const IntervalMs := 1000 * 60 * 60 * 24 * DefaultCleanupIntervalDays

  /** `!n` on an optional number: `undefined` and `0` are falsy. */
  predicate Falsy(n: Option<int>) {
    n.None? || n.value == 0
  }

  /** The popup utility's test: `currentDate - last > Ndays || !last`. A
      missing date makes the subtraction `NaN`, which compares false. */
  predicate OutdatedFilesDue(last: Option<int>, now: int) {
    (last.Some? && now - last.value > NDays) || Falsy(last)
  }

  /** The library utility's test: `!last || currentDate - last > interval`. */
  predicate ShouldPerformCleanup(last: Option<int>, now: int) {
    Falsy(last) || (last.Some? && now - last.value > IntervalMs)
  }

  /** The browser tab reported as active. */
  datatype Tab = Tab(id: int, url: Option<string>)

  /** The active-tab test both utilities make before running. */
  predicate OnExcalidraw(activeTab: Option<Tab>) {
    activeTab.Some? && activeTab.value.url.Some? && StartsWith(activeTab.value.url.value, ExcalidrawOrigin)
  }

  /** The CLEANUP_FILES message's payload. */
  datatype CleanupMessage = CleanupMessage(tabId: int, executionTimestamp: int)

  class SessionStore {
    /** The `lastFileCleanupDate` entry of `browser.storage.session`. */
    var lastFileCleanupDate: Option<int>

    constructor(lastFileCleanupDate: Option<int>)
      ensures this.lastFileCleanupDate == lastFileCleanupDate
    {
      this.lastFileCleanupDate := lastFileCleanupDate;
    }

    /** `checkCleanOutdatedFiles`: the message it sends, if any. */
    method CheckCleanOutdatedFiles(now: int, activeTab: Option<Tab>) returns (sent: Option<CleanupMessage>)
      modifies this
      ensures !OutdatedFilesDue(old(lastFileCleanupDate), now) || !OnExcalidraw(activeTab) ==>
        sent.None? && lastFileCleanupDate == old(lastFileCleanupDate)
      ensures OutdatedFilesDue(old(lastFileCleanupDate), now) && OnExcalidraw(activeTab) ==>
        sent == Some(CleanupMessage(activeTab.value.id, now)) && lastFileCleanupDate == Some(now)
    {
      sent := None;
      var last := lastFileCleanupDate;
      var hasPassedNDays := last.Some? && now - last.value > NDays;
      if hasPassedNDays || Falsy(last) {
        if activeTab.None? || activeTab.value.url.None? || !StartsWith(activeTab.value.url.value, ExcalidrawOrigin) {
          return;
        }
        sent := Some(CleanupMessage(activeTab.value.id, now));
        lastFileCleanupDate := Some(now);
      }
    }

    /** `checkAndPerformUnusedFilesCleanup`: the message it sends, if any. */
    method CheckAndPerformUnusedFilesCleanup(now: int, activeTab: Option<Tab>) returns (sent: Option<CleanupMessage>)
      modifies this
      ensures !ShouldPerformCleanup(old(lastFileCleanupDate), now) || !OnExcalidraw(activeTab) ==>
        sent.None? && lastFileCleanupDate == old(lastFileCleanupDate)
      ensures ShouldPerformCleanup(old(lastFileCleanupDate), now) && OnExcalidraw(activeTab) ==>
        sent == Some(CleanupMessage(activeTab.value.id, now)) && lastFileCleanupDate == Some(now)
    {
      sent := None;
      var lastCleanupDate := lastFileCleanupDate;
      var shouldPerformCleanup := Falsy(lastCleanupDate) || (lastCleanupDate.Some? && now - lastCleanupDate.value > IntervalMs);
      if shouldPerformCleanup {
        if activeTab.None? || activeTab.value.url.None? || !StartsWith(activeTab.value.url.value, ExcalidrawOrigin) {
          return;
        }
        sent := Some(CleanupMessage(activeTab.value.id, now));
        lastFileCleanupDate := Some(now);
      }
    }
  }

  /** The two utilities schedule identically: same interval, same test. */
  lemma SchedulersAgree(last: Option<int>, now: int)
    ensures NDays == IntervalMs == 3 * MillisPerDay == 259200000
    ensures OutdatedFilesDue(last, now) <==> ShouldPerformCleanup(last, now)
  {
  }

  /** With no recorded date a cleanup is always due. */
  lemma NoDateIsDue(now: int)
    ensures OutdatedFilesDue(None, now) && ShouldPerformCleanup(None, now)
  {
  }

  /** The comparison is strict: exactly three days after a (non-zero) last
      cleanup it is not yet due, one millisecond later it is. */
  lemma ThreeDaysBoundary(last: int)
    requires last != 0
    ensures !OutdatedFilesDue(Some(last), last + NDays)
    ensures OutdatedFilesDue(Some(last), last + NDays + 1)
  {
  }

  /** After a run the next check within three days sends nothing: the
      recorded date is the time the run sent its message, as long as that
      time is not the epoch itself. */
  method RunThenRecheck(now: int, later: int, tab: Tab) returns (first: Option<CleanupMessage>, second: Option<CleanupMessage>)
    requires now != 0 && now <= later <= now + NDays
    requires tab.url.Some? && StartsWith(tab.url.value, ExcalidrawOrigin)
    ensures first == Some(CleanupMessage(tab.id, now))
    ensures second.None?
  {
    var store := new SessionStore(None);
    first := store.CheckCleanOutdatedFiles(now, Some(tab));
    assert store.lastFileCleanupDate == Some(now);
    second := store.CheckAndPerformUnusedFilesCleanup(later, Some(tab));
  }
}
