/**
 * What a scan cycle promises: the ledger only grows by appending the ids of
 * videos whose pipeline succeeded, a video already in the ledger never reaches
 * the pipeline, every success is followed by a save of the whole ledger, no id
 * is recorded twice, playlists that are skipped or fail to scan contribute
 * nothing and stop nothing, and the ledger file, while it decodes, holds a
 * prefix of the in-memory ledger; it stops decoding only through a save that
 * emptied it and failed.
 */
module CycleProperties {
  import opened Wrappers
  import opened Domain
  import opened Files
  import Pipeline
  import opened ScanCycle

  /** The ids an event appends to the ledger: the video's id for a successful pipeline call, none otherwise. */
  function Recorded(e: Event): seq<string>
  {
    if e.Handled? && e.ok then [e.video.id] else []
  }

  /** The ids of the successfully processed videos of a trace, in order. */
  function SuccessIds(events: seq<Event>): seq<string>
  {
    if events == [] then []
    else SuccessIds(events[..|events| - 1]) + Recorded(events[|events| - 1])
  }

  /** The ledger file after a trace: the initial contents, changed by each save as that save ended. */
  function FileAfterTrace(file: Option<seq<string>>, events: seq<Event>): Option<seq<string>>
  {
    if events == [] then file
    else
      var e := events[|events| - 1];
      var before := FileAfterTrace(file, events[..|events| - 1]);
      if e.Saved? then FileAfter(e.outcome, before, e.snapshot) else before
  }

  /** No save of the trace failed after emptying the file. */
  ghost predicate NoTruncatedSave(events: seq<Event>)
  {
    forall k :: 0 <= k < |events| && events[k].Saved? ==> !events[k].outcome.Truncated?
  }

  /** Every save of the trace reported success. */
  ghost predicate AllSavesWritten(events: seq<Event>)
  {
    forall k :: 0 <= k < |events| && events[k].Saved? ==> events[k].outcome.Written?
  }

  /** A pipeline call at position (i, j) is on a video that the scan of a non-empty playlist i returned at j. */
  ghost predicate FromScan(playlists: seq<Playlist>, o: Oracle, e: Event)
    requires e.Handled?
  {
    && e.playlist < |playlists|
    && playlists[e.playlist].url != ""
    && o.scan(e.playlist).Some?
    && e.index < |o.scan(e.playlist).value|
    && e.video == o.scan(e.playlist).value[e.index]
    && e.translate == playlists[e.playlist].translate
    && e.ok == Pipeline.Succeeds(e.video, e.translate, o.steps(e.playlist, e.index))
  }

  /** Position order: playlist first, then video. */
  predicate Earlier(e: Event, f: Event)
    requires e.Handled? && f.Handled?
  {
    e.playlist < f.playlist || (e.playlist == f.playlist && e.index < f.index)
  }

  /** Every pipeline call of the trace is at a position before (i, j). */
  ghost predicate AllBefore(events: seq<Event>, i: nat, j: nat)
  {
    forall k :: 0 <= k < |events| && events[k].Handled? ==>
      events[k].playlist < i || (events[k].playlist == i && events[k].index < j)
  }

  /** The ledger is the initial ledger followed by the ids of the successes. */
  ghost predicate LedgerIsSuccesses(initial: seq<string>, st: Progress)
  {
    st.ledger == initial + SuccessIds(st.events)
  }

  /** No pipeline call is made for an id that was in the ledger at that moment. */
  ghost predicate NeverReprocessed(initial: seq<string>, events: seq<Event>)
  {
    forall k :: 0 <= k < |events| && events[k].Handled? ==>
      events[k].video.id !in initial + SuccessIds(events[..k])
  }

  /** Every save directly follows a success and writes the whole ledger as it then stands. */
  ghost predicate SavesFollowSuccesses(initial: seq<string>, events: seq<Event>)
  {
    forall k :: 0 <= k < |events| && events[k].Saved? ==>
      0 < k && events[k - 1].Handled? && events[k - 1].ok &&
      events[k].snapshot == initial + SuccessIds(events[..k])
  }

  /** Every success is directly followed by a save. */
  ghost predicate SuccessesSaved(events: seq<Event>)
  {
    forall k :: 0 <= k < |events| && events[k].Handled? && events[k].ok ==>
      k + 1 < |events| && events[k + 1].Saved?
  }

  /** Every pipeline call is on a scanned video of a playlist that was not skipped. */
  ghost predicate AllFromScans(playlists: seq<Playlist>, o: Oracle, events: seq<Event>)
  {
    forall k :: 0 <= k < |events| && events[k].Handled? ==> FromScan(playlists, o, events[k])
  }

  /** Pipeline calls happen in scan order, each position at most once. */
  ghost predicate InScanOrder(events: seq<Event>)
  {
    forall k, m :: 0 <= k < m < |events| && events[k].Handled? && events[m].Handled? ==>
      Earlier(events[k], events[m])
  }

  /** Everything a cycle keeps true of its progress, starting from `initial`. */
  ghost predicate Invariant(playlists: seq<Playlist>, o: Oracle, initial: seq<string>, st: Progress)
  {
    && LedgerIsSuccesses(initial, st)
    && NeverReprocessed(initial, st.events)
    && SavesFollowSuccesses(initial, st.events)
    && SuccessesSaved(st.events)
    && AllFromScans(playlists, o, st.events)
    && InScanOrder(st.events)
    && st.file == FileAfterTrace(Some(initial), st.events)
  }

  /** `st2` extends `st1`: both the ledger and the trace have only grown at their ends. */
  ghost predicate Extends(st1: Progress, st2: Progress)
  {
    st1.ledger <= st2.ledger && st1.events <= st2.events
  }

  // ---------------------------------------------------------------------
  // Appending one event

  lemma SuccessIdsAppend(events: seq<Event>, e: Event)
    ensures SuccessIds(events + [e]) == SuccessIds(events) + Recorded(e)
  {
    assert (events + [e])[..|events|] == events;
  }

  lemma FileAfterTraceAppend(file: Option<seq<string>>, events: seq<Event>, e: Event)
    ensures FileAfterTrace(file, events + [e]) ==
      if e.Saved? then FileAfter(e.outcome, FileAfterTrace(file, events), e.snapshot) else FileAfterTrace(file, events)
  {
    assert (events + [e])[..|events|] == events;
  }

  lemma AppendKeepsNeverReprocessed(initial: seq<string>, events: seq<Event>, e: Event)
    requires NeverReprocessed(initial, events)
    requires e.Handled? ==> e.video.id !in initial + SuccessIds(events)
    ensures NeverReprocessed(initial, events + [e])
  {
    var all := events + [e];
    forall k | 0 <= k < |all| && all[k].Handled?
      ensures all[k].video.id !in initial + SuccessIds(all[..k])
    {
      if k < |events| {
        assert all[k] == events[k];
        assert all[..k] == events[..k];
      } else {
        assert all[..k] == events;
      }
    }
  }

  lemma AppendKeepsSavesFollowSuccesses(initial: seq<string>, events: seq<Event>, e: Event)
    requires SavesFollowSuccesses(initial, events)
    requires e.Saved? ==>
      0 < |events| && events[|events| - 1].Handled? && events[|events| - 1].ok &&
      e.snapshot == initial + SuccessIds(events)
    ensures SavesFollowSuccesses(initial, events + [e])
  {
    var all := events + [e];
    forall k | 0 <= k < |all| && all[k].Saved?
      ensures 0 < k && all[k - 1].Handled? && all[k - 1].ok && all[k].snapshot == initial + SuccessIds(all[..k])
    {
      if k < |events| {
        assert all[k] == events[k] && all[k - 1] == events[k - 1];
        assert all[..k] == events[..k];
      } else {
        assert all[..k] == events;
      }
    }
  }

  lemma AppendKeepsAllFromScans(playlists: seq<Playlist>, o: Oracle, events: seq<Event>, e: Event)
    requires AllFromScans(playlists, o, events)
    requires e.Handled? ==> FromScan(playlists, o, e)
    ensures AllFromScans(playlists, o, events + [e])
  {
  }

  lemma AppendKeepsInScanOrder(events: seq<Event>, e: Event)
    requires InScanOrder(events)
    requires e.Handled? ==> AllBefore(events, e.playlist, e.index)
    ensures InScanOrder(events + [e])
  {
  }

  // ---------------------------------------------------------------------
  // One video, the inner loop, the outer loop

  /** Conditions under which the inner loop runs over playlist i. */
  ghost predicate Scanned(playlists: seq<Playlist>, o: Oracle, i: nat)
  {
    i < |playlists| && playlists[i].url != "" && o.scan(i).Some?
  }

  /** A failed call adds no id and no save, so the ledger and the file stay tied to the trace. */
  lemma FailureKeepsLedger(initial: seq<string>, st: Progress, h: Event)
    requires LedgerIsSuccesses(initial, st) && st.file == FileAfterTrace(Some(initial), st.events)
    requires h.Handled? && !h.ok
    ensures var st' := st.(events := st.events + [h]);
      LedgerIsSuccesses(initial, st') && st'.file == FileAfterTrace(Some(initial), st'.events)
  {
    SuccessIdsAppend(st.events, h);
    FileAfterTraceAppend(Some(initial), st.events, h);
  }

  /** A failed call on a new id keeps every part of the invariant about the trace. */
  lemma FailureKeepsTrace(playlists: seq<Playlist>, o: Oracle, initial: seq<string>, events: seq<Event>, h: Event)
    requires NeverReprocessed(initial, events) && SavesFollowSuccesses(initial, events) && SuccessesSaved(events)
    requires AllFromScans(playlists, o, events) && InScanOrder(events)
    requires h.Handled? && !h.ok && h.video.id !in initial + SuccessIds(events)
    requires FromScan(playlists, o, h) && AllBefore(events, h.playlist, h.index)
    ensures var all := events + [h];
      && NeverReprocessed(initial, all) && SavesFollowSuccesses(initial, all) && SuccessesSaved(all)
      && AllFromScans(playlists, o, all) && InScanOrder(all)
  {
    AppendKeepsNeverReprocessed(initial, events, h);
    AppendKeepsSavesFollowSuccesses(initial, events, h);
    AppendKeepsAllFromScans(playlists, o, events, h);
    AppendKeepsInScanOrder(events, h);
  }

  /** A failed pipeline call on a new video keeps the invariant. */
  lemma FailureKeeps(playlists: seq<Playlist>, o: Oracle, initial: seq<string>, st: Progress, h: Event)
    requires Invariant(playlists, o, initial, st)
    requires h.Handled? && !h.ok && FromScan(playlists, o, h) && AllBefore(st.events, h.playlist, h.index)
    requires h.video.id !in st.ledger
    ensures Invariant(playlists, o, initial, st.(events := st.events + [h]))
  {
    FailureKeepsLedger(initial, st, h);
    FailureKeepsTrace(playlists, o, initial, st.events, h);
  }

  /** After a success the last event is a successful call and the next is its save. */
  lemma SuccessSavedAppend(events: seq<Event>, h: Event, s: Event)
    requires SuccessesSaved(events) && h.Handled? && s.Saved?
    ensures SuccessesSaved(events + [h] + [s])
  {
  }

  /** A success followed by its save keeps the ledger and the file tied to the trace. */
  lemma SuccessKeepsLedger(initial: seq<string>, st: Progress, h: Event, w: WriteOutcome)
    requires LedgerIsSuccesses(initial, st) && st.file == FileAfterTrace(Some(initial), st.events)
    requires h.Handled? && h.ok
    ensures var ledger := st.ledger + [h.video.id];
      var st' := Progress(ledger, FileAfter(w, st.file, ledger), st.events + [h] + [Saved(ledger, w)], st.cancelled);
      LedgerIsSuccesses(initial, st') && st'.file == FileAfterTrace(Some(initial), st'.events)
  {
    var ledger := st.ledger + [h.video.id];
    var s := Saved(ledger, w);
    SuccessIdsAppend(st.events, h);
    SuccessIdsAppend(st.events + [h], s);
    FileAfterTraceAppend(Some(initial), st.events, h);
    FileAfterTraceAppend(Some(initial), st.events + [h], s);
  }

  /** A success on a new id followed by its save keeps every call on an id not yet recorded. */
  lemma SuccessKeepsFresh(initial: seq<string>, events: seq<Event>, h: Event, s: Event)
    requires NeverReprocessed(initial, events)
    requires h.Handled? && h.video.id !in initial + SuccessIds(events) && s.Saved?
    ensures NeverReprocessed(initial, events + [h] + [s])
  {
    AppendKeepsNeverReprocessed(initial, events, h);
    AppendKeepsNeverReprocessed(initial, events + [h], s);
  }

  /** A success followed by a save of the ledger including it keeps every save after a success. */
  lemma SuccessKeepsSaves(initial: seq<string>, events: seq<Event>, h: Event, s: Event)
    requires SavesFollowSuccesses(initial, events)
    requires h.Handled? && h.ok
    requires s.Saved? && s.snapshot == initial + SuccessIds(events) + [h.video.id]
    ensures SavesFollowSuccesses(initial, events + [h] + [s])
  {
    SuccessIdsAppend(events, h);
    assert s.snapshot == initial + SuccessIds(events + [h]);
    AppendKeepsSavesFollowSuccesses(initial, events, h);
    AppendKeepsSavesFollowSuccesses(initial, events + [h], s);
  }

  /** A call on a scanned video at a later position, followed by a save, keeps calls on scanned videos in scan order. */
  lemma SuccessKeepsOrder(playlists: seq<Playlist>, o: Oracle, events: seq<Event>, h: Event, s: Event)
    requires AllFromScans(playlists, o, events) && InScanOrder(events)
    requires h.Handled? && FromScan(playlists, o, h) && AllBefore(events, h.playlist, h.index)
    requires s.Saved?
    ensures AllFromScans(playlists, o, events + [h] + [s]) && InScanOrder(events + [h] + [s])
  {
    AppendKeepsAllFromScans(playlists, o, events, h);
    AppendKeepsInScanOrder(events, h);
    AppendKeepsAllFromScans(playlists, o, events + [h], s);
    AppendKeepsInScanOrder(events + [h], s);
  }

  /** A successful pipeline call on a new video, the append and the save keep the invariant. */
  lemma SuccessKeeps(playlists: seq<Playlist>, o: Oracle, initial: seq<string>, st: Progress, h: Event, w: WriteOutcome)
    requires Invariant(playlists, o, initial, st)
    requires h.Handled? && h.ok && FromScan(playlists, o, h) && AllBefore(st.events, h.playlist, h.index)
    requires h.video.id !in st.ledger
    ensures var ledger := st.ledger + [h.video.id];
      Invariant(playlists, o, initial,
        Progress(ledger, FileAfter(w, st.file, ledger), st.events + [h] + [Saved(ledger, w)], st.cancelled))
  {
    var ledger := st.ledger + [h.video.id];
    var s := Saved(ledger, w);
    SuccessKeepsLedger(initial, st, h, w);
    SuccessKeepsFresh(initial, st.events, h, s);
    SuccessKeepsSaves(initial, st.events, h, s);
    SuccessKeepsOrder(playlists, o, st.events, h, s);
    SuccessSavedAppend(st.events, h, s);
  }

  /** Events appended at position (i, j) keep every call before (i, j + 1). */
  lemma AllBeforeNext(events: seq<Event>, extra: seq<Event>, i: nat, j: nat)
    requires AllBefore(events, i, j)
    requires forall k :: 0 <= k < |extra| && extra[k].Handled? ==> extra[k].playlist == i && extra[k].index == j
    ensures AllBefore(events + extra, i, j + 1)
  {
    var all := events + extra;
    forall k | 0 <= k < |all| && all[k].Handled?
      ensures all[k].playlist < i || (all[k].playlist == i && all[k].index < j + 1)
    {
      if k < |events| {
        assert all[k] == events[k];
      } else {
        assert all[k] == extra[k - |events|];
      }
    }
  }

  /** Visiting the video at (i, j) only appends events at (i, j) and keeps the cancellation flag. */
  lemma VisitOrder(playlist: Playlist, o: Oracle, i: nat, j: nat, video: Video, st: Progress)
    requires AllBefore(st.events, i, j)
    ensures var st' := VisitVideo(playlist, i, j, video, o, st);
      AllBefore(st'.events, i, j + 1) && Extends(st, st') && st'.cancelled == st.cancelled
  {
    var st' := VisitVideo(playlist, i, j, video, o, st);
    var extra := st'.events[|st.events|..];
    assert st'.events == st.events + extra;
    AllBeforeNext(st.events, extra, i, j);
  }

  /** Visiting the video at (i, j) keeps the invariant. */
  lemma VisitInvariant(playlists: seq<Playlist>, o: Oracle, initial: seq<string>, i: nat, j: nat, st: Progress)
    requires Scanned(playlists, o, i) && j < |o.scan(i).value|
    requires Invariant(playlists, o, initial, st) && AllBefore(st.events, i, j)
    ensures Invariant(playlists, o, initial, VisitVideo(playlists[i], i, j, o.scan(i).value[j], o, st))
  {
    var playlist, video := playlists[i], o.scan(i).value[j];
    if video.id !in st.ledger {
      var ok := Pipeline.Succeeds(video, playlist.translate, o.steps(i, j));
      var h := Handled(i, j, video, playlist.translate, ok);
      assert FromScan(playlists, o, h);
      if ok {
        SuccessKeeps(playlists, o, initial, st, h, o.save(i, j));
      } else {
        FailureKeeps(playlists, o, initial, st, h);
      }
    }
  }

  /** The inner loop over playlist i only appends events at positions of playlist i. */
  lemma {:induction false} VideosOrder(playlist: Playlist, i: nat, videos: seq<Video>, j: nat, o: Oracle, st: Progress)
    requires j <= |videos| && AllBefore(st.events, i, j)
    ensures AllBefore(VideosFrom(playlist, i, videos, j, o, st).events, i + 1, 0)
    decreases |videos| - j
  {
    if j < |videos| && !o.cancelledAtVideo(i, j) {
      VisitOrder(playlist, o, i, j, videos[j], st);
      VideosOrder(playlist, i, videos, j + 1, o, VisitVideo(playlist, i, j, videos[j], o, st));
    }
  }

  lemma {:induction false} VideosKeep(playlists: seq<Playlist>, o: Oracle, initial: seq<string>, i: nat, j: nat, st: Progress)
    requires Scanned(playlists, o, i) && j <= |o.scan(i).value|
    requires Invariant(playlists, o, initial, st) && AllBefore(st.events, i, j)
    ensures Invariant(playlists, o, initial, VideosFrom(playlists[i], i, o.scan(i).value, j, o, st))
    decreases |o.scan(i).value| - j
  {
    var videos := o.scan(i).value;
    if j < |videos| && !o.cancelledAtVideo(i, j) {
      VisitInvariant(playlists, o, initial, i, j, st);
      VisitOrder(playlists[i], o, i, j, videos[j], st);
      var next := VisitVideo(playlists[i], i, j, videos[j], o, st);
      VideosKeep(playlists, o, initial, i, j + 1, next);
    }
  }

  lemma {:induction false} PlaylistsKeep(playlists: seq<Playlist>, o: Oracle, initial: seq<string>, i: nat, st: Progress)
    requires i <= |playlists|
    requires Invariant(playlists, o, initial, st) && AllBefore(st.events, i, 0)
    ensures Invariant(playlists, o, initial, PlaylistsFrom(playlists, i, o, st))
    decreases |playlists| - i
  {
    if i < |playlists| && !o.cancelledAtPlaylist(i) {
      if playlists[i].url == "" || o.scan(i).None? {
        PlaylistsKeep(playlists, o, initial, i + 1, st);
      } else {
        VideosKeep(playlists, o, initial, i, 0, st);
        VideosOrder(playlists[i], i, o.scan(i).value, 0, o, st);
        var after := VideosFrom(playlists[i], i, o.scan(i).value, 0, o, st);
        if !after.cancelled {
          PlaylistsKeep(playlists, o, initial, i + 1, after);
        }
      }
    }
  }

  /** A whole cycle that loaded both files keeps the invariant, starting from the loaded ledger. */
  lemma CycleKeeps(playlists: seq<Playlist>, initial: seq<string>, o: Oracle)
    ensures var st := Cycle(Some(playlists), Some(initial), o).progress;
      Invariant(playlists, o, initial, st) && initial <= st.ledger
  {
    var start := Progress(initial, Some(initial), [], false);
    assert SuccessIds([]) == [];
    assert initial + [] == initial;
    PlaylistsKeep(playlists, o, initial, 0, start);
  }

  // ---------------------------------------------------------------------
  // Facts about traces

  lemma {:induction false} SuccessIdsMonotone(events: seq<Event>, a: nat, b: nat)
    requires a <= b <= |events|
    ensures SuccessIds(events[..a]) <= SuccessIds(events[..b])
    decreases b - a
  {
    if a < b {
      SuccessIdsMonotone(events, a, b - 1);
      assert events[..b] == events[..b - 1] + [events[b - 1]];
      SuccessIdsAppend(events[..b - 1], events[b - 1]);
    }
  }

  lemma NeverReprocessedPrefix(initial: seq<string>, events: seq<Event>, n: nat)
    requires NeverReprocessed(initial, events) && n <= |events|
    ensures NeverReprocessed(initial, events[..n])
  {
    forall k | 0 <= k < n && events[..n][k].Handled?
      ensures events[..n][k].video.id !in initial + SuccessIds(events[..n][..k])
    {
      assert events[..n][..k] == events[..k];
    }
  }

  /** The successes of a trace that never reprocesses are new ids, so no id is recorded twice. */
  lemma {:induction false} SuccessesAreFresh(initial: seq<string>, events: seq<Event>)
    requires NoDuplicates(initial) && NeverReprocessed(initial, events)
    ensures NoDuplicates(initial + SuccessIds(events))
  {
    if events != [] {
      var n := |events| - 1;
      var prefix, last := events[..n], events[n];
      NeverReprocessedPrefix(initial, events, n);
      SuccessesAreFresh(initial, prefix);
      assert events == prefix + [last];
      SuccessIdsAppend(prefix, last);
      var before := initial + SuccessIds(prefix);
      if last.Handled? && last.ok {
        assert last.video.id !in before;
        assert initial + SuccessIds(events) == before + [last.video.id];
        AppendFresh(before, last.video.id);
      } else {
        assert initial + SuccessIds(events) == before;
      }
    }
  }

  lemma SavesFollowSuccessesPrefix(initial: seq<string>, events: seq<Event>, n: nat)
    requires SavesFollowSuccesses(initial, events) && n <= |events|
    ensures SavesFollowSuccesses(initial, events[..n])
  {
    forall k | 0 <= k < n && events[..n][k].Saved?
      ensures 0 < k && events[..n][k - 1].Handled? && events[..n][k - 1].ok &&
        events[..n][k].snapshot == initial + SuccessIds(events[..n][..k])
    {
      assert events[..n][..k] == events[..k];
    }
  }

  /** Every save extends the initial ledger and every earlier save, and is extended by the final ledger. */
  lemma SnapshotsOrdered(initial: seq<string>, events: seq<Event>)
    requires SavesFollowSuccesses(initial, events)
    ensures forall k :: 0 <= k < |events| && events[k].Saved? ==>
      initial <= events[k].snapshot <= initial + SuccessIds(events)
    ensures forall k, m :: 0 <= k < m < |events| && events[k].Saved? && events[m].Saved? ==>
      initial <= events[k].snapshot <= events[m].snapshot <= initial + SuccessIds(events)
  {
    assert events[..|events|] == events;
    forall k | 0 <= k < |events| && events[k].Saved?
      ensures initial <= events[k].snapshot <= initial + SuccessIds(events)
    {
      SuccessIdsMonotone(events, k, |events|);
    }
    forall k, m | 0 <= k < m < |events| && events[k].Saved? && events[m].Saved?
      ensures initial <= events[k].snapshot <= events[m].snapshot <= initial + SuccessIds(events)
    {
      SuccessIdsMonotone(events, k, m);
      SuccessIdsMonotone(events, m, |events|);
      assert events[..|events|] == events;
    }
  }

  /** The save after a success writes the ledger as it stood before, extended by the new id. */
  lemma SuccessSnapshots(initial: seq<string>, events: seq<Event>)
    requires SavesFollowSuccesses(initial, events) && SuccessesSaved(events)
    ensures forall k :: 0 <= k < |events| && events[k].Handled? && events[k].ok ==>
      k + 1 < |events| && events[k + 1].Saved? &&
      events[k + 1].snapshot == initial + SuccessIds(events[..k]) + [events[k].video.id]
  {
    forall k | 0 <= k < |events| && events[k].Handled? && events[k].ok
      ensures k + 1 < |events| && events[k + 1].Saved? &&
        events[k + 1].snapshot == initial + SuccessIds(events[..k]) + [events[k].video.id]
    {
      assert events[..k + 1] == events[..k] + [events[k]];
      SuccessIdsAppend(events[..k], events[k]);
    }
  }

  /**
   * The ledger file, while it decodes, holds the initial ledger extended by a
   * prefix of the successes; it stops decoding only through a save that
   * emptied it and then failed.
   */
  lemma {:induction false} FileAfterTraceIsPrefix(initial: seq<string>, events: seq<Event>)
    requires SavesFollowSuccesses(initial, events)
    ensures var file := FileAfterTrace(Some(initial), events);
      && (file.Some? ==> initial <= file.value <= initial + SuccessIds(events))
      && (NoTruncatedSave(events) ==> file.Some?)
  {
    if events != [] {
      var n := |events| - 1;
      var prefix := events[..n];
      assert events == prefix + [events[n]];
      SuccessIdsAppend(prefix, events[n]);
      FileAfterTraceAppend(Some(initial), prefix, events[n]);
      SavesFollowSuccessesPrefix(initial, events, n);
      FileAfterTraceIsPrefix(initial, prefix);
      if NoTruncatedSave(events) {
        assert NoTruncatedSave(prefix) by {
          forall k | 0 <= k < |prefix| && prefix[k].Saved? ensures !prefix[k].outcome.Truncated? {
            assert prefix[k] == events[k];
          }
        }
      }
    }
  }

  /** When every save succeeds, the file holds the whole ledger after every completed step. */
  lemma {:induction false} FileAfterTraceIsComplete(initial: seq<string>, events: seq<Event>, n: nat)
    requires SavesFollowSuccesses(initial, events) && SuccessesSaved(events)
    requires AllSavesWritten(events)
    requires n <= |events| && (n == 0 || !(events[n - 1].Handled? && events[n - 1].ok))
    ensures FileAfterTrace(Some(initial), events[..n]) == Some(initial + SuccessIds(events[..n]))
  {
    if n > 0 {
      var e := events[n - 1];
      assert events[..n] == events[..n - 1] + [e];
      SuccessIdsAppend(events[..n - 1], e);
      FileAfterTraceAppend(Some(initial), events[..n - 1], e);
      assert SuccessIds(events[..n]) == SuccessIds(events[..n - 1]);
      if !e.Saved? {
        FileAfterTraceIsComplete(initial, events, n - 1);
      } else {
        assert e.snapshot == initial + SuccessIds(events[..n - 1]);
      }
    } else {
      assert initial + [] == initial;
    }
  }

  // ---------------------------------------------------------------------
  // Progress only grows

  lemma {:induction false} VideosExtend(playlist: Playlist, i: nat, videos: seq<Video>, j: nat, o: Oracle, st: Progress)
    requires j <= |videos|
    ensures Extends(st, VideosFrom(playlist, i, videos, j, o, st))
    decreases |videos| - j
  {
    if j < |videos| && !o.cancelledAtVideo(i, j) {
      VideosExtend(playlist, i, videos, j + 1, o, VisitVideo(playlist, i, j, videos[j], o, st));
    }
  }

  lemma {:induction false} PlaylistsExtend(playlists: seq<Playlist>, i: nat, o: Oracle, st: Progress)
    requires i <= |playlists|
    ensures Extends(st, PlaylistsFrom(playlists, i, o, st))
    decreases |playlists| - i
  {
    if i < |playlists| && !o.cancelledAtPlaylist(i) {
      if playlists[i].url == "" || o.scan(i).None? {
        PlaylistsExtend(playlists, i + 1, o, st);
      } else {
        var after := VideosFrom(playlists[i], i, o.scan(i).value, 0, o, st);
        VideosExtend(playlists[i], i, o.scan(i).value, 0, o, st);
        if !after.cancelled {
          PlaylistsExtend(playlists, i + 1, o, after);
        }
      }
    }
  }

  // ---------------------------------------------------------------------
  // Every scanned video is reached when nothing cancels the cycle

  /** No cancellation check fires during the cycle. */
  ghost predicate NeverCancelled(o: Oracle)
  {
    && (forall i: nat :: !o.cancelledAtPlaylist(i))
    && (forall i: nat, j: nat :: !o.cancelledAtVideo(i, j))
  }

  /** The video at (i, j) is in the ledger, or its pipeline call is in the trace as a failure. */
  ghost predicate Reached(playlists: seq<Playlist>, o: Oracle, st: Progress, i: nat, j: nat)
    requires Scanned(playlists, o, i) && j < |o.scan(i).value|
  {
    var video := o.scan(i).value[j];
    video.id in st.ledger || Handled(i, j, video, playlists[i].translate, false) in st.events
  }

  lemma ReachedStays(playlists: seq<Playlist>, o: Oracle, st1: Progress, st2: Progress, i: nat, j: nat)
    requires Scanned(playlists, o, i) && j < |o.scan(i).value|
    requires Reached(playlists, o, st1, i, j) && Extends(st1, st2)
    ensures Reached(playlists, o, st2, i, j)
  {
    assert st2.ledger == st1.ledger + st2.ledger[|st1.ledger|..];
    assert st2.events == st1.events + st2.events[|st1.events|..];
  }

  lemma {:induction false} VideosReach(playlists: seq<Playlist>, o: Oracle, i: nat, j: nat, st: Progress)
    requires Scanned(playlists, o, i) && j <= |o.scan(i).value| && NeverCancelled(o) && !st.cancelled
    ensures var st' := VideosFrom(playlists[i], i, o.scan(i).value, j, o, st);
      !st'.cancelled && forall m :: j <= m < |o.scan(i).value| ==> Reached(playlists, o, st', i, m)
    decreases |o.scan(i).value| - j
  {
    var videos := o.scan(i).value;
    if j < |videos| {
      assert !o.cancelledAtVideo(i, j);
      var next := VisitVideo(playlists[i], i, j, videos[j], o, st);
      var st' := VideosFrom(playlists[i], i, videos, j + 1, o, next);
      assert Reached(playlists, o, next, i, j);
      VideosReach(playlists, o, i, j + 1, next);
      VideosExtend(playlists[i], i, videos, j + 1, o, next);
      ReachedStays(playlists, o, next, st', i, j);
    }
  }

  lemma {:induction false} PlaylistsReach(playlists: seq<Playlist>, o: Oracle, i: nat, st: Progress)
    requires i <= |playlists| && NeverCancelled(o) && !st.cancelled
    ensures var st' := PlaylistsFrom(playlists, i, o, st);
      !st'.cancelled &&
      forall p, m :: i <= p && Scanned(playlists, o, p) && 0 <= m < |o.scan(p).value| ==>
        Reached(playlists, o, st', p, m)
    decreases |playlists| - i
  {
    if i < |playlists| {
      assert !o.cancelledAtPlaylist(i);
      if playlists[i].url == "" || o.scan(i).None? {
        PlaylistsReach(playlists, o, i + 1, st);
      } else {
        var videos := o.scan(i).value;
        var after := VideosFrom(playlists[i], i, videos, 0, o, st);
        var st' := PlaylistsFrom(playlists, i + 1, o, after);
        VideosReach(playlists, o, i, 0, st);
        PlaylistsReach(playlists, o, i + 1, after);
        PlaylistsExtend(playlists, i + 1, o, after);
        forall m | 0 <= m < |videos| ensures Reached(playlists, o, st', i, m) {
          ReachedStays(playlists, o, after, st', i, m);
        }
      }
    }
  }

  // ---------------------------------------------------------------------
  // What a cycle promises

  /**
   * The ledger only grows by appending: the loaded ledger followed by the ids of
   * the successful pipeline calls, in the order they happened.
   */
  lemma LedgerAppendsSuccesses(playlists: seq<Playlist>, initial: seq<string>, o: Oracle)
    ensures var st := Cycle(Some(playlists), Some(initial), o).progress;
      st.ledger == initial + SuccessIds(st.events) && initial <= st.ledger
  {
    CycleKeeps(playlists, initial, o);
  }

  /**
   * Every ledger snapshot written during a cycle extends the loaded ledger,
   * extends every earlier snapshot, and is a prefix of the final ledger: no
   * later write truncates or reorders the ledger.
   */
  lemma SnapshotsGrow(playlists: seq<Playlist>, initial: seq<string>, o: Oracle)
    ensures var st := Cycle(Some(playlists), Some(initial), o).progress;
      && (forall k :: 0 <= k < |st.events| && st.events[k].Saved? ==> initial <= st.events[k].snapshot <= st.ledger)
      && (forall k, m :: 0 <= k < m < |st.events| && st.events[k].Saved? && st.events[m].Saved? ==>
            initial <= st.events[k].snapshot <= st.events[m].snapshot <= st.ledger)
  {
    CycleKeeps(playlists, initial, o);
    var st := Cycle(Some(playlists), Some(initial), o).progress;
    SnapshotsOrdered(initial, st.events);
  }

  /**
   * A video whose id is in the ledger, loaded or appended earlier in the same
   * cycle, never reaches the pipeline.
   */
  lemma NeverReprocesses(playlists: seq<Playlist>, initial: seq<string>, o: Oracle)
    ensures var st := Cycle(Some(playlists), Some(initial), o).progress;
      forall k :: 0 <= k < |st.events| && st.events[k].Handled? ==>
        st.events[k].video.id !in initial && st.events[k].video.id !in SuccessIds(st.events[..k])
  {
    CycleKeeps(playlists, initial, o);
  }

  /**
   * An id is appended exactly for a successful pipeline call; every success is
   * directly followed by a save of the whole ledger including it, and a save
   * happens only directly after a success.
   */
  lemma SavesExactlyAfterSuccesses(playlists: seq<Playlist>, initial: seq<string>, o: Oracle)
    ensures var st := Cycle(Some(playlists), Some(initial), o).progress;
      && (forall k :: 0 <= k < |st.events| && st.events[k].Handled? && st.events[k].ok ==>
            k + 1 < |st.events| && st.events[k + 1].Saved? &&
            st.events[k + 1].snapshot == initial + SuccessIds(st.events[..k]) + [st.events[k].video.id])
      && (forall k :: 0 <= k < |st.events| && st.events[k].Saved? ==>
            0 < k && st.events[k - 1].Handled? && st.events[k - 1].ok)
  {
    CycleKeeps(playlists, initial, o);
    var st := Cycle(Some(playlists), Some(initial), o).progress;
    SuccessSnapshots(initial, st.events);
  }

  /**
   * If the loaded ledger has no duplicates, neither has the ledger at the end,
   * even when an id occurs twice in one scan or in two playlists.
   */
  lemma NoDuplicatesIntroduced(playlists: seq<Playlist>, initial: seq<string>, o: Oracle)
    requires NoDuplicates(initial)
    ensures NoDuplicates(Cycle(Some(playlists), Some(initial), o).progress.ledger)
  {
    CycleKeeps(playlists, initial, o);
    SuccessesAreFresh(initial, Cycle(Some(playlists), Some(initial), o).progress.events);
  }

  /**
   * Only videos returned by the scan of a playlist with a non-empty URL reach
   * the pipeline, with that playlist's translate flag and the outcome the
   * pipeline computes; calls happen in scan order, each position at most once.
   * A playlist with an empty URL or a failed scan therefore contributes nothing.
   */
  lemma HandlesOnlyScannedVideos(playlists: seq<Playlist>, initial: seq<string>, o: Oracle)
    ensures var st := Cycle(Some(playlists), Some(initial), o).progress;
      AllFromScans(playlists, o, st.events) && InScanOrder(st.events)
  {
    CycleKeeps(playlists, initial, o);
  }

  /**
   * Without cancellation the cycle reaches every video of every playlist that
   * was scanned, whatever failed elsewhere: each ends in the ledger or has a
   * failed pipeline call in the trace, and the cycle returns nil.
   */
  lemma EveryScannedVideoReached(playlists: seq<Playlist>, initial: seq<string>, o: Oracle)
    requires NeverCancelled(o)
    ensures var r := Cycle(Some(playlists), Some(initial), o);
      r.error.None? &&
      forall p, m :: Scanned(playlists, o, p) && 0 <= m < |o.scan(p).value| ==>
        Reached(playlists, o, r.progress, p, m)
  {
    PlaylistsReach(playlists, o, 0, Progress(initial, Some(initial), [], false));
  }

  /**
   * The ledger file, while it decodes, holds the loaded ledger extended by some
   * of the recorded ids, never more than the in-memory ledger. It stops
   * decoding only through a save that emptied it and then failed; when every
   * save succeeds it holds the whole final ledger.
   */
  lemma FileHoldsLedgerPrefix(playlists: seq<Playlist>, initial: seq<string>, o: Oracle)
    ensures var st := Cycle(Some(playlists), Some(initial), o).progress;
      && (st.file.Some? ==> initial <= st.file.value <= st.ledger)
      && (NoTruncatedSave(st.events) ==> st.file.Some?)
      && (AllSavesWritten(st.events) ==> st.file == Some(st.ledger))
  {
    CycleKeeps(playlists, initial, o);
    var st := Cycle(Some(playlists), Some(initial), o).progress;
    FileAfterTraceIsPrefix(initial, st.events);
    if AllSavesWritten(st.events) {
      assert st.events[..|st.events|] == st.events;
      FileAfterTraceIsComplete(initial, st.events, |st.events|);
    }
  }

  /**
   * Crash recovery: a later cycle that starts from the ledger file this one
   * left never reprocesses an id that file holds, and that file lies between
   * the loaded ledger and this cycle's ledger. A file that a failed save left
   * undecodable instead makes the later cycle fail before any effect.
   */
  lemma RestartSkipsPersisted(playlists: seq<Playlist>, initial: seq<string>, o: Oracle,
                              later: seq<Playlist>, o2: Oracle)
    ensures var st := Cycle(Some(playlists), Some(initial), o).progress;
      var next := Cycle(Some(later), st.file, o2);
      && (st.file.Some? ==>
            && initial <= st.file.value <= st.ledger
            && forall k :: 0 <= k < |next.progress.events| && next.progress.events[k].Handled? ==>
                 next.progress.events[k].video.id !in st.file.value)
      && (st.file.None? ==> next.error == Some(LedgerUnreadable) && next.progress.events == [])
  {
    FileHoldsLedgerPrefix(playlists, initial, o);
    var file := Cycle(Some(playlists), Some(initial), o).progress.file;
    if file.Some? {
      NeverReprocesses(later, file.value, o2);
    }
  }

  /** A source list or ledger that cannot be loaded ends the cycle before any effect. */
  lemma UnreadableFilesDoNothing(config: Option<seq<Playlist>>, ledgerFile: Option<seq<string>>, o: Oracle)
    requires config.None? || ledgerFile.None?
    ensures var r := Cycle(config, ledgerFile, o);
      r.error == Some(if config.None? then ConfigUnreadable else LedgerUnreadable) &&
      r.progress.events == [] && r.progress.file == ledgerFile
  {
  }

  /**
   * The ledger guarantees of a cycle in one place: the final ledger is the
   * loaded one plus the successes (so it only grew), it has no duplicates when
   * the loaded one had none, the file, while it decodes, holds a prefix of it
   * extending the loaded ledger and stops decoding only through a truncating
   * save, and no pipeline call was made for an id already in the ledger.
   */
  ghost predicate Sound(initial: seq<string>, ledger: seq<string>, file: Option<seq<string>>, events: seq<Event>)
  {
    && ledger == initial + SuccessIds(events)
    && (NoDuplicates(initial) ==> NoDuplicates(ledger))
    && (file.Some? ==> initial <= file.value <= ledger)
    && (NoTruncatedSave(events) ==> file.Some?)
    && NeverReprocessed(initial, events)
  }

  /** Every cycle that loaded both files ends in a sound state. */
  lemma CycleIsSound(playlists: seq<Playlist>, initial: seq<string>, o: Oracle)
    ensures var st := Cycle(Some(playlists), Some(initial), o).progress;
      Sound(initial, st.ledger, st.file, st.events)
  {
    CycleKeeps(playlists, initial, o);
    FileHoldsLedgerPrefix(playlists, initial, o);
    if NoDuplicates(initial) {
      NoDuplicatesIntroduced(playlists, initial, o);
    }
  }

  // ---------------------------------------------------------------------
  // Cancellation

  /** None of the checks before the videos j .. k - 1 of playlist i fires. */
  ghost predicate VideoChecksClear(o: Oracle, i: nat, j: nat, k: nat)
  {
    forall n :: j <= n < k ==> !o.cancelledAtVideo(i, n)
  }

  /**
   * None of the checks in playlists from .. to - 1 fires: the one before each
   * playlist and, for a playlist the cycle scans, the ones before its videos.
   */
  ghost predicate ChecksClear(playlists: seq<Playlist>, o: Oracle, from: nat, to: nat)
  {
    forall q :: from <= q < to ==>
      !o.cancelledAtPlaylist(q) && (Scanned(playlists, o, q) ==> VideoChecksClear(o, q, 0, |o.scan(q).value|))
  }

  /**
   * Every check up to the one before the video at (p, m) passed: those of the
   * earlier playlists, the one before playlist p and those before its videos
   * 0 .. m.
   */
  ghost predicate ChecksPassed(playlists: seq<Playlist>, o: Oracle, p: nat, m: nat)
  {
    ChecksClear(playlists, o, 0, p) && !o.cancelledAtPlaylist(p) && VideoChecksClear(o, p, 0, m + 1)
  }

  /** Every pipeline call of the trace from position `from` on was made after the checks before it passed. */
  ghost predicate CallsAfterChecks(playlists: seq<Playlist>, o: Oracle, events: seq<Event>, from: nat)
  {
    forall k :: from <= k < |events| && events[k].Handled? ==>
      ChecksPassed(playlists, o, events[k].playlist, events[k].index)
  }

  lemma {:induction false} VideosCancel(playlist: Playlist, i: nat, videos: seq<Video>, j: nat, o: Oracle, st: Progress)
    requires j <= |videos| && !st.cancelled
    ensures VideosFrom(playlist, i, videos, j, o, st).cancelled <==> !VideoChecksClear(o, i, j, |videos|)
    decreases |videos| - j
  {
    if j < |videos| && !o.cancelledAtVideo(i, j) {
      VideosCancel(playlist, i, videos, j + 1, o, VisitVideo(playlist, i, j, videos[j], o, st));
    }
  }

  lemma {:induction false} PlaylistsCancel(playlists: seq<Playlist>, i: nat, o: Oracle, st: Progress)
    requires i <= |playlists| && !st.cancelled
    ensures PlaylistsFrom(playlists, i, o, st).cancelled <==> !ChecksClear(playlists, o, i, |playlists|)
    decreases |playlists| - i
  {
    if i < |playlists| && !o.cancelledAtPlaylist(i) {
      if playlists[i].url == "" || o.scan(i).None? {
        PlaylistsCancel(playlists, i + 1, o, st);
      } else {
        var videos := o.scan(i).value;
        var after := VideosFrom(playlists[i], i, videos, 0, o, st);
        VideosCancel(playlists[i], i, videos, 0, o, st);
        if !after.cancelled {
          PlaylistsCancel(playlists, i + 1, o, after);
        }
      }
    }
  }

  /** Visiting the video at (i, j) appends only events at (i, j). */
  lemma VisitAppends(playlist: Playlist, o: Oracle, i: nat, j: nat, video: Video, st: Progress)
    ensures var st' := VisitVideo(playlist, i, j, video, o, st);
      && st.events <= st'.events
      && forall k :: |st.events| <= k < |st'.events| && st'.events[k].Handled? ==>
           st'.events[k].playlist == i && st'.events[k].index == j
  {
  }

  lemma {:induction false} VideosChecked(playlists: seq<Playlist>, playlist: Playlist, i: nat, videos: seq<Video>, j: nat,
                                         o: Oracle, st: Progress)
    requires j <= |videos|
    requires ChecksClear(playlists, o, 0, i) && !o.cancelledAtPlaylist(i) && VideoChecksClear(o, i, 0, j)
    ensures CallsAfterChecks(playlists, o, VideosFrom(playlist, i, videos, j, o, st).events, |st.events|)
    decreases |videos| - j
  {
    if j < |videos| && !o.cancelledAtVideo(i, j) {
      var next := VisitVideo(playlist, i, j, videos[j], o, st);
      var last := VideosFrom(playlist, i, videos, j + 1, o, next);
      VisitAppends(playlist, o, i, j, videos[j], st);
      VideosChecked(playlists, playlist, i, videos, j + 1, o, next);
      VideosExtend(playlist, i, videos, j + 1, o, next);
      forall k | |st.events| <= k < |last.events| && last.events[k].Handled?
        ensures ChecksPassed(playlists, o, last.events[k].playlist, last.events[k].index)
      {
        if k < |next.events| {
          assert last.events[k] == next.events[k];
        }
      }
    }
  }

  lemma {:induction false} PlaylistsChecked(playlists: seq<Playlist>, i: nat, o: Oracle, st: Progress)
    requires i <= |playlists| && !st.cancelled && ChecksClear(playlists, o, 0, i)
    ensures CallsAfterChecks(playlists, o, PlaylistsFrom(playlists, i, o, st).events, |st.events|)
    decreases |playlists| - i
  {
    if i < |playlists| && !o.cancelledAtPlaylist(i) {
      if playlists[i].url == "" || o.scan(i).None? {
        PlaylistsChecked(playlists, i + 1, o, st);
      } else {
        var videos := o.scan(i).value;
        var after := VideosFrom(playlists[i], i, videos, 0, o, st);
        VideosChecked(playlists, playlists[i], i, videos, 0, o, st);
        if !after.cancelled {
          VideosCancel(playlists[i], i, videos, 0, o, st);
          var last := PlaylistsFrom(playlists, i + 1, o, after);
          PlaylistsChecked(playlists, i + 1, o, after);
          PlaylistsExtend(playlists, i + 1, o, after);
          forall k | |st.events| <= k < |last.events| && last.events[k].Handled?
            ensures ChecksPassed(playlists, o, last.events[k].playlist, last.events[k].index)
          {
            if k < |after.events| {
              assert last.events[k] == after.events[k];
            }
          }
        }
      }
    }
  }

  /**
   * The cycle ends with the cancellation error exactly when one of the checks
   * it can reach fires: the one before a playlist, or one before a video of a
   * playlist it scans (the first such check is reached, since every check
   * before it passed). Every pipeline call is made only after every check up to
   * its own passed, so nothing is processed after a check fires.
   */
  lemma CancellationStops(playlists: seq<Playlist>, initial: seq<string>, o: Oracle)
    ensures var r := Cycle(Some(playlists), Some(initial), o);
      && (r.error == Some(Cancelled) <==> !ChecksClear(playlists, o, 0, |playlists|))
      && CallsAfterChecks(playlists, o, r.progress.events, 0)
  {
    var start := Progress(initial, Some(initial), [], false);
    PlaylistsCancel(playlists, 0, o, start);
    PlaylistsChecked(playlists, 0, o, start);
  }

  // ---------------------------------------------------------------------
  // The ledger file under an atomic replace

  /** No ledger save of the cycle empties the file and then fails. */
  ghost predicate NeverTruncates(o: Oracle)
  {
    forall i: nat, j: nat :: !o.save(i, j).Truncated?
  }

  /** The same outside world with every ledger save done as an atomic replace. */
  function Atomically(o: Oracle): (r: Oracle)
    ensures r.scan == o.scan && r.steps == o.steps
    ensures r.cancelledAtPlaylist == o.cancelledAtPlaylist && r.cancelledAtVideo == o.cancelledAtVideo
    ensures forall i: nat, j: nat :: r.save(i, j).Written? <==> o.save(i, j).Written?
    ensures NeverTruncates(r)
  {
    o.(save := (i: nat, j: nat) => AtomicReplace(o.save(i, j)))
  }

  lemma {:induction false} VideosDecode(playlist: Playlist, i: nat, videos: seq<Video>, j: nat, o: Oracle, st: Progress)
    requires j <= |videos| && NeverTruncates(o) && st.file.Some?
    ensures VideosFrom(playlist, i, videos, j, o, st).file.Some?
    decreases |videos| - j
  {
    if j < |videos| && !o.cancelledAtVideo(i, j) {
      VideosDecode(playlist, i, videos, j + 1, o, VisitVideo(playlist, i, j, videos[j], o, st));
    }
  }

  lemma {:induction false} PlaylistsDecode(playlists: seq<Playlist>, i: nat, o: Oracle, st: Progress)
    requires i <= |playlists| && NeverTruncates(o) && st.file.Some?
    ensures PlaylistsFrom(playlists, i, o, st).file.Some?
    decreases |playlists| - i
  {
    if i < |playlists| && !o.cancelledAtPlaylist(i) {
      if playlists[i].url == "" || o.scan(i).None? {
        PlaylistsDecode(playlists, i + 1, o, st);
      } else {
        var after := VideosFrom(playlists[i], i, o.scan(i).value, 0, o, st);
        VideosDecode(playlists[i], i, o.scan(i).value, 0, o, st);
        if !after.cancelled {
          PlaylistsDecode(playlists, i + 1, o, after);
        }
      }
    }
  }

  /**
   * With every save done as an atomic replace, the ledger file always decodes
   * and lies between the loaded ledger and the final one, so a later cycle
   * that starts from it skips every id it holds, whatever failed.
   */
  lemma AtomicSavesKeepLedger(playlists: seq<Playlist>, initial: seq<string>, o: Oracle,
                              later: seq<Playlist>, o2: Oracle)
    ensures var st := Cycle(Some(playlists), Some(initial), Atomically(o)).progress;
      && st.file.Some?
      && initial <= st.file.value <= st.ledger
      && var next := Cycle(Some(later), st.file, o2).progress;
         forall k :: 0 <= k < |next.events| && next.events[k].Handled? ==> next.events[k].video.id !in st.file.value
  {
    var a := Atomically(o);
    PlaylistsDecode(playlists, 0, a, Progress(initial, Some(initial), [], false));
    RestartSkipsPersisted(playlists, initial, a, later, o2);
  }
}
