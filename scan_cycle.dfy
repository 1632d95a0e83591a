/**
 * One pass of the polling service over its configured playlists
 * (`runScanCycle`, main.go:82-138).
 *
 * The specification is a family of functions that walk the playlists and
 * their scanned videos in order and thread a `Progress` record: the
 * in-memory ledger, the contents of the ledger file and the trace of effects.
 * The lemmas of CycleProperties state what the source promises about them,
 * and Daemon.Service.RunScanCycle is the imperative loop proved equal to `Cycle`.
 */
module ScanCycle {
  import opened Wrappers
  import opened Domain
  import opened Files
  import Pipeline

  /**
   * What the outside world answers during one cycle. Every playlist position i
   * and every video position (i, j) is reached at most once per cycle, so the
   * answers are indexed by position.
   */
  datatype Oracle = Oracle(
    scan: nat -> Option<seq<Video>>,           // scan of playlist i: its videos, or a failure
    steps: (nat, nat) -> Pipeline.Outcomes,    // external step outcomes for video j of playlist i
    save: (nat, nat) -> WriteOutcome,          // how the ledger save after video (i, j) ends
    cancelledAtPlaylist: nat -> bool,          // the cancellation check before playlist i
    cancelledAtVideo: (nat, nat) -> bool)      // the cancellation check before video (i, j)

  /** An effect of the cycle: a pipeline call with its outcome, or a save of the whole ledger and how it ended. */
  datatype Event =
    | Handled(playlist: nat, index: nat, video: Video, translate: bool, ok: bool)
    | Saved(snapshot: seq<string>, outcome: WriteOutcome)

  /** Why a cycle ended early. */
  datatype CycleError = ConfigUnreadable | LedgerUnreadable | Cancelled

  /**
   * The state a cycle threads: in-memory ledger, ledger file (None once it no
   * longer decodes), effects so far, and whether it was cancelled.
   */
  datatype Progress = Progress(ledger: seq<string>, file: Option<seq<string>>, events: seq<Event>, cancelled: bool)

  /** The result of a cycle (None meaning nil) and its final progress. */
  datatype CycleRun = CycleRun(error: Option<CycleError>, progress: Progress)

  /** The body of the inner loop for video j of playlist i, after the cancellation check (main.go:116-133). */
  function VisitVideo(playlist: Playlist, i: nat, j: nat, video: Video, o: Oracle, st: Progress): Progress
  {
    if video.id in st.ledger then st
    else
      var ok := Pipeline.Succeeds(video, playlist.translate, o.steps(i, j));
      var handled := st.events + [Handled(i, j, video, playlist.translate, ok)];
      if !ok then st.(events := handled)
      else
        var ledger := st.ledger + [video.id];
        var w := o.save(i, j);
        Progress(ledger, FileAfter(w, st.file, ledger), handled + [Saved(ledger, w)], st.cancelled)
  }

  /** The inner loop from video j on (main.go:111-134). */
  function VideosFrom(playlist: Playlist, i: nat, videos: seq<Video>, j: nat, o: Oracle, st: Progress): Progress
    requires j <= |videos|
    decreases |videos| - j
  {
    if j == |videos| then st
    else if o.cancelledAtVideo(i, j) then st.(cancelled := true)
    else VideosFrom(playlist, i, videos, j + 1, o, VisitVideo(playlist, i, j, videos[j], o, st))
  }

  /** The outer loop from playlist i on (main.go:95-135). */
  function PlaylistsFrom(playlists: seq<Playlist>, i: nat, o: Oracle, st: Progress): Progress
    requires i <= |playlists|
    decreases |playlists| - i
  {
    if i == |playlists| then st
    else if o.cancelledAtPlaylist(i) then st.(cancelled := true)
    else if playlists[i].url == "" then PlaylistsFrom(playlists, i + 1, o, st)
    else match o.scan(i)
      case None => PlaylistsFrom(playlists, i + 1, o, st)
      case Some(videos) =>
        var after := VideosFrom(playlists[i], i, videos, 0, o, st);
        if after.cancelled then after else PlaylistsFrom(playlists, i + 1, o, after)
  }

  /**
   * A whole cycle, given the contents of the source-list file and of the ledger
   * file (None for a file that cannot be read or decoded).
   */
  function Cycle(config: Option<seq<Playlist>>, ledgerFile: Option<seq<string>>, o: Oracle): CycleRun
  {
    match config
    case None => CycleRun(Some(ConfigUnreadable), Progress([], ledgerFile, [], false))
    case Some(playlists) =>
      match ledgerFile
      case None => CycleRun(Some(LedgerUnreadable), Progress([], ledgerFile, [], false))
      case Some(ledger) =>
        var final := PlaylistsFrom(playlists, 0, o, Progress(ledger, ledgerFile, [], false));
        CycleRun(if final.cancelled then Some(Cancelled) else None, final)
  }
}
