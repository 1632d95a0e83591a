/**
 * The polling service's state as a class: the two files it keeps in its
 * private directory and the in-memory ledger and effect trace of the cycle it
 * runs (`runScanCycle`, main.go:82-138).
 */
module Daemon {
  import opened Wrappers
  import opened Domain
  import opened Files
  import Pipeline
  import opened ScanCycle
  import opened CycleProperties

  /**
   * The service's durable state and the state of its current cycle. The two
   * files are fields whose contents the methods read and overwrite; the
   * in-memory ledger is the slice the cycle appends to.
   */
  class Service {
    var config: Option<seq<Playlist>>      // the source-list file
    var ledgerFile: Option<seq<string>>    // the ledger file (None: it does not decode)
    var downloaded: seq<string>            // the in-memory ledger of the current cycle
    var trace: seq<Event>                  // the effects of the current cycle

    constructor (config: Option<seq<Playlist>>, ledgerFile: Option<seq<string>>)
      ensures this.config == config && this.ledgerFile == ledgerFile
      ensures downloaded == [] && trace == []
    {
      this.config := config;
      this.ledgerFile := ledgerFile;
      downloaded := [];
      trace := [];
    }

    /** The progress record the fields stand for. */
    function Current(): Progress
      reads this
    {
      Progress(downloaded, ledgerFile, trace, false)
    }

    /** runScanCycle(ctx) */
    method RunScanCycle(o: Oracle) returns (err: Option<CycleError>)
      modifies this
      ensures config == old(config)
      ensures var r := Cycle(old(config), old(ledgerFile), o);
        err == r.error && downloaded == r.progress.ledger && ledgerFile == r.progress.file &&
        trace == r.progress.events
      // what follows from the lemmas about Cycle, for a cycle that loaded both files
      ensures old(config).Some? && old(ledgerFile).Some? ==>
        Sound(old(ledgerFile).value, downloaded, ledgerFile, trace)
    {
      downloaded := [];
      trace := [];
      if config.None? {
        return Some(ConfigUnreadable);
      }
      var playlists := config.value;
      if ledgerFile.None? {
        return Some(LedgerUnreadable);
      }
      downloaded := ledgerFile.value;
      ghost var final := PlaylistsFrom(playlists, 0, o, Current());
      assert final == Cycle(old(config), old(ledgerFile), o).progress;
      var i := 0;
      while i < |playlists|
        invariant 0 <= i <= |playlists|
        invariant config == old(config)
        invariant PlaylistsFrom(playlists, i, o, Current()) == final
      {
        if o.cancelledAtPlaylist(i) {
          CycleIsSound(playlists, old(ledgerFile).value, o);
          return Some(Cancelled);
        }
        var playlist := playlists[i];
        if playlist.url == "" {
          i := i + 1;
          continue;
        }
        var scanned := o.scan(i);
        if scanned.None? {
          i := i + 1;
          continue;
        }
        var videos := scanned.value;
        ghost var entry := Current();
        var j := 0;
        while j < |videos|
          invariant 0 <= j <= |videos|
          invariant config == old(config)
          invariant VideosFrom(playlist, i, videos, j, o, Current()) == VideosFrom(playlist, i, videos, 0, o, entry)
        {
          if o.cancelledAtVideo(i, j) {
            CycleIsSound(playlists, old(ledgerFile).value, o);
            return Some(Cancelled);
          }
          var video := videos[j];
          if video.id in downloaded {
            j := j + 1;
            continue;
          }
          var ok := Pipeline.HandleVideo(video, playlist.translate, o.steps(i, j)).error.None?;
          trace := trace + [Handled(i, j, video, playlist.translate, ok)];
          if !ok {
            j := j + 1;
            continue;
          }
          downloaded := downloaded + [video.id];
          var outcome := o.save(i, j);
          trace := trace + [Saved(downloaded, outcome)];
          ledgerFile := FileAfter(outcome, ledgerFile, downloaded);
          j := j + 1;
        }
        i := i + 1;
      }
      CycleIsSound(playlists, old(ledgerFile).value, o);
      return None;
    }
  }
}
