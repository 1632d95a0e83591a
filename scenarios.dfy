// Concrete runs of the model: the seven effects of one translated video, and
// three cycles over a single playlist whose first video is already in the
// ledger: with every external step succeeding, with the translator failing,
// and with the save after the new video emptying the ledger file and failing.

module Scenarios {
  import opened Wrappers
  import opened Domain
  import opened Files
  import opened Pipeline
  import opened ScanCycle

  const V1 := Video("v1", "T1", "u1")
  const V2 := Video("v2", "T2", "u2")

  /** Every external step succeeds; the downloader names its output file `tmp/T2.mp4`. */
  const AllOk := Outcomes(true, Some("tmp/T2.mp4"), true, true, true, true, true)

  /** The downloader succeeds but the translator reports an error. */
  const TranslatorFails := AllOk.(translationOk := false)

  /** The scan of every playlist yields v1 and v2, nothing is cancelled, and every save ends with `save`. */
  function ScenarioOracle(steps: Outcomes, save: WriteOutcome): Oracle
  {
    Oracle(
      _ => Some([V1, V2]),
      (_, _) => steps,
      (_, _) => save,
      _ => false,
      (_, _) => false)
  }

  /** The seven effects of a translated video, in order, with the paths derived from the file name. */
  lemma TranslatedVideoEffects()
    ensures HandleVideo(V2, true, AllOk) == Run(None, [
      Download("u2"),
      LookupFilename("u2"),
      FetchTranslation("u2", "tmp", "T2.mp4.mp3"),
      CheckAudio("tmp/T2.mp4.mp3"),
      Mux("tmp/T2.mp4", "tmp/T2.mp4.mp3", "tmp/T2.mp4.[VOT-CLI-LIVE].mp4"),
      Remove("tmp/T2.mp4.mp3"),
      Remove("tmp/T2.mp4")])
  {
    SplitsAtFour("tmp/T2.mp4");
    SplitsAtFour("tmp/T2.mp4.mp3");
    assert Paths.AudioFile("tmp/T2.mp4") == "T2.mp4.mp3";
    assert Paths.Join("tmp", "T2.mp4.mp3") == "tmp/T2.mp4.mp3";
    assert Paths.TranslatedVideo("tmp/T2.mp4") == "tmp/T2.mp4.[VOT-CLI-LIVE].mp4";
  }

  /** A file name of the form `tmp/...` without a further '/' is split after `tmp`. */
  lemma SplitsAtFour(p: string)
    requires |p| > 4 && p[..4] == "tmp/" && forall k :: 4 <= k < |p| ==> p[k] != '/'
    ensures Paths.Dir(p) == "tmp" && Paths.Base(p) == p[4..]
  {
    assert p[3] == '/';
    assert Paths.LastSlash(p) == Some(3);
  }

  /** The cycle over the single playlist P1, whose scan yields v1 and v2, from the ledger ["v1"]. */
  lemma CycleUnfolds(steps: Outcomes, save: WriteOutcome)
    ensures var o := ScenarioOracle(steps, save);
      var start := Progress(["v1"], Some(["v1"]), [], false);
      var visited := VisitVideo(Playlist("P1", true), 0, 1, V2, o, start);
      Cycle(Some([Playlist("P1", true)]), Some(["v1"]), o) == CycleRun(None, visited)
  {
    var o := ScenarioOracle(steps, save);
    var p := Playlist("P1", true);
    var start := Progress(["v1"], Some(["v1"]), [], false);
    assert VisitVideo(p, 0, 0, V1, o, start) == start;
    var visited := VisitVideo(p, 0, 1, V2, o, start);
    assert !visited.cancelled;
    assert VideosFrom(p, 0, [V1, V2], 2, o, visited) == visited;
    assert VideosFrom(p, 0, [V1, V2], 1, o, start) == visited;
    assert VideosFrom(p, 0, [V1, V2], 0, o, start) == visited;
    assert PlaylistsFrom([p], 1, o, visited) == visited;
    assert PlaylistsFrom([p], 0, o, start) == visited;
  }

  /** Only v2 is processed, it is appended to the ledger, and the ledger is saved once. */
  lemma SkipsKnownProcessesNew()
    ensures var r := Cycle(Some([Playlist("P1", true)]), Some(["v1"]), ScenarioOracle(AllOk, Written));
      && r.error == None
      && r.progress.ledger == ["v1", "v2"]
      && r.progress.file == Some(["v1", "v2"])
      && r.progress.events == [Handled(0, 1, V2, true, true), Saved(["v1", "v2"], Written)]
  {
    TranslatedVideoEffects();
    CycleUnfolds(AllOk, Written);
    assert "v2" !in ["v1"];
  }

  /**
   * When the translator fails, v2 is not recorded, nothing is saved, and the
   * downloaded file is not removed.
   */
  lemma TranslatorFailureKeepsLedger()
    ensures var r := Cycle(Some([Playlist("P1", true)]), Some(["v1"]), ScenarioOracle(TranslatorFails, Written));
      && r.error == None
      && r.progress.ledger == ["v1"]
      && r.progress.file == Some(["v1"])
      && r.progress.events == [Handled(0, 1, V2, true, false)]
    ensures HandleVideo(V2, true, TranslatorFails).error == Some(TranslationFailed)
    ensures forall k :: 0 <= k < |HandleVideo(V2, true, TranslatorFails).actions| ==>
      !HandleVideo(V2, true, TranslatorFails).actions[k].Remove?
  {
    CycleUnfolds(TranslatorFails, Written);
    assert "v2" !in ["v1"];
  }

  /**
   * A save that empties the ledger file and then fails, after v2 succeeded:
   * the file no longer decodes, so every later cycle, whatever its source list
   * and outside world, fails at the ledger load before any effect, and the ids
   * v1 and v2 recorded by completed work are lost.
   */
  lemma TruncatedSaveLosesLedger(later: seq<Playlist>, o2: Oracle)
    ensures var r := Cycle(Some([Playlist("P1", true)]), Some(["v1"]), ScenarioOracle(AllOk, Truncated));
      && r.progress.ledger == ["v1", "v2"]
      && r.progress.file == None
      && Cycle(Some(later), r.progress.file, o2) == CycleRun(Some(LedgerUnreadable), Progress([], None, [], false))
  {
    TranslatedVideoEffects();
    CycleUnfolds(AllOk, Truncated);
    assert "v2" !in ["v1"];
  }
}
