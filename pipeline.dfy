/**
 * The per-video pipeline (`handleVideo`, main.go:140-182): download, then on
 * the translate path look up the downloaded file name, fetch the translated
 * audio track, check that it exists, mux it onto the video and remove the two
 * intermediate files. Each external step is an oracle outcome; the effects
 * performed are returned as a trace of actions.
 */
module Pipeline {
  import opened Wrappers
  import opened Domain
  import Paths

  /** The outcomes the external collaborators deliver for one call of the pipeline. */
  datatype Outcomes = Outcomes(
    downloadOk: bool,          // the downloader's Download
    filename: Option<string>,  // the downloader's GetFilename: the file it produced, or a failure
    translationOk: bool,       // the translator subprocess
    audioExists: bool,         // stat of the audio path succeeds
    muxOk: bool,               // the muxer subprocess
    removeAudioOk: bool,       // removal of the audio track
    removeVideoOk: bool)       // removal of the un-muxed video

  /** An effect the pipeline performs on the outside world. */
  datatype Action =
    | Download(url: string)
    | LookupFilename(url: string)
    | FetchTranslation(url: string, dir: string, file: string)
    | CheckAudio(path: string)
    | Mux(video: string, audio: string, output: string)
    | Remove(path: string)

  /** Why a video was not processed. */
  datatype PipelineError =
    | DownloadFailed
    | FilenameLookupFailed
    | TranslationFailed
    | AudioNotFound(path: string)
    | MuxFailed

  /** What one call of the pipeline returns (`error`, None meaning nil) and the effects it performed. */
  datatype Run = Run(error: Option<PipelineError>, actions: seq<Action>)

  /** handleVideo(yt, video, translate). */
  function HandleVideo(video: Video, translate: bool, o: Outcomes): Run
  {
    if !o.downloadOk then Run(Some(DownloadFailed), [Download(video.url)])
    else if !translate then Run(None, [Download(video.url)])
    else
      var looked := [Download(video.url), LookupFilename(video.url)];
      match o.filename
      case None => Run(Some(FilenameLookupFailed), looked)
      case Some(filename) =>
        var dir := Paths.Dir(filename);
        var audioFile := Paths.AudioFile(filename);
        var audioPath := Paths.Join(dir, audioFile);
        var translatedVideo := Paths.TranslatedVideo(filename);
        var fetched := looked + [FetchTranslation(video.url, dir, audioFile)];
        if !o.translationOk then Run(Some(TranslationFailed), fetched)
        else
          var checked := fetched + [CheckAudio(audioPath)];
          if !o.audioExists then Run(Some(AudioNotFound(audioPath)), checked)
          else
            var muxed := checked + [Mux(filename, audioPath, translatedVideo)];
            if !o.muxOk then Run(Some(MuxFailed), muxed)
            // removal results are ignored
            else Run(None, muxed + [Remove(audioPath), Remove(filename)])
  }

  /** True when the pipeline returned nil. */
  predicate Succeeds(video: Video, translate: bool, o: Outcomes)
  {
    HandleVideo(video, translate, o).error.None?
  }

  /** The pipeline succeeds exactly when every gated step succeeds; removals play no part. */
  lemma SucceedsExactly(video: Video, translate: bool, o: Outcomes)
    ensures Succeeds(video, translate, o) <==>
      o.downloadOk && (!translate || (o.filename.Some? && o.translationOk && o.audioExists && o.muxOk))
  {
  }

  /** Whatever the outcomes, the download is always attempted first, and a failed download ends the call. */
  lemma DownloadFirst(video: Video, translate: bool, o: Outcomes)
    ensures var r := HandleVideo(video, translate, o);
      |r.actions| >= 1 && r.actions[0] == Download(video.url) &&
      (!o.downloadOk ==> r.error == Some(DownloadFailed) && r.actions == [Download(video.url)])
  {
  }

  /** Without translation the video is done when the download succeeds, and nothing else is touched. */
  lemma UntranslatedIsDownloadOnly(video: Video, o: Outcomes)
    ensures var r := HandleVideo(video, false, o);
      (r.error.None? <==> o.downloadOk) && r.actions == [Download(video.url)]
  {
  }

  /** Removal outcomes never change what the pipeline returns. */
  lemma CleanupNeverFails(video: Video, translate: bool, o: Outcomes, audioRemoved: bool, videoRemoved: bool)
    ensures HandleVideo(video, translate, o).error ==
            HandleVideo(video, translate, o.(removeAudioOk := audioRemoved, removeVideoOk := videoRemoved)).error
    ensures HandleVideo(video, translate, o).actions ==
            HandleVideo(video, translate, o.(removeAudioOk := audioRemoved, removeVideoOk := videoRemoved)).actions
  {
  }

  /** A failing call removes nothing: in particular a downloaded video stays on disk when translation fails. */
  lemma NoCleanupOnFailure(video: Video, translate: bool, o: Outcomes)
    ensures var r := HandleVideo(video, translate, o);
      r.error.Some? ==> forall a :: a in r.actions ==> !a.Remove?
  {
  }

  /**
   * When the translator reports success but the audio track is missing, the call
   * fails with "audio file not found" for the derived path, and neither muxes
   * nor removes anything.
   */
  lemma MissingAudio(video: Video, o: Outcomes, filename: string)
    requires o.downloadOk && o.filename == Some(filename) && o.translationOk && !o.audioExists
    ensures var r := HandleVideo(video, true, o);
      r.error == Some(AudioNotFound(Paths.AudioPath(filename))) &&
      forall a :: a in r.actions ==> !a.Mux? && !a.Remove?
  {
  }

  /**
   * On the translate path every mux combines the downloaded file with the audio
   * track the translator was told to write, into the distinctly named output.
   */
  lemma MuxTargets(video: Video, o: Outcomes, filename: string)
    requires o.downloadOk && o.filename == Some(filename)
    ensures var r := HandleVideo(video, true, o);
      forall a :: a in r.actions && a.Mux? ==>
        a == Mux(filename, Paths.AudioPath(filename), Paths.TranslatedVideo(filename)) &&
        FetchTranslation(video.url, Paths.Dir(a.audio), Paths.Base(a.audio)) in r.actions
  {
    Paths.AudioPathSplits(filename);
    var r := HandleVideo(video, true, o);
    var audio := Paths.AudioPath(filename);
    var fetch := FetchTranslation(video.url, Paths.Dir(filename), Paths.AudioFile(filename));
    var mux := Mux(filename, audio, Paths.TranslatedVideo(filename));
    var checked := [Download(video.url), LookupFilename(video.url), fetch, CheckAudio(audio)];
    if o.translationOk && o.audioExists {
      assert r.actions == checked + [mux] || r.actions == checked + [mux] + [Remove(audio), Remove(filename)];
      assert fetch in r.actions;
    } else {
      assert r.actions <= checked;
    }
  }

  /**
   * After a successful mux the two removals delete exactly the audio track and
   * the un-muxed video, never the output.
   */
  lemma CleanupTargets(video: Video, o: Outcomes, filename: string)
    requires o.downloadOk && o.filename == Some(filename)
    ensures var r := HandleVideo(video, true, o);
      r.error.None? ==>
        r.actions[|r.actions| - 2..] == [Remove(Paths.AudioPath(filename)), Remove(filename)] &&
        Remove(Paths.TranslatedVideo(filename)) !in r.actions
  {
    Paths.OutputsDistinct(filename);
  }
}
