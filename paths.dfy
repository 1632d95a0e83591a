/**
 * The path arithmetic of the translate path of the per-video pipeline: where
 * the translated audio track is written and what the muxed output is called.
 *
 * Paths use '/' as the only separator and are split at their last '/'.
 * The lexical normalisation the platform's path library also performs
 * (collapsing "//", resolving "." and "..", stripping trailing slashes) is
 * not modelled; for the file names `IsClean` describes there is nothing to
 * normalise, so the two agree.
 */
module Paths {
  import opened Wrappers

  /** Name suffix of the translated audio track written next to the video. */
  const AudioSuffix: string := ".mp3"

  /** Name suffix of the muxed output video. */
  const TranslatedSuffix: string := ".[VOT-CLI-LIVE].mp4"

  /** The position of the last '/' in `path`, if there is one. */
  function LastSlash(path: string): (r: Option<nat>)
    ensures r.Some? ==> r.value < |path| && path[r.value] == '/'
    ensures r.Some? ==> forall k :: r.value < k < |path| ==> path[k] != '/'
    ensures r.None? ==> forall k :: 0 <= k < |path| ==> path[k] != '/'
  {
    if path == [] then None
    else if path[|path| - 1] == '/' then Some(|path| - 1)
    else LastSlash(path[..|path| - 1])
  }

  /** The directory part: everything before the last '/', "/" for a root entry, "." without a '/'. */
  function Dir(path: string): string
  {
    match LastSlash(path)
    case None => "."
    case Some(k) => if k == 0 then "/" else path[..k]
  }

  /** The last element: everything after the last '/', "." for the empty path. */
  function Base(path: string): string
  {
    if path == "" then "."
    else match LastSlash(path)
      case None => path
      case Some(k) => path[k + 1..]
  }

  /** Joins a directory and a name; joining onto "." yields the name alone. */
  function Join(dir: string, name: string): string
  {
    if dir == "." then name
    else if dir == "/" then "/" + name
    else dir + "/" + name
  }

  /** The file name the translator is asked to write (main.go:157). */
  function AudioFile(filename: string): string
  {
    Base(filename) + AudioSuffix
  }

  /** Where the translated audio track is looked for (main.go:155-158). */
  function AudioPath(filename: string): string
  {
    Join(Dir(filename), AudioFile(filename))
  }

  /** The muxed output video (main.go:159). */
  function TranslatedVideo(filename: string): string
  {
    filename + TranslatedSuffix
  }

  /** Position k starts a path component: it is the first character or follows a '/'. */
  predicate StartsComponent(path: string, k: nat)
    requires k < |path|
  {
    k == 0 || path[k - 1] == '/'
  }

  /** Position k ends a path component: it is the last character or precedes a '/'. */
  predicate EndsComponent(path: string, k: nat)
    requires k < |path|
  {
    k + 1 == |path| || path[k + 1] == '/'
  }

  /**
   * A file name with nothing to normalise: non-empty, not ending in '/',
   * without an empty component ("//") and without a "." or ".." component.
   */
  predicate IsClean(path: string)
  {
    && path != ""
    && path[|path| - 1] != '/'
    && (forall k :: 0 <= k < |path| - 1 ==> !(path[k] == '/' && path[k + 1] == '/'))
    && (forall k :: 0 <= k < |path| && path[k] == '.' && StartsComponent(path, k) ==>
          !EndsComponent(path, k) && !(path[k + 1] == '.' && EndsComponent(path, k + 1)))
  }

  /** Splitting a clean file name and joining the parts again gives it back. */
  lemma CleanSplitsBack(path: string)
    requires IsClean(path)
    ensures Join(Dir(path), Base(path)) == path
  {
    match LastSlash(path)
    case None =>
    case Some(k) =>
      if k > 0 {
        if k == 1 {
          assert StartsComponent(path, 0) && EndsComponent(path, 0);
          assert path[..k] == [path[0]];
        }
        assert path == path[..k] + "/" + path[k + 1..];
      } else {
        assert path == "/" + path[1..];
      }
  }

  /** Names the platform's cleaning would change are not clean. */
  lemma UncleanExamples()
    ensures !IsClean("a//b") && !IsClean("a/./b") && !IsClean("a/../b") && !IsClean("a/") && !IsClean("./a")
  {
    assert "a//b"[1] == '/' && "a//b"[2] == '/';
    assert StartsComponent("a/./b", 2) && EndsComponent("a/./b", 2);
    assert StartsComponent("a/../b", 2) && EndsComponent("a/../b", 3);
    assert StartsComponent("./a", 0) && EndsComponent("./a", 0);
  }

  /** The directory part of a path is never empty. */
  lemma DirNonEmpty(path: string)
    ensures Dir(path) != ""
  {
  }

  /** The last element of a path never contains a '/'. */
  lemma BaseHasNoSlash(path: string)
    ensures forall k :: 0 <= k < |Base(path)| ==> Base(path)[k] != '/'
  {
  }

  /** Appending text without a '/' does not move the last '/'. */
  lemma {:induction false} LastSlashAppend(path: string, tail: string)
    requires forall k :: 0 <= k < |tail| ==> tail[k] != '/'
    ensures LastSlash(path + tail) == LastSlash(path)
  {
    if tail != [] {
      var shorter := tail[..|tail| - 1];
      assert (path + tail)[..|path + tail| - 1] == path + shorter;
      LastSlashAppend(path, shorter);
    } else {
      assert path + tail == path;
    }
  }

  /** Joining a non-empty name without '/' onto a directory and splitting again gives both back. */
  lemma JoinSplits(dir: string, name: string)
    requires dir != "" && name != ""
    requires forall k :: 0 <= k < |name| ==> name[k] != '/'
    ensures Dir(Join(dir, name)) == dir
    ensures Base(Join(dir, name)) == name
  {
    var joined := Join(dir, name);
    if dir == "." {
      LastSlashAppend("", name);
      assert "" + name == name;
    } else if dir == "/" {
      LastSlashAppend("/", name);
      assert joined[1..] == name;
    } else {
      LastSlashAppend(dir + "/", name);
      assert joined == (dir + "/") + name;
      assert joined[..|dir|] == dir;
      assert joined[|dir| + 1..] == name;
    }
  }

  /**
   * The translator is told to write `AudioFile(filename)` into `Dir(filename)`;
   * splitting the path that is checked afterwards gives back exactly that
   * directory and that name, so the check looks where the translator wrote.
   */
  lemma AudioPathSplits(filename: string)
    ensures Dir(AudioPath(filename)) == Dir(filename)
    ensures Base(AudioPath(filename)) == AudioFile(filename)
  {
    DirNonEmpty(filename);
    BaseHasNoSlash(filename);
    var name := AudioFile(filename);
    assert forall k :: 0 <= k < |name| ==> name[k] != '/' by {
      forall k | 0 <= k < |name| ensures name[k] != '/' {
        if k >= |Base(filename)| {
          assert name[k] == AudioSuffix[k - |Base(filename)|];
        } else {
          assert name[k] == Base(filename)[k];
        }
      }
    }
    JoinSplits(Dir(filename), name);
  }

  /** For a clean file name the audio track lies beside the video: its path is the video's path plus ".mp3". */
  lemma AudioBesideVideo(filename: string)
    requires IsClean(filename)
    ensures AudioPath(filename) == filename + AudioSuffix
  {
    CleanSplitsBack(filename);
    var dir, base := Dir(filename), Base(filename);
    if dir != "." {
      if dir == "/" {
        assert AudioPath(filename) == ("/" + base) + AudioSuffix;
      } else {
        assert AudioPath(filename) == (dir + "/" + base) + AudioSuffix;
      }
    }
  }

  /** The muxed output never coincides with the downloaded video or with the audio track. */
  lemma OutputsDistinct(filename: string)
    ensures TranslatedVideo(filename) != filename
    ensures TranslatedVideo(filename) != AudioPath(filename)
    ensures IsClean(filename) ==> AudioPath(filename) != filename
  {
    var audio, output := AudioPath(filename), TranslatedVideo(filename);
    assert |output| == |filename| + |TranslatedSuffix|;
    assert audio[|audio| - 1] == '3' by {
      assert audio == AudioFile(filename) || audio == "/" + AudioFile(filename) || audio == Dir(filename) + "/" + AudioFile(filename);
    }
    assert output[|output| - 1] == '4';
    if IsClean(filename) {
      AudioBesideVideo(filename);
    }
  }
}
