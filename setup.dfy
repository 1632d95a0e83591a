/**
 * The first-run interactive setup (`setupInteractiveConfig`, main.go:211-310).
 * Standard input is a sequence of lines read one at a time; the scans of
 * playlists whose existing videos are to be skipped and the two file writes
 * are oracle answers.
 */
module Setup {
  import opened Wrappers
  import opened Domain
  import opened Files
  import opened Answers

  /** Marking scanned videos as downloaded from video j on: append each id not yet present (main.go:259-263). */
  function MergeFrom(ledger: seq<string>, videos: seq<Video>, j: nat): seq<string>
    requires j <= |videos|
    decreases |videos| - j
  {
    if j == |videos| then ledger
    else MergeFrom(if videos[j].id in ledger then ledger else ledger + [videos[j].id], videos, j + 1)
  }

  /** The ledger after marking every video of a scan as downloaded. */
  function Merged(ledger: seq<string>, videos: seq<Video>): seq<string>
  {
    MergeFrom(ledger, videos, 0)
  }

  /** What marking promises: only appends, adds every scanned id, adds nothing present or twice. */
  ghost predicate MarksAll(ledger: seq<string>, videos: seq<Video>, j: nat, merged: seq<string>)
    requires j <= |videos|
  {
    && ledger <= merged
    && (forall k :: j <= k < |videos| ==> videos[k].id in merged)
    && (forall x :: x in merged ==> x in ledger || x in Ids(videos[j..]))
    && (forall k :: |ledger| <= k < |merged| ==> merged[k] !in ledger)
    && NoDuplicates(merged[|ledger|..])
  }

  /** The ids of a scan from video j on are video j's id followed by the rest. */
  lemma IdsFrom(videos: seq<Video>, j: nat)
    requires j < |videos|
    ensures Ids(videos[j..]) == [videos[j].id] + Ids(videos[j + 1..])
  {
    assert videos[j..][1..] == videos[j + 1..];
  }

  /** Marking a video whose id is already present changes nothing. */
  lemma MarkPresent(ledger: seq<string>, videos: seq<Video>, j: nat, merged: seq<string>)
    requires j < |videos| && videos[j].id in ledger
    requires MarksAll(ledger, videos, j + 1, merged)
    ensures MarksAll(ledger, videos, j, merged)
  {
    IdsFrom(videos, j);
  }

  /** A new id in front of ids without duplicates keeps them without. */
  lemma PrependFresh(id: string, ids: seq<string>)
    requires NoDuplicates(ids) && id !in ids
    ensures NoDuplicates([id] + ids)
  {
    var all := [id] + ids;
    forall a, b | 0 <= a < b < |all| ensures all[a] != all[b] {
      assert all[b] == ids[b - 1];
      if a > 0 {
        assert all[a] == ids[a - 1];
      }
    }
  }

  /** Marking a video whose id is new appends it, and the rest of the scan leaves it in place. */
  lemma MarkNew(ledger: seq<string>, videos: seq<Video>, j: nat, merged: seq<string>)
    requires j < |videos| && videos[j].id !in ledger
    requires MarksAll(ledger + [videos[j].id], videos, j + 1, merged)
    ensures MarksAll(ledger, videos, j, merged)
  {
    var id := videos[j].id;
    var next := ledger + [id];
    IdsFrom(videos, j);
    assert ledger <= merged by {
      assert next[..|ledger|] == ledger;
    }
    assert merged[|ledger|] == id by {
      assert next[|ledger|] == id;
    }
    var tail := merged[|next|..];
    assert id !in tail by {
      forall k | 0 <= k < |tail| ensures tail[k] != id {
        assert tail[k] == merged[|next| + k];
        assert tail[k] !in next;
      }
    }
    assert merged[|ledger|..] == [id] + tail;
    PrependFresh(id, tail);
    forall k | |ledger| <= k < |merged| ensures merged[k] !in ledger {
      if k > |ledger| {
        assert merged[k] !in next;
      }
    }
  }

  lemma {:induction false} MergeFromMarksAll(ledger: seq<string>, videos: seq<Video>, j: nat)
    requires j <= |videos|
    ensures MarksAll(ledger, videos, j, MergeFrom(ledger, videos, j))
    decreases |videos| - j
  {
    if j < |videos| {
      var v := videos[j];
      if v.id in ledger {
        MergeFromMarksAll(ledger, videos, j + 1);
        MarkPresent(ledger, videos, j, MergeFrom(ledger, videos, j + 1));
      } else {
        MergeFromMarksAll(ledger + [v.id], videos, j + 1);
        MarkNew(ledger, videos, j, MergeFrom(ledger + [v.id], videos, j + 1));
      }
    } else {
      assert ledger[|ledger|..] == [];
    }
  }

  /**
   * Every scanned id ends up in the ledger, the ledger before marking is a
   * prefix of the one after, every added id comes from the scan, none of them
   * was already present and none is added twice; so a ledger without
   * duplicates stays without.
   */
  lemma MergedMarksAll(ledger: seq<string>, videos: seq<Video>)
    ensures var merged := Merged(ledger, videos);
      && ledger <= merged
      && (forall k :: 0 <= k < |videos| ==> videos[k].id in merged)
      && (forall x :: x in merged ==> x in ledger || x in Ids(videos))
      && (forall k :: |ledger| <= k < |merged| ==> merged[k] !in ledger)
      && NoDuplicates(merged[|ledger|..])
      && (NoDuplicates(ledger) ==> NoDuplicates(merged))
  {
    MergeFromMarksAll(ledger, videos, 0);
    assert videos[0..] == videos;
    var merged := Merged(ledger, videos);
    if NoDuplicates(ledger) {
      forall a, b | 0 <= a < b < |merged| ensures merged[a] != merged[b] {
        if b >= |ledger| && a < |ledger| {
          assert merged[a] == ledger[a];
        } else if a >= |ledger| {
          assert merged[a] == merged[|ledger|..][a - |ledger|];
          assert merged[b] == merged[|ledger|..][b - |ledger|];
        }
      }
    }
  }

  /** The id-merge loop (main.go:259-263). */
  method MarkDownloaded(ledger: seq<string>, videos: seq<Video>) returns (merged: seq<string>)
    ensures merged == Merged(ledger, videos)
    ensures ledger <= merged
    ensures forall k :: 0 <= k < |videos| ==> videos[k].id in merged
    ensures forall x :: x in merged ==> x in ledger || x in Ids(videos)
    ensures NoDuplicates(ledger) ==> NoDuplicates(merged)
  {
    merged := ledger;
    var j := 0;
    while j < |videos|
      invariant 0 <= j <= |videos|
      invariant MergeFrom(merged, videos, j) == Merged(ledger, videos)
    {
      if videos[j].id !in merged {
        merged := merged + [videos[j].id];
      }
      j := j + 1;
    }
    MergedMarksAll(ledger, videos);
  }

  // ---------------------------------------------------------------------
  // The whole session

  /** The line the next scanner read returns, None once input has ended. */
  function LineAt(input: seq<string>, pos: nat): Option<string>
  {
    if pos < |input| then Some(input[pos]) else None
  }

  /** The read position after one scanner read (a read at the end consumes nothing). */
  function After(input: seq<string>, pos: nat): nat
  {
    if pos < |input| then pos + 1 else pos
  }

  /**
   * One question whose default is yes (main.go:236-242, 245-251, 298-304): an
   * explicit no, in any case and with surrounding white space, answers no;
   * anything else, or input that has ended, keeps yes.
   *
   * `DefaultYes` is the answer rule on the line read; this method is the read
   * itself, which the prompt loop performs step by step and which also moves
   * the read position, and it is proved to follow that rule.
   */
  method AskDefaultYes(input: seq<string>, pos: nat) returns (yes: bool, next: nat)
    requires pos <= |input|
    ensures yes == DefaultYes(LineAt(input, pos)) && next == After(input, pos)
  {
    yes := true;
    next := pos;
    if next < |input| {
      var answer := input[next];
      next := next + 1;
      if IsNo(answer) {
        yes := false;
      }
    }
  }

  /**
   * The question whose default is no (main.go:273-281): only an explicit yes
   * answers yes. As for `AskDefaultYes`, this is the read that follows the
   * rule `DefaultNo`.
   */
  method AskDefaultNo(input: seq<string>, pos: nat) returns (yes: bool, next: nat)
    requires pos <= |input|
    ensures yes == DefaultNo(LineAt(input, pos)) && next == After(input, pos)
  {
    yes := false;
    next := pos;
    if next < |input| {
      var answer := input[next];
      next := next + 1;
      yes := IsYes(answer);
    }
  }

  /** The configuration collected so far and the position of the next line to read. */
  datatype Draft = Draft(playlists: seq<Playlist>, downloaded: seq<string>, next: nat)

  /**
   * One round of the prompt loop after a non-blank URL line: the playlist it
   * adds, the ledger after marking, the position after its answers, and whether
   * another playlist is wanted.
   */
  datatype Entry = Entry(playlist: Playlist, downloaded: seq<string>, next: nat, another: bool)

  /**
   * The round whose URL is line `pos` (main.go:229-281), for the n-th playlist
   * configured: the scan answer `scan(n)` is used when its existing videos are
   * to be skipped.
   */
  function ReadEntry(input: seq<string>, pos: nat, scan: nat -> Option<seq<Video>>, n: nat, downloaded: seq<string>): (e: Entry)
    requires pos < |input|
    ensures pos < e.next <= |input|
  {
    var translate := DefaultYes(LineAt(input, pos + 1));
    var p2 := After(input, pos + 1);
    var downloadExisting := DefaultYes(LineAt(input, p2));
    var p3 := After(input, p2);
    var marked :=
      if !downloadExisting && scan(n).Some? then Merged(downloaded, scan(n).value)
      else downloaded;
    Entry(Playlist(TrimSpace(input[pos]), translate), marked, After(input, p3), DefaultNo(LineAt(input, p3)))
  }

  /** The prompt loop from line `pos` on (main.go:224-282). */
  function Session(input: seq<string>, pos: nat, scan: nat -> Option<seq<Video>>,
                   playlists: seq<Playlist>, downloaded: seq<string>): Draft
    requires pos <= |input|
    decreases |input| - pos
  {
    if pos == |input| then Draft(playlists, downloaded, pos)
    else if TrimSpace(input[pos]) == "" then Session(input, pos + 1, scan, playlists, downloaded)
    else
      var e := ReadEntry(input, pos, scan, |playlists|, downloaded);
      if e.another then Session(input, e.next, scan, playlists + [e.playlist], e.downloaded)
      else Draft(playlists + [e.playlist], e.downloaded, e.next)
  }

  /**
   * The questions about the n-th playlist, whose URL is line `pos`
   * (main.go:235-271): the playlist to add, the ledger with its existing
   * videos marked when they are to be skipped and its scan succeeds, the next
   * read position, and whether another playlist is wanted.
   */
  method ConfigurePlaylist(input: seq<string>, pos: nat, scan: nat -> Option<seq<Video>>, n: nat, ledger: seq<string>)
    returns (playlist: Playlist, downloaded: seq<string>, next: nat, another: bool)
    requires pos < |input|
    ensures Entry(playlist, downloaded, next, another) == ReadEntry(input, pos, scan, n, ledger)
  {
    var url := TrimSpace(input[pos]);
    next := pos + 1;
    var translate;
    translate, next := AskDefaultYes(input, next);
    var downloadExisting;
    downloadExisting, next := AskDefaultYes(input, next);
    downloaded := ledger;
    if !downloadExisting {
      var scanned := scan(n);
      if scanned.Some? {
        downloaded := MarkDownloaded(downloaded, scanned.value);
      }
    }
    playlist := Playlist(url, translate);
    another, next := AskDefaultNo(input, next);
  }

  /** One round of the session after a non-blank URL line. */
  lemma SessionStep(input: seq<string>, pos: nat, scan: nat -> Option<seq<Video>>,
                    playlists: seq<Playlist>, downloaded: seq<string>)
    requires pos < |input| && TrimSpace(input[pos]) != ""
    ensures var e := ReadEntry(input, pos, scan, |playlists|, downloaded);
      Session(input, pos, scan, playlists, downloaded) ==
        if e.another then Session(input, e.next, scan, playlists + [e.playlist], e.downloaded)
        else Draft(playlists + [e.playlist], e.downloaded, e.next)
  {
  }

  /** Why the setup failed. */
  datatype SetupError = NoPlaylists | SaveConfigFailed | SaveLedgerFailed

  /** The setup's return value: whether to launch the service now, or the error. */
  datatype SetupOutcome = Launch(start: bool) | Failed(error: SetupError)

  /**
   * The setup's result, the playlists and the ledger it collected, and what
   * the source-list file and the ledger file hold afterwards (None: the file
   * does not decode).
   */
  datatype SetupRun = SetupRun(outcome: SetupOutcome, playlists: seq<Playlist>, downloaded: seq<string>,
                               configFile: Option<seq<Playlist>>, ledgerFile: Option<seq<string>>)

  /**
   * What follows the prompt loop (main.go:284-309), given what it collected:
   * the two saves, each ending as `configWrite` and `ledgerWrite` say, and
   * the launch question.
   */
  function Finish(input: seq<string>, d: Draft, configBefore: Option<seq<Playlist>>, loaded: Option<seq<string>>,
                  configWrite: WriteOutcome, ledgerWrite: WriteOutcome): SetupRun
  {
    if d.playlists == [] then SetupRun(Failed(NoPlaylists), d.playlists, d.downloaded, configBefore, loaded)
    else
      var config := FileAfter(configWrite, configBefore, d.playlists);
      if !configWrite.Written? then SetupRun(Failed(SaveConfigFailed), d.playlists, d.downloaded, config, loaded)
      else
        var ledger := FileAfter(ledgerWrite, loaded, d.downloaded);
        if !ledgerWrite.Written? then SetupRun(Failed(SaveLedgerFailed), d.playlists, d.downloaded, config, ledger)
        else SetupRun(Launch(DefaultYes(LineAt(input, d.next))), d.playlists, d.downloaded, config, ledger)
  }

  /**
   * The whole setup. `configBefore` and `loaded` are the two files as they
   * stand at the start (the ledger's load error is ignored, so None starts
   * from the empty ledger); `configWrite` and `ledgerWrite` say how the two
   * saves end.
   */
  function SetupSpec(input: seq<string>, configBefore: Option<seq<Playlist>>, loaded: Option<seq<string>>,
                     scan: nat -> Option<seq<Video>>, configWrite: WriteOutcome, ledgerWrite: WriteOutcome): SetupRun
  {
    var initial := if loaded.Some? then loaded.value else [];
    Finish(input, Session(input, 0, scan, [], initial), configBefore, loaded, configWrite, ledgerWrite)
  }

  /** The saves and the launch question after the prompt loop stopped at line `pos`. */
  method SaveAndAsk(input: seq<string>, playlists: seq<Playlist>, downloaded: seq<string>, pos: nat,
                    configBefore: Option<seq<Playlist>>, loaded: Option<seq<string>>,
                    configWrite: WriteOutcome, ledgerWrite: WriteOutcome) returns (r: SetupRun)
    requires pos <= |input|
    ensures r == Finish(input, Draft(playlists, downloaded, pos), configBefore, loaded, configWrite, ledgerWrite)
  {
    var configFile, ledgerFile := configBefore, loaded;
    if |playlists| == 0 {
      return SetupRun(Failed(NoPlaylists), playlists, downloaded, configFile, ledgerFile);
    }
    configFile := FileAfter(configWrite, configFile, playlists);
    if !configWrite.Written? {
      return SetupRun(Failed(SaveConfigFailed), playlists, downloaded, configFile, ledgerFile);
    }
    ledgerFile := FileAfter(ledgerWrite, ledgerFile, downloaded);
    if !ledgerWrite.Written? {
      return SetupRun(Failed(SaveLedgerFailed), playlists, downloaded, configFile, ledgerFile);
    }
    var shouldStart, _ := AskDefaultYes(input, pos);
    return SetupRun(Launch(shouldStart), playlists, downloaded, configFile, ledgerFile);
  }

  /** setupInteractiveConfig() */
  method SetupInteractiveConfig(input: seq<string>, configBefore: Option<seq<Playlist>>, loaded: Option<seq<string>>,
                                scan: nat -> Option<seq<Video>>, configWrite: WriteOutcome, ledgerWrite: WriteOutcome)
    returns (r: SetupRun)
    ensures r == SetupSpec(input, configBefore, loaded, scan, configWrite, ledgerWrite)
  {
    var playlists: seq<Playlist> := [];
    var downloaded: seq<string> := if loaded.Some? then loaded.value else [];
    ghost var final := Session(input, 0, scan, playlists, downloaded);
    var pos := 0;
    while pos < |input|
      invariant pos <= |input|
      invariant Session(input, pos, scan, playlists, downloaded) == final
      decreases |input| - pos
    {
      var url := TrimSpace(input[pos]);
      if url == "" {
        pos := pos + 1;
        continue;
      }
      SessionStep(input, pos, scan, playlists, downloaded);
      var playlist, another;
      playlist, downloaded, pos, another := ConfigurePlaylist(input, pos, scan, |playlists|, downloaded);
      playlists := playlists + [playlist];
      if !another {
        break;
      }
    }
    assert Draft(playlists, downloaded, pos) == final;
    r := SaveAndAsk(input, playlists, downloaded, pos, configBefore, loaded, configWrite, ledgerWrite);
  }

  // ---------------------------------------------------------------------
  // What the session promises

  /** The ids the scans of the first n configured playlists can return. */
  function ScannedIds(scan: nat -> Option<seq<Video>>, n: nat): seq<string>
  {
    if n == 0 then []
    else ScannedIds(scan, n - 1) + (if scan(n - 1).Some? then Ids(scan(n - 1).value) else [])
  }

  lemma {:induction false} ScannedIdsGrow(scan: nat -> Option<seq<Video>>, m: nat, n: nat)
    requires m <= n
    ensures forall x :: x in ScannedIds(scan, m) ==> x in ScannedIds(scan, n)
    decreases n - m
  {
    if m < n {
      ScannedIdsGrow(scan, m, n - 1);
    }
  }

  /** Every playlist the session adds has a non-empty URL without surrounding white space. */
  ghost predicate ValidLocators(playlists: seq<Playlist>, from: nat)
  {
    forall k :: from <= k < |playlists| ==> playlists[k].url != "" && IsTrimmed(playlists[k].url)
  }

  /** What one session keeps true of the configuration it collects. */
  ghost predicate SessionKeeps(scan: nat -> Option<seq<Video>>, playlists: seq<Playlist>, downloaded: seq<string>, r: Draft)
  {
    && playlists <= r.playlists
    && ValidLocators(r.playlists, |playlists|)
    && downloaded <= r.downloaded
    && (NoDuplicates(downloaded) ==> NoDuplicates(r.downloaded))
    && (forall x :: x in r.downloaded ==> x in downloaded || x in ScannedIds(scan, |r.playlists|))
  }

  /** What one round keeps true: the playlist's URL is valid and the ledger only gains scanned ids. */
  ghost predicate EntryKeeps(scan: nat -> Option<seq<Video>>, n: nat, downloaded: seq<string>, e: Entry)
  {
    && e.playlist.url != "" && IsTrimmed(e.playlist.url)
    && downloaded <= e.downloaded
    && (NoDuplicates(downloaded) ==> NoDuplicates(e.downloaded))
    && (forall x :: x in e.downloaded ==> x in downloaded || x in ScannedIds(scan, n + 1))
  }

  /** A round adds the trimmed URL line with the translate answer after it, and keeps the marking guarantees. */
  lemma EntryFacts(input: seq<string>, pos: nat, scan: nat -> Option<seq<Video>>, n: nat, downloaded: seq<string>)
    requires pos < |input| && TrimSpace(input[pos]) != ""
    ensures var e := ReadEntry(input, pos, scan, n, downloaded);
      && e.playlist == Playlist(TrimSpace(input[pos]), DefaultYes(LineAt(input, pos + 1)))
      && EntryKeeps(scan, n, downloaded, e)
  {
    TrimSpaceIsTrimmed(input[pos]);
    var e := ReadEntry(input, pos, scan, n, downloaded);
    if e.downloaded != downloaded {
      MergedMarksAll(downloaded, scan(n).value);
    }
  }

  /** A round followed by a session that keeps its guarantees keeps them from before the round. */
  lemma KeepsAfterEntry(scan: nat -> Option<seq<Video>>, playlists: seq<Playlist>, downloaded: seq<string>, e: Entry, r: Draft)
    requires EntryKeeps(scan, |playlists|, downloaded, e)
    requires SessionKeeps(scan, playlists + [e.playlist], e.downloaded, r)
    ensures SessionKeeps(scan, playlists, downloaded, r)
  {
    var n := |playlists|;
    var added := playlists + [e.playlist];
    ScannedIdsGrow(scan, n + 1, |r.playlists|);
    assert r.playlists[n] == added[n];
    assert ValidLocators(r.playlists, n) by {
      forall k | n <= k < |r.playlists| ensures r.playlists[k].url != "" && IsTrimmed(r.playlists[k].url) {
        if k == n {
          assert r.playlists[k] == e.playlist;
        }
      }
    }
  }

  /** A last round keeps the guarantees of the session. */
  lemma KeepsLastEntry(scan: nat -> Option<seq<Video>>, playlists: seq<Playlist>, downloaded: seq<string>, e: Entry)
    requires EntryKeeps(scan, |playlists|, downloaded, e)
    ensures SessionKeeps(scan, playlists, downloaded, Draft(playlists + [e.playlist], e.downloaded, e.next))
  {
  }

  lemma {:induction false} SessionKeepsAll(input: seq<string>, pos: nat, scan: nat -> Option<seq<Video>>,
                                           playlists: seq<Playlist>, downloaded: seq<string>)
    requires pos <= |input|
    ensures var r := Session(input, pos, scan, playlists, downloaded);
      SessionKeeps(scan, playlists, downloaded, r) && pos <= r.next <= |input|
    decreases |input| - pos
  {
    if pos < |input| {
      if TrimSpace(input[pos]) == "" {
        SessionKeepsAll(input, pos + 1, scan, playlists, downloaded);
      } else {
        var e := ReadEntry(input, pos, scan, |playlists|, downloaded);
        EntryFacts(input, pos, scan, |playlists|, downloaded);
        SessionStep(input, pos, scan, playlists, downloaded);
        if e.another {
          SessionKeepsAll(input, e.next, scan, playlists + [e.playlist], e.downloaded);
          KeepsAfterEntry(scan, playlists, downloaded, e, Session(input, e.next, scan, playlists + [e.playlist], e.downloaded));
        } else {
          KeepsLastEntry(scan, playlists, downloaded, e);
        }
      }
    }
  }

  /** The session configures no playlist beyond `playlists` exactly when every remaining line is blank. */
  lemma {:induction false} NothingConfiguredIffBlank(input: seq<string>, pos: nat, scan: nat -> Option<seq<Video>>,
                                                     playlists: seq<Playlist>, downloaded: seq<string>)
    requires pos <= |input|
    ensures Session(input, pos, scan, playlists, downloaded).playlists == playlists <==>
      forall k :: pos <= k < |input| ==> TrimSpace(input[k]) == ""
    decreases |input| - pos
  {
    if pos < |input| {
      if TrimSpace(input[pos]) == "" {
        NothingConfiguredIffBlank(input, pos + 1, scan, playlists, downloaded);
      } else {
        var e := ReadEntry(input, pos, scan, |playlists|, downloaded);
        if e.another {
          SessionKeepsAll(input, e.next, scan, playlists + [e.playlist], e.downloaded);
        }
      }
    }
  }

  /**
   * The first non-blank line is the URL of the first playlist added, trimmed,
   * and the line after it (if any) decides its translate flag.
   */
  lemma {:induction false} FirstPlaylistFromFirstLine(input: seq<string>, pos: nat, p: nat, scan: nat -> Option<seq<Video>>,
                                                      playlists: seq<Playlist>, downloaded: seq<string>)
    requires pos <= p < |input| && TrimSpace(input[p]) != ""
    requires forall k :: pos <= k < p ==> TrimSpace(input[k]) == ""
    ensures var r := Session(input, pos, scan, playlists, downloaded);
      |r.playlists| > |playlists| &&
      r.playlists[|playlists|] == Playlist(TrimSpace(input[p]), DefaultYes(LineAt(input, p + 1)))
    decreases p - pos
  {
    if pos < p {
      FirstPlaylistFromFirstLine(input, pos + 1, p, scan, playlists, downloaded);
    } else {
      var e := ReadEntry(input, p, scan, |playlists|, downloaded);
      var added := playlists + [e.playlist];
      EntryFacts(input, p, scan, |playlists|, downloaded);
      SessionStep(input, p, scan, playlists, downloaded);
      if e.another {
        SessionKeepsAll(input, e.next, scan, added, e.downloaded);
        var r := Session(input, e.next, scan, added, e.downloaded);
        assert r.playlists[|playlists|] == r.playlists[..|added|][|playlists|];
      }
    }
  }

  /**
   * What the setup writes and returns: it fails with "no playlists configured"
   * exactly when every input line is blank, and then touches neither file;
   * the playlists it collects have non-empty trimmed URLs; the ledger it
   * collects extends the loaded one, adds only scanned ids and introduces no
   * duplicates; each file ends holding its old contents, the collected ones,
   * or (after a save that emptied it and failed) nothing that decodes; the
   * ledger is not written once the source-list save failed; and it reports
   * launch exactly when both saves succeeded, both files then holding what
   * was collected.
   */
  lemma SetupGuarantees(input: seq<string>, configBefore: Option<seq<Playlist>>, loaded: Option<seq<string>>,
                        scan: nat -> Option<seq<Video>>, configWrite: WriteOutcome, ledgerWrite: WriteOutcome)
    ensures var r := SetupSpec(input, configBefore, loaded, scan, configWrite, ledgerWrite);
      var initial := if loaded.Some? then loaded.value else [];
      && (r.outcome == Failed(NoPlaylists) <==> forall k :: 0 <= k < |input| ==> TrimSpace(input[k]) == "")
      && (r.outcome == Failed(NoPlaylists) ==> r.configFile == configBefore && r.ledgerFile == loaded)
      && ValidLocators(r.playlists, 0)
      && initial <= r.downloaded
      && (NoDuplicates(initial) ==> NoDuplicates(r.downloaded))
      && (forall x :: x in r.downloaded ==> x in initial || x in ScannedIds(scan, |r.playlists|))
      && (r.configFile == configBefore || r.configFile == Some(r.playlists) || (r.configFile.None? && configWrite.Truncated?))
      && (r.ledgerFile == loaded || r.ledgerFile == Some(r.downloaded) || (r.ledgerFile.None? && ledgerWrite.Truncated?))
      && (!configWrite.Written? ==> r.ledgerFile == loaded)
      && (r.outcome.Launch? <==> r.playlists != [] && configWrite.Written? && ledgerWrite.Written?)
      && (r.outcome.Launch? ==> r.configFile == Some(r.playlists) && r.ledgerFile == Some(r.downloaded))
      && (r.playlists != [] && !configWrite.Written? ==> r.outcome == Failed(SaveConfigFailed))
      && (r.playlists != [] && configWrite.Written? && !ledgerWrite.Written? ==> r.outcome == Failed(SaveLedgerFailed))
  {
    var initial := if loaded.Some? then loaded.value else [];
    SessionKeepsAll(input, 0, scan, [], initial);
    NothingConfiguredIffBlank(input, 0, scan, [], initial);
  }
}
