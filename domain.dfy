/**
 * The entities the service passes around: a configured playlist (main.go's
 * `Playlist` record) and a scanned video (the downloader library's `Video`).
 * Identifiers, titles and locators are plain strings.
 */
module Domain {

  /** One entry of the source list: a playlist locator and whether its videos get a translated track. */
  datatype Playlist = Playlist(url: string, translate: bool)

  /** One item of a playlist scan: its stable identifier, its title and the URL used to download it. */
  datatype Video = Video(id: string, title: string, url: string)

  /** The identifiers of a list of scanned videos, in scan order. */
  function Ids(videos: seq<Video>): (ids: seq<string>)
    ensures |ids| == |videos|
    ensures forall k :: 0 <= k < |videos| ==> ids[k] == videos[k].id
  {
    if videos == [] then [] else [videos[0].id] + Ids(videos[1..])
  }

  /** No identifier occurs twice in a ledger. */
  ghost predicate NoDuplicates(ids: seq<string>)
  {
    forall a, b :: 0 <= a < b < |ids| ==> ids[a] != ids[b]
  }

  /** Appending an id that is not yet present keeps a ledger free of duplicates. */
  lemma AppendFresh(ids: seq<string>, id: string)
    requires NoDuplicates(ids) && id !in ids
    ensures NoDuplicates(ids + [id])
  {
  }
}
