// The start-up check for the external programs the service runs
// (main.go:200-209).

module Dependencies {
  import opened Wrappers

  /** The programs looked up on the search path, in the order they are checked. */
  const Required: seq<string> := ["yt-dlp", "ffmpeg", "vot-cli-live"]

  /**
   * The first required program, from position j on, that is not on the
   * search path; `onPath` stands for the path lookup.
   */
  function FirstMissingFrom(onPath: string -> bool, j: nat): (r: Option<nat>)
    requires j <= |Required|
    ensures r.None? <==> forall k :: j <= k < |Required| ==> onPath(Required[k])
    ensures r.Some? ==>
      && j <= r.value < |Required|
      && !onPath(Required[r.value])
      && forall k :: j <= k < r.value ==> onPath(Required[k])
    decreases |Required| - j
  {
    if j == |Required| then None
    else if !onPath(Required[j]) then Some(j)
    else FirstMissingFrom(onPath, j + 1)
  }

  /**
   * checkDependencies(): None when every required program is found, otherwise
   * the name of the first one missing, after which nothing further is looked up.
   */
  method CheckDependencies(onPath: string -> bool) returns (missing: Option<string>)
    ensures missing.None? <==> FirstMissingFrom(onPath, 0).None?
    ensures missing.Some? ==> missing.value == Required[FirstMissingFrom(onPath, 0).value]
  {
    var i := 0;
    while i < |Required|
      invariant i <= |Required|
      invariant FirstMissingFrom(onPath, i) == FirstMissingFrom(onPath, 0)
    {
      if !onPath(Required[i]) {
        return Some(Required[i]);
      }
      i := i + 1;
    }
    return None;
  }
}
