/**
  The stream choice of `download_video`. The progressive mp4 streams arrive
  already ordered by ascending resolution; only their resolution labels matter.
*/
module Streams {
  import opened Wrappers

  /** The resolution the downloader looks for first. */
  const PreferredResolution: string := "480p"

  /** The position of the first `x` in `s`, or `None` when `x` does not occur. */
  function FirstIndexOf(s: seq<string>, x: string): (r: Option<nat>)
    ensures r.None? <==> x !in s
    ensures r.Some? ==> r.value < |s| && s[r.value] == x && forall k :: 0 <= k < r.value ==> s[k] != x
  {
    if s == [] then None
    else if s[0] == x then Some(0)
    else match FirstIndexOf(s[1..], x)
      case None => None
      case Some(k) => Some(k + 1)
  }

  /**
    The chosen stream: the first labelled 480p if there is one, otherwise the
    first (lowest-resolution) one; none at all when the list is empty.
  */
  function ChooseStream(ordered: seq<string>): (r: Option<nat>)
    ensures r.None? <==> ordered == []
    ensures r.Some? ==> r.value < |ordered|
    ensures PreferredResolution in ordered ==>
              r.Some? && ordered[r.value] == PreferredResolution
              && forall k :: 0 <= k < r.value ==> ordered[k] != PreferredResolution
    ensures PreferredResolution !in ordered && ordered != [] ==> r == Some(0)
  {
    match FirstIndexOf(ordered, PreferredResolution)
    case Some(k) => Some(k)
    case None => if ordered == [] then None else Some(0)
  }

  /** With 360p, 480p and 720p on offer, 480p is chosen; without 480p, the lowest. */
  lemma ChooseStreamExamples()
    ensures ChooseStream(["360p", "480p", "720p"]) == Some(1)
    ensures ChooseStream(["360p", "720p"]) == Some(0)
    ensures ChooseStream([]) == None
  {
    assert "480p" in ["360p", "480p", "720p"];
    assert "480p" !in ["360p", "720p"];
  }
}
