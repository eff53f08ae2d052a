/**
  `get_latest_video_url`: from the replies of the YouTube Data API (the
  channel lookup and the uploads-playlist listing) to the list of the
  channel's latest videos, or an error result.
*/
module Resolver {
  import opened Wrappers

  const WatchPrefix: string := "https://www.youtube.com/watch?v="

  /** What Python reports when the playlist holds fewer items than were asked for. */
  const IndexOutOfRange: string := "list index out of range"

  /** A video as the resolver returns it: its watch URL and its title. */
  datatype Video = Video(url: string, title: string)

  /** An item of the channel lookup: the id of the channel's uploads playlist. */
  datatype ChannelItem = ChannelItem(uploadsPlaylist: string)

  /** An item of the uploads playlist, in the order the API returns them. */
  datatype PlaylistItem = PlaylistItem(videoId: string, title: string)

  /**
    An API reply: its `items` (absent items read as none), an HTTP error, or
    any other failure of the request (a timeout, a broken connection).
  */
  datatype Reply<T> = Ok(items: seq<T>) | HttpError(reason: string) | TransportError(reason: string)

  /** The error results, each the second half of a `(None, message)` tuple. */
  datatype Problem =
    | NoChannelId                // "Could not extract channel identifier"
    | NoChannel(channelId: string) // "No channel found with ID"
    | NoVideos                   // "Channel has no videos"
    | ApiError(reason: string)   // "API Error"
    | Unexpected(reason: string) // "An unexpected error occurred"

  /** A list of `(url, title)` pairs, or the error tuple `(None, message)`. */
  datatype Latest = Videos(videos: seq<Video>) | Failed(problem: Problem)

  function WatchUrl(videoId: string): string
  {
    WatchPrefix + videoId
  }

  /** The video id a watch URL names, if it is one. */
  function VideoIdOf(url: string): Option<string>
  {
    if |WatchPrefix| <= |url| && url[..|WatchPrefix|] == WatchPrefix then Some(url[|WatchPrefix|..]) else None
  }

  lemma WatchUrlRoundTrip(videoId: string)
    ensures VideoIdOf(WatchUrl(videoId)) == Some(videoId)
  {
    assert WatchUrl(videoId)[..|WatchPrefix|] == WatchPrefix;
    assert WatchUrl(videoId)[|WatchPrefix|..] == videoId;
  }

  /** Distinct video ids give distinct URLs, so the URL is as good a key as the id. */
  lemma WatchUrlInjective(a: string, b: string)
    ensures WatchUrl(a) == WatchUrl(b) <==> a == b
  {
    WatchUrlRoundTrip(a);
    WatchUrlRoundTrip(b);
  }

  /** The first `n` playlist items as videos, in playlist order. */
  function Extracted(items: seq<PlaylistItem>, n: nat): (vs: seq<Video>)
    requires n <= |items|
  {
    seq(n, i requires 0 <= i < n => Video(WatchUrl(items[i].videoId), items[i].title))
  }

  /** The playlist reply that `get_latest_video_url` reads, when it gets that far. */
  function UploadsReply(channels: Reply<ChannelItem>, lastN: nat,
                        playlist: (string, nat) -> Reply<PlaylistItem>): Option<Reply<PlaylistItem>>
  {
    if channels.Ok? && channels.items != [] then Some(playlist(channels.items[0].uploadsPlaylist, lastN)) else None
  }

  /**
    The result of `get_latest_video_url(channelId, lastN)` given the reply to
    the channel lookup for `channelId` and the replies of the playlist listing
    (by playlist id and `maxResults`). HTTP errors are reported as API errors;
    any other exception, the index error included, as an unexpected error.
  */
  function LatestVideos(channelId: string, lastN: nat, channels: Reply<ChannelItem>,
                        playlist: (string, nat) -> Reply<PlaylistItem>): (r: Latest)
    ensures channelId == "" ==> r == Failed(NoChannelId)
    ensures channelId != "" && channels.Ok? && channels.items == [] ==> r == Failed(NoChannel(channelId))
    ensures channelId != "" && channels.TransportError? ==> r == Failed(Unexpected(channels.reason))
    ensures channelId != "" && channels.HttpError? ==> r == Failed(ApiError(channels.reason))
    ensures channelId != "" && UploadsReply(channels, lastN, playlist).Some? ==>
              var reply := UploadsReply(channels, lastN, playlist).value;
              (reply.HttpError? ==> r == Failed(ApiError(reply.reason)))
              && (reply.TransportError? ==> r == Failed(Unexpected(reply.reason)))
              && (reply.Ok? && reply.items == [] ==> r == Failed(NoVideos))
              && (reply.Ok? && reply.items != [] && |reply.items| < lastN ==> r == Failed(Unexpected(IndexOutOfRange)))
    ensures r.Videos? <==>
              channelId != "" && UploadsReply(channels, lastN, playlist).Some?
              && var reply := UploadsReply(channels, lastN, playlist).value;
                 reply.Ok? && reply.items != [] && lastN <= |reply.items|
    ensures r.Videos? ==>
              var items := UploadsReply(channels, lastN, playlist).value.items;
              |r.videos| == lastN
              && forall i :: 0 <= i < lastN ==>
                   r.videos[i].url == WatchUrl(items[i].videoId) && r.videos[i].title == items[i].title
  {
    if channelId == "" then Failed(NoChannelId)
    else match channels
      case HttpError(e) => Failed(ApiError(e))
      case TransportError(e) => Failed(Unexpected(e))
      case Ok(found) =>
        if found == [] then Failed(NoChannel(channelId))
        else match playlist(found[0].uploadsPlaylist, lastN)
          case HttpError(e) => Failed(ApiError(e))
          case TransportError(e) => Failed(Unexpected(e))
          case Ok(items) =>
            if items == [] then Failed(NoVideos)
            else if |items| < lastN then Failed(Unexpected(IndexOutOfRange))
            else Videos(Extracted(items, lastN))
  }

  /**
    `get_latest_video_url`: the index loop that collects exactly `lastN`
    pairs, raising (and so reporting an unexpected error) when the playlist
    runs out first.
  */
  method GetLatestVideoUrl(channelId: string, lastN: nat, channels: Reply<ChannelItem>,
                           playlist: (string, nat) -> Reply<PlaylistItem>) returns (r: Latest)
    ensures r == LatestVideos(channelId, lastN, channels, playlist)
  {
    if channelId == "" {
      return Failed(NoChannelId);
    }
    if channels.HttpError? {
      return Failed(ApiError(channels.reason));
    }
    if channels.TransportError? {
      return Failed(Unexpected(channels.reason));
    }
    if channels.items == [] {
      return Failed(NoChannel(channelId));
    }
    var response := playlist(channels.items[0].uploadsPlaylist, lastN);
    if response.HttpError? {
      return Failed(ApiError(response.reason));
    }
    if response.TransportError? {
      return Failed(Unexpected(response.reason));
    }
    if response.items == [] {
      return Failed(NoVideos);
    }
    var items := response.items;
    var videos: seq<Video> := [];
    for i := 0 to lastN
      invariant i <= |items|
      invariant |videos| == i
      invariant forall k :: 0 <= k < i ==> videos[k] == Video(WatchUrl(items[k].videoId), items[k].title)
    {
      if i == |items| {
        return Failed(Unexpected(IndexOutOfRange));
      }
      videos := videos + [Video(WatchUrl(items[i].videoId), items[i].title)];
    }
    assert videos == Extracted(items, lastN);
    return Videos(videos);
  }

  /** Every URL the resolver returns names the video id of its playlist item. */
  lemma {:induction false} LatestVideosNameTheirIds(channelId: string, lastN: nat, channels: Reply<ChannelItem>,
                                  playlist: (string, nat) -> Reply<PlaylistItem>, i: nat)
    requires LatestVideos(channelId, lastN, channels, playlist).Videos?
    requires i < lastN
    ensures var items := UploadsReply(channels, lastN, playlist).value.items;
            VideoIdOf(LatestVideos(channelId, lastN, channels, playlist).videos[i].url) == Some(items[i].videoId)
  {
    var items := UploadsReply(channels, lastN, playlist).value.items;
    WatchUrlRoundTrip(items[i].videoId);
  }

  /**
    Distinct video ids among the first `lastN` playlist items give distinct
    URLs in the result, so the URL keys of the history tell those videos apart.
  */
  lemma LatestVideosDistinct(channelId: string, lastN: nat, channels: Reply<ChannelItem>,
                             playlist: (string, nat) -> Reply<PlaylistItem>, i: nat, j: nat)
    requires LatestVideos(channelId, lastN, channels, playlist).Videos?
    requires i < lastN && j < lastN
    requires var items := UploadsReply(channels, lastN, playlist).value.items;
             items[i].videoId != items[j].videoId
    ensures var vs := LatestVideos(channelId, lastN, channels, playlist).videos;
            vs[i].url != vs[j].url
  {
    var items := UploadsReply(channels, lastN, playlist).value.items;
    WatchUrlInjective(items[i].videoId, items[j].videoId);
  }
}
