/** The YouTube side of vod-copy: video metadata, playlist contents and the downloaded file's name.
    The YouTube Data API is replaced by a value that says what each list request returns. */
module Youtube {
  import opened Wrappers
  import opened Errors

  /** The `maxResults` that the playlist request asks for: one page of the playlist. */
  const MAX_RESULTS: nat := 50

  /** The `snippet` of a `videos().list` item; "tags" is absent for a video without tags. */
  datatype VideoSnippet = VideoSnippet(title: string, description: string, tags: Option<seq<string>>)

  /** A `playlistItems().list` item, reduced to its `snippet.resourceId.videoId`. */
  datatype PlaylistItem = PlaylistItem(videoId: string)

  /** What `get_youtube_video_info` returns. */
  datatype VideoInfo = VideoInfo(title: string, description: string, tags: seq<string>)

  /** Stand-in for the remote API: the items each video and playlist request would return. */
  datatype Service = Service(videos: map<string, seq<VideoSnippet>>, playlists: map<string, seq<PlaylistItem>>)

  /** `videos().list(id=videoId, part='snippet')["items"]`, snippets only; empty for an unknown id. */
  function ListVideos(youtube: Service, videoId: string): (items: seq<VideoSnippet>)
    ensures videoId !in youtube.videos ==> items == []
    ensures videoId in youtube.videos ==> items == youtube.videos[videoId]
  {
    if videoId in youtube.videos then youtube.videos[videoId] else []
  }

  /** `playlistItems().list(playlistId=playlistId, maxResults=maxResults)["items"]`: the first page. */
  function ListPlaylistItems(youtube: Service, playlistId: string, maxResults: nat): (items: seq<PlaylistItem>)
    ensures |items| <= maxResults
    ensures playlistId in youtube.playlists ==> items <= youtube.playlists[playlistId]
    ensures playlistId in youtube.playlists ==>
      |items| == (if |youtube.playlists[playlistId]| <= maxResults then |youtube.playlists[playlistId]| else maxResults)
    ensures playlistId in youtube.playlists && |youtube.playlists[playlistId]| <= maxResults
            ==> items == youtube.playlists[playlistId]
    ensures playlistId !in youtube.playlists ==> items == []
  {
    if playlistId !in youtube.playlists then []
    else
      var all := youtube.playlists[playlistId];
      if |all| <= maxResults then all else all[..maxResults]
  }

  /** `get_youtube_video_info`: the title, description and tags of the first item, or the
      error that ends the run when there is no item or the item has no tags. */
  function GetVideoInfo(youtube: Service, videoId: string): (r: Result<VideoInfo, Error>)
    ensures ListVideos(youtube, videoId) == [] ==> r == Failure(VideoNotFound(videoId))
    ensures ListVideos(youtube, videoId) != [] && ListVideos(youtube, videoId)[0].tags.None?
            ==> r == Failure(MissingTags(videoId))
    ensures ListVideos(youtube, videoId) != [] && ListVideos(youtube, videoId)[0].tags.Some? ==> r.Success?
    ensures r.Success? ==>
      var first := ListVideos(youtube, videoId)[0];
      first.tags.Some? && r.value == VideoInfo(first.title, first.description, first.tags.value)
  {
    var items := ListVideos(youtube, videoId);
    if items == [] then Failure(VideoNotFound(videoId))
    else
      var snippet := items[0];
      match snippet.tags
      case None => Failure(MissingTags(videoId))
      case Some(tags) => Success(VideoInfo(snippet.title, snippet.description, tags))
  }

  /** `get_youtube_video_ids`: the video ids of the playlist's first page, in playlist order,
      or PlaylistNotFound when that page is empty. */
  method GetYoutubeVideoIds(youtube: Service, playlistId: string) returns (r: Result<seq<string>, Error>)
    ensures ListPlaylistItems(youtube, playlistId, MAX_RESULTS) == [] <==> r.Failure?
    ensures r.Failure? ==> r.error == PlaylistNotFound(playlistId)
    ensures r.Success? ==>
      var items := ListPlaylistItems(youtube, playlistId, MAX_RESULTS);
      && |r.value| == |items|
      && forall i :: 0 <= i < |r.value| ==> r.value[i] == items[i].videoId
  {
    var items := ListPlaylistItems(youtube, playlistId, MAX_RESULTS);
    if items == [] {
      return Failure(PlaylistNotFound(playlistId));
    }
    var videoIds: seq<string> := [];
    for i := 0 to |items|
      invariant |videoIds| == i
      invariant forall k :: 0 <= k < i ==> videoIds[k] == items[k].videoId
    {
      videoIds := videoIds + [items[i].videoId];
    }
    return Success(videoIds);
  }

  /** The file name `download_from_youtube` returns for a video: the id followed by ".mp4". */
  function DownloadedFileName(videoId: string): (filename: string)
    ensures |filename| == |videoId| + 4
    ensures filename[..|videoId|] == videoId && filename[|videoId|..] == ".mp4"
  {
    videoId + ".mp4"
  }

  /** Taking ".mp4" off the end of a downloaded file's name gives back the video id,
      so distinct videos get distinct file names. */
  lemma DownloadedFileNameInverse(videoId: string, other: string)
    ensures DownloadedFileName(other) == DownloadedFileName(videoId) ==> other == videoId
  {
  }

  /** `download_from_youtube`: runs `youtube-dl --quiet --id videoId` and names the result;
      `downloadable` says for which ids the subprocess exits with status 0. */
  function DownloadFromYoutube(downloadable: set<string>, videoId: string): (r: Result<string, Error>)
    ensures r.Success? <==> videoId in downloadable
    ensures r.Success? ==> r.value == DownloadedFileName(videoId)
    ensures r.Failure? ==> r.error == DownloadFailed(videoId)
  {
    if videoId in downloadable then Success(DownloadedFileName(videoId)) else Failure(DownloadFailed(videoId))
  }
}
