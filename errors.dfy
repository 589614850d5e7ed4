/** The ways vod-copy stops early that this model covers. Each of them ends the
    Python process with exit status 1: the explicit `sys.exit(1)` calls, and the
    uncaught exceptions (which the interpreter also reports with status 1).
    Failures of the Twitch requests are not among them. */
module Errors {

  datatype Error =
    /** Neither `--video-id` nor `--playlist-id` was given. */
    | MissingArgument
    /** `videos().list` returned no items for this id. */
    | VideoNotFound(videoId: string)
    /** The video's snippet has no "tags" entry, so `video_info["tags"]` raises KeyError. */
    | MissingTags(videoId: string)
    /** `playlistItems().list` returned no items for this id. */
    | PlaylistNotFound(playlistId: string)
    /** The `youtube-dl` subprocess exited non-zero (`check_call` raises). */
    | DownloadFailed(videoId: string)
    /** `open(filename, 'rb')` found no such file. */
    | FileNotFound(filename: string)

  /** The exit status of a run that stopped with any `Error`. */
  const FAILURE_STATUS: int := 1
}
