/**
 The media-fetch engine (youtube_dl) as seen from the GUI: it is a foreign
 library, so everything it produces is an input of the model. A playlist link
 is enumerated into a list of entries, some of which may be missing; a
 download delivers progress events to the hook and then either returns or
 raises.
 */
module Engine {

  datatype Option<+T> = None | Some(value: T)

  /** One playlist entry as reported by a flat (non-downloading) extraction. */
  datatype Entry = Entry(id: string)

  /** What `extract_info(link, download=False)["entries"]` gives for one link:
      the entry list, in which `None` marks an unavailable entry, or an
      exception (extraction failure, or no "entries" key). */
  datatype Enumeration = Entries(entries: seq<Option<Entry>>) | Failed

  /** The progress dictionary the engine passes to a progress hook. The
      "status" key is always present; "total_bytes" and "downloaded_bytes"
      may be absent, which is what `None` stands for. */
  datatype Event = Event(status: string, totalBytes: Option<int>, downloadedBytes: Option<int>)

  /** How `ydl.download(links)` ends when no progress hook raised. */
  datatype Outcome = Returned | DownloadError | OtherError

  /** One abstract engine run: the progress events it delivers, in order,
      and how the call ends. */
  datatype EngineRun = EngineRun(events: seq<Event>, outcome: Outcome)
}
