/** The chunk writer, seen only through the calls the packager makes on it. */
module Writer {
  import opened Common

  /** One `write(label_idx, video_id, img)` call. */
  datatype WriteRecord = WriteRecord(labelIdx: int, videoId: string, img: Image)

  /** A writer bound to one data file and one meta file, opened in 'wb' mode. Its state is whether it is
      open and the log of the writes made since it was opened, oldest first. */
  class GulpVideoIO {
    const binPath: string
    const metaPath: string
    var isOpen: bool
    var log: seq<WriteRecord>

    constructor (binPath: string, metaPath: string)
      ensures this.binPath == binPath && this.metaPath == metaPath
      ensures !isOpen && log == []
    {
      this.binPath := binPath;
      this.metaPath := metaPath;
      isOpen := false;
      log := [];
    }

    /** Opening in 'wb' mode starts both files empty. */
    method Open()
      modifies this
      ensures isOpen && log == []
    {
      isOpen := true;
      log := [];
    }

    /** Appends one record; earlier records are kept as they were. */
    method Write(labelIdx: int, videoId: string, img: Image)
      requires isOpen
      modifies this
      ensures isOpen
      ensures log == old(log) + [WriteRecord(labelIdx, videoId, img)]
    {
      log := log + [WriteRecord(labelIdx, videoId, img)];
    }

    method Close()
      modifies this
      ensures !isOpen && log == old(log)
    {
      isOpen := false;
    }
  }
}
