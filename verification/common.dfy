/** Values shared by every component of the chunk builder. */
module Common {

  /** The outcome of a step that may raise: a value, or the exception it raised. */
  datatype Result<+T, +E> = Ok(value: T) | Err(error: E)

  /** The Python exceptions the modelled code can raise. */
  datatype PyError =
    | KeyError(key: string)   // labels2idx[label] on a label the dictionary lacks
    | IndexError              // indexing an empty candidate list
    | ZeroDivisionError       // len(data) // vid_per_chunk with vid_per_chunk == 0

  /** An encoded image, as the resize primitive returns it. */
  type Image = seq<bv8>

  /** One manifest entry: a video id, its class label and the start/end markers of the clip. */
  datatype Entry = Entry(id: string, labelName: string, startTime: nat, endTime: nat)

  /** One packaging task, `[df_sub, output_folder, chunk_id, img_size]` in the source. */
  datatype Task = Task(entries: seq<Entry>, outputFolder: string, chunkNo: nat, imgSize: nat)
}
