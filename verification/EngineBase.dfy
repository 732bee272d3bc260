/** What every engine is asked for and yields. */
module EngineBase {
  datatype Option<+T> = None | Some(value: T)

  datatype FinishReason = Stop | Length

  /** One element of a streamed response; a text chunk leaves the last four fields at their defaults. */
  datatype StreamChunk = StreamChunk(
    text: string,
    done: bool,
    promptTokens: nat,
    generatedTokens: nat,
    finishReason: Option<FinishReason>)

  datatype GenerationResult = GenerationResult(
    text: string,
    promptTokens: nat,
    completionTokens: nat,
    finishReason: FinishReason)

  function Concatenated(chunks: seq<StreamChunk>): string {
    if chunks == [] then "" else Concatenated(chunks[..|chunks| - 1]) + chunks[|chunks| - 1].text
  }

  lemma ConcatenatedSnoc(chunks: seq<StreamChunk>, c: StreamChunk)
    ensures Concatenated(chunks + [c]) == Concatenated(chunks) + c.text
  {
    assert (chunks + [c])[..|chunks|] == chunks;
  }
}
