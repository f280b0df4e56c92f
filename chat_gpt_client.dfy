/**
 * The arithmetic `ChatGptClient` does before any request: how many tokens
 * a chunk of text may use, and the user message that carries the chunk.
 */
module ChatGptClient {
  import opened Chunker

  /** Tokens the fixed part of each request takes besides the two messages. */
  const Overhead := 5

  /**
   * `available_token_count`: the model's limit less the tokens of the
   * prompt instruction, of the system message and of the overhead.
   */
  function AvailableTokenCount(modelLimit: int, instruction: string, systemMessage: string, count: string -> nat): (r: int)
    ensures r <= modelLimit - Overhead
    ensures forall text :: count(text) <= r <==> count(instruction) + count(systemMessage) + count(text) + Overhead <= modelLimit
  {
    modelLimit - count(instruction) - count(systemMessage) - Overhead
  }

  /** The user message of a request: the instruction, a newline, then the text. */
  function FullPrompt(instruction: string, text: string): (r: string)
    ensures |r| == |instruction| + 1 + |text|
    ensures r[..|instruction|] == instruction && r[|instruction|] == '\n' && r[|instruction| + 1..] == text
  {
    instruction + "\n" + text
  }

  /** The chunk is recovered from the message: two messages with one instruction differ iff their chunks do. */
  lemma FullPromptDeterminesText(instruction: string, text1: string, text2: string)
    ensures FullPrompt(instruction, text1) == FullPrompt(instruction, text2) <==> text1 == text2
  {
    if FullPrompt(instruction, text1) == FullPrompt(instruction, text2) {
      assert text1 == FullPrompt(instruction, text1)[|instruction| + 1..];
    }
  }

  /**
   * A text whose request (instruction, system message, text and overhead)
   * fits the model's limit is sent whole, as the one chunk; one that does
   * not fit and holds no separator yields no chunk at all.
   */
  lemma FittingTextIsOneChunk(seps: seq<string>, text: string, modelLimit: int, instruction: string,
                              systemMessage: string, overlap: int, count: string -> nat)
    requires NonEmptySeparators(seps)
    ensures var limit := AvailableTokenCount(modelLimit, instruction, systemMessage, count);
            count(instruction) + count(systemMessage) + count(text) + Overhead <= modelLimit ==>
              Chunks(seps, text, limit, overlap, count) == [text]
    ensures var limit := AvailableTokenCount(modelLimit, instruction, systemMessage, count);
            count(instruction) + count(systemMessage) + count(text) + Overhead > modelLimit && SeparatorFree(seps, text) ==>
              Chunks(seps, text, limit, overlap, count) == []
  {
    var limit := AvailableTokenCount(modelLimit, instruction, systemMessage, count);
    if count(instruction) + count(systemMessage) + count(text) + Overhead > modelLimit && SeparatorFree(seps, text) {
      NoSeparatorNoChunks(seps, text, limit, overlap, count);
    }
  }
}
