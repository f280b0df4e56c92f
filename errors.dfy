/**
 * The exceptions a completion can raise on its way from raw text to facts:
 * the two typed errors of the data-exception module, the JSON library's
 * decode error, and the TypeError that the adapter's bare `raise` produces.
 */
module Errors {

  datatype Error =
    | JsonNotFound(response: string)      // no `{...}` span in the completion
    | JsonDecode(candidate: string)       // the span is not valid JSON
    | WrongJsonStructure                  // the payload does not have the expected shape
    | TypeErrorRaised                     // `raise WrongJsonStructureError` without its argument
}
