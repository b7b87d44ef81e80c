/** What reaches a stream assembler, and what it can answer. */
module StreamMessages {
  import opened Json

  /** The data of an event: the literal `[DONE]`, text that is no JSON object, or a JSON object. */
  datatype Body = Done | Unreadable | Object(fields: Fields)

  datatype Message = Message(name: string, body: Body)

  datatype Fault =
    | StreamFailed | ProviderError | InvalidDone | DataAfterTerminal
    | MalformedJson | Refusal | ToolCall | MalformedIdentity | IdentityMismatch | MalformedUsage
    | DataAfterFinish | UnsupportedChoices | MalformedDelta | UnsupportedContent
    | UnsupportedReasoning | UnsupportedFinish | MalformedEvent | IncompleteResponse
    | UnsupportedOutput | MalformedResponse | MissingOutputText | DeltaMismatch
    | MissingMessageStart | DuplicateMessageStart | MalformedMessage | MalformedBlock
    | UnclosedBlock | InvalidTerminal | TruncatedStream

  /** `Refused`: a protocol error that latches; `Raised`: a Python TypeError, which changes nothing. */
  datatype Reply<+S, +A> =
    | Continue(state: S)
    | Complete(state: S, answer: A)
    | Refused(fault: Fault)
    | Raised

  /** A check that changes nothing. */
  datatype Verdict = Fine | Bad(fault: Fault) | Error
}
