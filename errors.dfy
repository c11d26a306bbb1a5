/** The exceptions the pipeline raises, as values. */
module Errors {

  /** The step whose `except` clause re-raised an error, with the step's own
      message prefix ("Failed to initialize LLMASP", "Failed to create
      queries", ...). */
  datatype Stage = Initializing | CreatingQueries | ConvertingToAsp | ConvertingToNatural

  datatype Failure =
    | ConfigError(cause: Cause)       // ConfigError, a subclass of LLMASPError
    | LlmaspError(cause: Cause)       // LLMASPError
    | TransportError                  // raised by the language-model client
    | GroundingError                  // raised by the solver for a program it cannot ground
    | KeyError(key: string)           // a missing dictionary key
    | IndexError                      // indexing an empty list
    | ValueError                      // unpacking `zip()` of nothing
    | UnboundLocalError(name: string) // reading a variable no loop iteration assigned

  datatype Cause =
    | MissingConfigKeys(keys: set<string>)
    | MissingBehaviorSection(section: string)
    | MissingBehaviorFields(section: string, fields: set<string>)
    | CannotLoad(file: string)
    | PropertyNotFound(key: string)
    | MalformedProperty               // an empty mapping met before the one looked for
    | Wrapped(stage: Stage, inner: Failure)

  /** `isinstance(e, LLMASPError)`. */
  predicate IsLlmaspError(f: Failure) {
    f.ConfigError? || f.LlmaspError?
  }

  /** `raise LLMASPError(f"...: {e}")` inside an `except Exception as e`. */
  function Wrap(stage: Stage, inner: Failure): (f: Failure)
    ensures IsLlmaspError(f) && !f.ConfigError?
  {
    LlmaspError(Wrapped(stage, inner))
  }
}
