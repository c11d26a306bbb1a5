/** The two external services, as oracles that record what they were asked.
    `LLMHandler.call` and `Solver.solve` are not part of this model: each
    answer is whatever the oracle's function gives for the calls made so far
    and the current request, with `None` for a raised exception. */
module Oracles {
  import opened Wrappers
  import opened Strings
  import opened Errors

  datatype Role = System | User | Assistant

  /** `__prompt(role, content)`: `{"role": role, "content": content}`. */
  datatype Message = Message(role: Role, content: string)

  /** The messages of one chat-completion request, in order. */
  type Query = seq<Message>

  /** Token usage reported with a completion. */
  datatype Usage = Usage(promptTokens: nat, completionTokens: nat)

  datatype Completion = Completion(text: Plain, meta: Usage)

  /** One `llm.call(messages, max_tokens=...)`. */
  datatype Request = Request(messages: Query, maxTokens: Option<nat>)

  /** The requests made by the end of an operation that calls the model, and
      what it returned or raised. */
  datatype Exchange<+T> = Exchange(log: seq<Request>, outcome: Result<T, Failure>)

  class Llm {
    /** The service: its answer to a request, given the requests before it;
        `None` when the client raises (an unreachable server, retries used up). */
    const reply: (seq<Request>, Request) -> Option<Completion>
    /** The requests made so far, in order. */
    var log: seq<Request>

    constructor (reply: (seq<Request>, Request) -> Option<Completion>)
      ensures this.reply == reply && log == []
    {
      this.reply := reply;
      log := [];
    }

    method Call(messages: Query, maxTokens: Option<nat>) returns (r: Option<Completion>)
      modifies this
      ensures log == old(log) + [Request(messages, maxTokens)]
      ensures r == reply(old(log), Request(messages, maxTokens))
    {
      r := reply(log, Request(messages, maxTokens));
      log := log + [Request(messages, maxTokens)];
    }
  }

  /** `(result, interrupted, satisfiable)` of `Solver.solve`. */
  datatype Solution = Solution(facts: seq<Plain>, interrupted: bool, satisfiable: Option<bool>)

  class Solver {
    /** The solver: its result for a program, given the programs before it;
        `None` when grounding raises. */
    const answer: (seq<string>, string) -> Option<Solution>
    /** The programs solved so far, in order. */
    var log: seq<string>

    constructor (answer: (seq<string>, string) -> Option<Solution>)
      ensures this.answer == answer && log == []
    {
      this.answer := answer;
      log := [];
    }

    method Solve(program: string) returns (r: Option<Solution>)
      modifies this
      ensures log == old(log) + [program]
      ensures r == answer(old(log), program)
    {
      r := answer(log, program);
      log := log + [program];
    }
  }

  /** The texts of the model's replies to `calls` made one after another
      after `log`, or `None` when one of them gets no reply. */
  function Answers(reply: (seq<Request>, Request) -> Option<Completion>, log: seq<Request>,
                   calls: seq<Request>): (r: Option<seq<Plain>>)
    ensures r.Some? ==> |r.value| == |calls|
  {
    if |calls| == 0 then Some([])
    else
      var n := |calls| - 1;
      match Answers(reply, log, calls[..n])
        case None => None
        case Some(rs) =>
          match reply(log + calls[..n], calls[n])
            case None => None
            case Some(c) => Some(rs + [c.text])
  }

  /** The shape of a log made of calls that each extend a history by three
      messages, and then one final call. */
  lemma LogShape(log: seq<Request>, calls: seq<Request>, last: Request, history: Query)
    requires forall i | 0 <= i < |calls| :: |calls[i].messages| == |history| + 3 && calls[i].messages[..|history|] == history
    ensures var all := log + calls + [last];
      && |all| == |log| + |calls| + 1 && all[..|log|] == log && all[|all| - 1] == last
      && forall i | |log| <= i < |log| + |calls| ::
        |all[i].messages| == |history| + 3 && all[i].messages[..|history|] == history
  {
    var all := log + calls + [last];
    assert all[..|log|] == log;
    forall i | |log| <= i < |log| + |calls|
      ensures |all[i].messages| == |history| + 3 && all[i].messages[..|history|] == history
    {
      assert all[i] == calls[i - |log|];
    }
  }
}
