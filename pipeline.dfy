/** The `LLMASP` class: construction, the two translation directions with
    the model and the solver as oracles, and `run`, which chains them. */
module Pipeline {
  import opened Wrappers
  import opened Strings
  import opened Errors
  import opened Config
  import opened Oracles
  import opened Facts
  import opened Grouping
  import opened Queries
  import opened Forward
  import opened Backward

  /** What a run leaves behind: the model and solver logs, and the result. */
  datatype Trace = Trace(llmLog: seq<Request>, solverLog: seq<string>, result: Option<Plain>)

  /** `run(user_input, single_pass, use_history, verbose)`: the forward
      translation, one solver call, and the backward translation unless the
      solver finds no fact.  Every exception yields `None`. */
  function RunTrace(cfg: AppConfig, beh: Behavior, database: string,
                    reply: (seq<Request>, Request) -> Option<Completion>, llmLog: seq<Request>,
                    answer: (seq<string>, string) -> Option<Solution>, solverLog: seq<string>,
                    input: Plain, singlePass: bool, useHistory: bool, verbose: int): (t: Trace)
    requires WellFormed(cfg, beh)
    ensures llmLog <= t.llmLog && solverLog <= t.solverLog && |t.solverLog| <= |solverLog| + 1
  {
    var forward := NaturalToAsp(cfg, beh, database, reply, llmLog, input, singlePass, None);
    NaturalToAspLogGrows(cfg, beh, database, reply, llmLog, input, singlePass, None);
    match forward.outcome
      case Failure(_) => Trace(forward.log, solverLog, None)
      case Success(tr) =>
        var solved := solverLog + [tr.program];
        match answer(solverLog, tr.program)
          case None => Trace(forward.log, solved, None)
          case Some(solution) =>
            if |solution.facts| == 0 then Trace(forward.log, solved, if verbose == 0 then None else Some(""))
            else
              var backward := AspToNatural(cfg, beh, reply, forward.log, solution.facts, tr.history, useHistory);
              AspToNaturalLogGrows(cfg, beh, reply, forward.log, solution.facts, tr.history, useHistory);
              match backward.outcome
                case Failure(_) => Trace(backward.log, solved, None)
                case Success(c) => Trace(backward.log, solved, Some(c.text))
  }

  lemma NaturalToAspLogGrows(cfg: AppConfig, beh: Behavior, database: string,
                             reply: (seq<Request>, Request) -> Option<Completion>, log: seq<Request>,
                             input: Plain, singlePass: bool, maxTokens: Option<nat>)
    requires WellFormed(cfg, beh)
    ensures log <= NaturalToAsp(cfg, beh, database, reply, log, input, singlePass, maxTokens).log
  {
    if QueriesFor(cfg, beh, input, singlePass).Success? {
      var qs := QueriesFor(cfg, beh, input, singlePass).value;
      var x := AskAll(reply, log, qs, maxTokens);
      if x.outcome.Success? {
        AskAllSucceeds(reply, log, qs, maxTokens);
      } else {
        var k := AskAllStops(reply, log, qs, maxTokens);
      }
    }
  }

  lemma AspToNaturalLogGrows(cfg: AppConfig, beh: Behavior,
                             reply: (seq<Request>, Request) -> Option<Completion>, log: seq<Request>,
                             facts: seq<Plain>, history: seq<Query>, useHistory: bool)
    requires WellFormed(cfg, beh)
    ensures log <= AspToNatural(cfg, beh, reply, log, facts, history, useHistory).log
  {
    var g := Grouped(facts);
    var flat := if useHistory then Flatten(history) else [];
    if GetProperty(cfg.postprocessing.value, "_", false).Success? {
      var p := GetProperty(cfg.postprocessing.value, "_", false).value;
      NarrateGroupsBounded(NarratorOf(cfg, beh), reply, log, g.names, g.members, flat, Context(beh, "postprocessing", p.value));
    }
  }

  /** When the solver finds no fact, `run` returns `None` (verbose 0) or
      `""` and never calls the model again. */
  lemma RunShortCircuit(cfg: AppConfig, beh: Behavior, database: string,
                        reply: (seq<Request>, Request) -> Option<Completion>, llmLog: seq<Request>,
                        answer: (seq<string>, string) -> Option<Solution>, solverLog: seq<string>,
                        input: Plain, singlePass: bool, useHistory: bool, verbose: int)
    requires WellFormed(cfg, beh)
    requires NaturalToAsp(cfg, beh, database, reply, llmLog, input, singlePass, None).outcome.Success?
    requires var program := NaturalToAsp(cfg, beh, database, reply, llmLog, input, singlePass, None).outcome.value.program;
      answer(solverLog, program).Some? && |answer(solverLog, program).value.facts| == 0
    ensures var forward := NaturalToAsp(cfg, beh, database, reply, llmLog, input, singlePass, None);
      var t := RunTrace(cfg, beh, database, reply, llmLog, answer, solverLog, input, singlePass, useHistory, verbose);
      && t.llmLog == forward.log
      && t.solverLog == solverLog + [forward.outcome.value.program]
      && t.result == (if verbose == 0 then None else Some(""))
  {
  }

  /** `run` returns a text exactly when the forward translation, the solver
      and (when there are facts) the backward translation all succeed; that
      text is the reply to the final summary call. */
  lemma RunResult(cfg: AppConfig, beh: Behavior, database: string,
                  reply: (seq<Request>, Request) -> Option<Completion>, llmLog: seq<Request>,
                  answer: (seq<string>, string) -> Option<Solution>, solverLog: seq<string>,
                  input: Plain, singlePass: bool, useHistory: bool, verbose: int)
    requires WellFormed(cfg, beh)
    ensures var forward := NaturalToAsp(cfg, beh, database, reply, llmLog, input, singlePass, None);
      var t := RunTrace(cfg, beh, database, reply, llmLog, answer, solverLog, input, singlePass, useHistory, verbose);
      t.result.Some? <==>
        && forward.outcome.Success?
        && answer(solverLog, forward.outcome.value.program).Some?
        && var solution := answer(solverLog, forward.outcome.value.program).value;
          if |solution.facts| == 0 then verbose != 0
          else AspToNatural(cfg, beh, reply, forward.log, solution.facts, forward.outcome.value.history, useHistory).outcome.Success?
    ensures var forward := NaturalToAsp(cfg, beh, database, reply, llmLog, input, singlePass, None);
      var t := RunTrace(cfg, beh, database, reply, llmLog, answer, solverLog, input, singlePass, useHistory, verbose);
      forward.outcome.Failure? ==> t.result.None? && t.solverLog == solverLog
  {
  }

  /** A run that ends with a response calls the solver exactly once, on
      the assembled program, and the model once per query and, when the
      solver found facts, once per distinct predicate and once for the
      summary.  With no facts the response is `""`, and only when
      `verbose` is set. */
  lemma RunCallCount(cfg: AppConfig, beh: Behavior, database: string,
                     reply: (seq<Request>, Request) -> Option<Completion>, llmLog: seq<Request>,
                     answer: (seq<string>, string) -> Option<Solution>, solverLog: seq<string>,
                     input: Plain, singlePass: bool, useHistory: bool, verbose: int)
    requires WellFormed(cfg, beh)
    requires RunTrace(cfg, beh, database, reply, llmLog, answer, solverLog, input, singlePass, useHistory, verbose).result.Some?
    ensures QueriesFor(cfg, beh, input, singlePass).Success?
    ensures NaturalToAsp(cfg, beh, database, reply, llmLog, input, singlePass, None).outcome.Success?
    ensures var forward := NaturalToAsp(cfg, beh, database, reply, llmLog, input, singlePass, None);
      var program := forward.outcome.value.program;
      var t := RunTrace(cfg, beh, database, reply, llmLog, answer, solverLog, input, singlePass, useHistory, verbose);
      && t.solverLog == solverLog + [program]
      && answer(solverLog, program).Some?
      && var facts := answer(solverLog, program).value.facts;
      && (|facts| == 0 ==> verbose != 0 && t.result == Some(""))
      && |t.llmLog| == |llmLog| + |QueriesFor(cfg, beh, input, singlePass).value|
           + (if |facts| == 0 then 0 else |Grouped(facts).names| + 1)
  {
    var forward := NaturalToAsp(cfg, beh, database, reply, llmLog, input, singlePass, None);
    var qs := QueriesFor(cfg, beh, input, singlePass).value;
    NaturalToAspSucceeds(cfg, beh, database, reply, llmLog, input, singlePass, None);
    assert |Requests(qs, None)| == |qs|;
    var solution := answer(solverLog, forward.outcome.value.program).value;
    if |solution.facts| > 0 {
      AspToNaturalShape(cfg, beh, reply, forward.log, solution.facts, forward.outcome.value.history, useHistory);
    }
  }

  /** An `LLMASP` instance over a validated configuration. */
  class Llmasp {
    const config: AppConfig
    const behavior: Behavior
    const database: string
    const llm: Llm
    const solver: Solver

    predicate Valid() {
      WellFormed(config, behavior)
    }

    constructor (setup: Setup, llm: Llm, solver: Solver)
      requires WellFormed(setup.config, setup.behavior)
      ensures Valid()
      ensures config == setup.config && behavior == setup.behavior && database == setup.database
      ensures this.llm == llm && this.solver == solver
    {
      config := setup.config;
      behavior := setup.behavior;
      database := setup.database;
      this.llm := llm;
      this.solver := solver;
    }

    /** `LLMASP(config_file, behavior_file, llm, solver)`: raises exactly
        when `Construct` fails, with its error. */
    static method Create(configFile: Option<AppConfig>, behaviorFile: Option<Behavior>,
                         loadDatabase: string -> Option<map<string, string>>,
                         llm: Llm, solver: Solver) returns (r: Result<Llmasp, Failure>)
      ensures Construct(configFile, behaviorFile, loadDatabase).Failure? ==>
        r == Failure(Construct(configFile, behaviorFile, loadDatabase).error)
      ensures Construct(configFile, behaviorFile, loadDatabase).Success? ==>
        && r.Success? && fresh(r.value) && r.value.Valid()
        && Setup(r.value.config, r.value.behavior, r.value.database) == Construct(configFile, behaviorFile, loadDatabase).value
        && r.value.llm == llm && r.value.solver == solver
    {
      match Construct(configFile, behaviorFile, loadDatabase)
        case Failure(e) =>
          r := Failure(e);
        case Success(setup) =>
          var p := new Llmasp(setup, llm, solver);
          r := Success(p);
    }

    /** `__create_queries(user_input, single_pass)`. */
    method CreateQueries(input: Plain, singlePass: bool) returns (r: Result<seq<Query>, Failure>)
      requires Valid()
      ensures r == QueriesFor(config, behavior, input, singlePass)
    {
      var pre := config.preprocessing.value;
      var init := behavior["preprocessing"]["init"];
      var mapping := InputMapping(behavior, input);
      var property := GetProperty(pre, "_", false);
      if property.Failure? {
        return Failure(Wrap(CreatingQueries, property.error));
      }
      var context := Context(behavior, "preprocessing", property.value.value);
      if singlePass {
        var single := SinglePass(pre, init, context, mapping);
        if single.Failure? {
          return Failure(Wrap(CreatingQueries, single.error));
        }
        return single;
      }
      var queries: seq<Query> := [];
      for i := 0 to |pre|
        invariant PerPredicate(pre[..i], init, context, mapping) == Success(queries)
      {
        var entry := pre[i];
        assert pre[..i + 1][..i] == pre[..i] && pre[..i + 1][i] == entry;
        if |entry| == 0 {
          PerPredicateFailureStays(pre, i + 1, init, context, mapping);
          return Failure(Wrap(CreatingQueries, IndexError));
        }
        var Pair(key, value) := entry[0];
        if key != "_" {
          queries := queries + [QueryMessages(init, context, Fill(mapping, value, key))];
        }
      }
      assert pre[..|pre|] == pre;
      return Success(queries);
    }

    /** The query loop of `natural_to_asp`: each query asked in turn with
        the token limit, its reply's facts collected and the last reply's
        usage kept. */
    method AskQueries(queries: seq<Query>, maxTokens: Option<nat>) returns (r: Result<Gathered, Failure>)
      modifies llm
      ensures Exchange(llm.log, r) == AskAll(llm.reply, old(llm.log), queries, maxTokens)
    {
      ghost var log0 := llm.log;
      var facts: seq<string> := [];
      var history: seq<Query> := [];
      var meta: Option<Usage> := None;
      for i := 0 to |queries|
        invariant AskAll(llm.reply, log0, queries[..i], maxTokens) == Exchange(llm.log, Success(Gathered(facts, history, meta)))
      {
        AskAllNext(llm.reply, log0, queries, i, maxTokens);
        var answer := llm.Call(queries[i], maxTokens);
        if answer.None? {
          AskAllFailureStays(llm.reply, log0, queries, i + 1, maxTokens);
          return Failure(TransportError);
        }
        var found := Extract(answer.value.text);
        facts := facts + found;
        history := history + [Answered(queries[i], found)];
        meta := Some(answer.value.meta);
      }
      assert queries[..|queries|] == queries;
      return Success(Gathered(facts, history, meta));
    }

    /** `natural_to_asp(user_input, single_pass, max_tokens)`. */
    method NaturalToAsp(input: Plain, singlePass: bool, maxTokens: Option<nat>) returns (r: Result<Translation, Failure>)
      requires Valid()
      modifies llm
      ensures Exchange(llm.log, r) == Forward.NaturalToAsp(config, behavior, database, llm.reply, old(llm.log), input, singlePass, maxTokens)
    {
      var created := CreateQueries(input, singlePass);
      if created.Failure? {
        return Failure(Wrap(ConvertingToAsp, created.error));
      }
      var asked := AskQueries(created.value, maxTokens);
      if asked.Failure? {
        return Failure(Wrap(ConvertingToAsp, asked.error));
      }
      var factsText := Join(asked.value.facts, "\n");
      return Success(Translation(factsText, Program(factsText, database, config.knowledgeBase.value), asked.value.history, asked.value.meta));
    }

    /** `_process_fact_group(fact_name, facts, queries, context)`. */
    method ProcessFactGroup(name: string, facts: seq<Plain>, history: Query, context: string) returns (r: Result<Plain, Failure>)
      requires Valid()
      modifies llm
      ensures Exchange(llm.log, r) == Backward.ProcessFactGroup(NarratorOf(config, behavior), llm.reply, old(llm.log), name, facts, history, context)
    {
      var narration := Narration(NarratorOf(config, behavior), name, facts, history, context);
      if narration.Failure? {
        return Failure(narration.error);
      }
      var answer := llm.Call(narration.value.messages, None);
      if answer.None? {
        return Failure(TransportError);
      }
      return Success(answer.value.text);
    }

    /** The group loop of `asp_to_natural`: one narration call per
        predicate name, in order, stopping at the first that raises. */
    method NarrateAll(names: seq<string>, members: map<string, seq<Plain>>, history: Query, context: string)
      returns (r: Result<seq<Plain>, Failure>)
      requires Valid() && Covers(names, members)
      modifies llm
      ensures Exchange(llm.log, r) == NarrateGroups(NarratorOf(config, behavior), llm.reply, old(llm.log), names, members, history, context)
    {
      ghost var log0 := llm.log;
      ghost var nr := NarratorOf(config, behavior);
      var responses: seq<Plain> := [];
      for i := 0 to |names|
        invariant NarrateGroups(nr, llm.reply, log0, names[..i], members, history, context)
          == Exchange(llm.log, Success(responses))
      {
        assert names[..i + 1][..i] == names[..i] && names[..i + 1][i] == names[i];
        var response := ProcessFactGroup(names[i], members[names[i]], history, context);
        if response.Failure? {
          NarrateGroupsFailureStays(nr, llm.reply, log0, names, i + 1, members, history, context);
          return Failure(response.error);
        }
        responses := responses + [response.value];
      }
      assert names[..|names|] == names;
      return Success(responses);
    }

    /** `asp_to_natural(facts, history, use_history)`. */
    method AspToNatural(facts: seq<Plain>, history: seq<Query>, useHistory: bool) returns (r: Result<Completion, Failure>)
      requires Valid()
      modifies llm
      ensures Exchange(llm.log, r) == Backward.AspToNatural(config, behavior, llm.reply, old(llm.log), facts, history, useHistory)
    {
      var grouped := GroupByFact(facts);
      var flat := if useHistory then Flatten(history) else [];
      var property := GetProperty(config.postprocessing.value, "_", false);
      if property.Failure? {
        return Failure(Wrap(ConvertingToNatural, property.error));
      }
      var context := Context(behavior, "postprocessing", property.value.value);
      var responses := NarrateAll(grouped.names, grouped.members, flat, context);
      if responses.Failure? {
        return Failure(Wrap(ConvertingToNatural, responses.error));
      }
      var answer := llm.Call([Message(System, context), Message(User, Summary(behavior, responses.value))], None);
      if answer.None? {
        return Failure(Wrap(ConvertingToNatural, TransportError));
      }
      return Success(answer.value);
    }

    /** `run(user_input, single_pass, use_history, verbose)`. */
    method Run(input: Plain, singlePass: bool, useHistory: bool, verbose: int) returns (r: Option<Plain>)
      requires Valid()
      modifies llm, solver
      ensures Trace(llm.log, solver.log, r)
        == RunTrace(config, behavior, database, llm.reply, old(llm.log), solver.answer, old(solver.log),
                    input, singlePass, useHistory, verbose)
    {
      var forward := NaturalToAsp(input, singlePass, None);
      if forward.Failure? {
        return None;
      }
      var solved := solver.Solve(forward.value.program);
      if solved.None? {
        return None;
      }
      if |solved.value.facts| == 0 {
        return if verbose == 0 then None else Some("");
      }
      var backward := AspToNatural(solved.value.facts, forward.value.history, useHistory);
      if backward.Failure? {
        return None;
      }
      return Some(backward.value.text);
    }
  }
}
