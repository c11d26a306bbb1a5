/** The older `LLMASP` class itself, its loops proved against the functions
    of `Legacy`. */
module LegacyPipeline {
  import opened Wrappers
  import opened Strings
  import opened Errors
  import opened Config
  import opened Oracles
  import opened Grouping
  import opened Legacy

  class Llmasp {
    const config: AppConfig
    /** `self.behaviors[behavior]`, the behavior selected at construction. */
    const behavior: Behavior
    const llm: Llm
    const solver: Solver

    constructor (config: AppConfig, behavior: Behavior, llm: Llm, solver: Solver)
      ensures this.config == config && this.behavior == behavior
      ensures this.llm == llm && this.solver == solver
    {
      this.config := config;
      this.behavior := behavior;
      this.llm := llm;
      this.solver := solver;
    }

    /** `LLMASP(config_file, behavior_file, behavior, llm, solver)`: the
        behavior named `name` is taken from the loaded behaviors, and an
        unknown name raises `KeyError`. */
    static method Create(config: AppConfig, behaviors: map<string, Behavior>, name: string, llm: Llm, solver: Solver)
      returns (r: Result<Llmasp, Failure>)
      ensures name !in behaviors ==> r == Failure(KeyError(name))
      ensures name in behaviors ==> r.Success? && fresh(r.value)
      ensures name in behaviors ==> r.value.config == config && r.value.behavior == behaviors[name]
      ensures name in behaviors ==> r.value.llm == llm && r.value.solver == solver
    {
      if name !in behaviors {
        return Failure(KeyError(name));
      }
      var l := new Llmasp(config, behaviors[name], llm, solver);
      return Success(l);
    }

    /** `__create_queries(user_input)`. */
    method CreateQueries(input: string) returns (r: Result<seq<Query>, Failure>)
      ensures r == Legacy.CreateQueries(config, behavior, input)
    {
      if "datalog" !in behavior {
        return Failure(KeyError("datalog"));
      }
      var datalog := behavior["datalog"];
      if "context" !in datalog {
        return Failure(KeyError("context"));
      }
      if config.preprocessing.None? {
        return Failure(KeyError("preprocessing"));
      }
      var pre := config.preprocessing.value;
      var queries: seq<Query> := [];
      for index := 0 to |pre|
        invariant BuildQueries(pre[..index], datalog, input) == Success(queries)
      {
        assert pre[..index + 1][..index] == pre[..index] && pre[..index + 1][index] == pre[index];
        if "behavior" !in datalog {
          BuildQueriesFailureStays(pre, index + 1, datalog, input);
          return Failure(KeyError("behavior"));
        }
        if |pre[index]| == 0 {
          BuildQueriesFailureStays(pre, index + 1, datalog, input);
          return Failure(IndexError);
        }
        queries := queries + [EntryQuery(datalog["behavior"], datalog["context"], pre[index][0], input)];
      }
      assert pre[..|pre|] == pre;
      return Success(queries);
    }

    /** The query loop of `natural_to_asp`: each query asked in turn, the
        dotted facts of each reply appended to the program and to the
        history. */
    method AskQueries(queries: seq<Query>) returns (r: Result<Progress, Failure>)
      modifies llm
      ensures Exchange(llm.log, r) == Legacy.AskAll(llm.reply, old(llm.log), queries)
    {
      ghost var log0 := llm.log;
      var aspInput := "";
      var history: seq<Query> := [];
      for i := 0 to |queries|
        invariant Legacy.AskAll(llm.reply, log0, queries[..i]) == Exchange(llm.log, Success(Progress(aspInput, history)))
      {
        assert queries[..i + 1][..i] == queries[..i] && queries[..i + 1][i] == queries[i];
        var answer := llm.Call(queries[i], None);
        if answer.None? {
          Legacy.AskAllFailureStays(llm.reply, log0, queries, i + 1);
          return Failure(TransportError);
        }
        var facts := ResponseFacts(answer.value.text);
        aspInput := aspInput + "\n" + facts;
        history := history + [queries[i] + [Message(Assistant, facts)]];
      }
      assert queries[..|queries|] == queries;
      return Success(Progress(aspInput, history));
    }

    /** `natural_to_asp(user_input)`: the `facts` of the last loop round is
        unbound when there were no queries. */
    method NaturalToAsp(input: string) returns (r: Result<Progress, Failure>)
      modifies llm
      ensures Exchange(llm.log, r) == Legacy.NaturalToAsp(config, behavior, llm.reply, old(llm.log), input)
    {
      var created := CreateQueries(input);
      if created.Failure? {
        return Failure(created.error);
      }
      var queries := created.value;
      var asked := AskQueries(queries);
      if asked.Failure? {
        return asked;
      }
      if |queries| == 0 {
        return Failure(UnboundLocalError("facts"));
      }
      if config.knowledgeBase.None? {
        return Failure(KeyError("knowledge_base"));
      }
      return Success(Progress(asked.value.aspInput + "\n" + config.knowledgeBase.value, asked.value.history));
    }

    /** The group loop of `asp_to_natural`: per predicate name, the
        translation carried on through its postprocessing entry and one call
        with the history, the context, that translation and the facts. */
    method NarrateAll(s: Setting, names: seq<string>, members: map<string, seq<Plain>>, history: Query)
      returns (r: Result<Narrated, Failure>)
      requires Covers(names, members)
      modifies llm
      ensures Exchange(llm.log, r) == Legacy.NarrateGroups(s.post, llm.reply, old(llm.log), names, members, history, s.context, s.first)
    {
      ghost var log0 := llm.log;
      var responses: seq<string> := [];
      var translation := s.first;
      for i := 0 to |names|
        invariant Legacy.NarrateGroups(s.post, llm.reply, log0, names[..i], members, history, s.context, s.first)
          == Exchange(llm.log, Success(Narrated(responses, translation)))
      {
        assert names[..i + 1][..i] == names[..i] && names[..i + 1][i] == names[i];
        var property := Legacy.GetProperty(s.post, names[i], true);
        if property.Failure? {
          Legacy.NarrateGroupsFailureStays(s.post, llm.reply, log0, names, i + 1, members, history, s.context, s.first);
          return Failure(property.error);
        }
        translation := NextTranslation(property.value, translation);
        var request := GroupRequest(history, s.context, translation, members[names[i]]);
        var res := llm.Call(request.messages, None);
        if res.None? {
          Legacy.NarrateGroupsFailureStays(s.post, llm.reply, log0, names, i + 1, members, history, s.context, s.first);
          return Failure(TransportError);
        }
        responses := responses + [res.value.text];
      }
      assert names[..|names|] == names;
      return Success(Narrated(responses, translation));
    }

    /** `asp_to_natural(history, facts)`. */
    method AspToNatural(history: seq<Query>, facts: seq<Plain>) returns (r: Result<string, Failure>)
      modifies llm
      ensures Exchange(llm.log, r) == Legacy.AspToNatural(config, behavior, llm.reply, old(llm.log), history, facts)
    {
      var grouped := GroupByFact(facts);
      var settings := Settings(config, behavior);
      if settings.Failure? {
        return Failure(settings.error);
      }
      var s := settings.value;
      var narrated := NarrateAll(s, grouped.names, grouped.members, Flatten(history));
      if narrated.Failure? {
        return Failure(narrated.error);
      }
      var answer := llm.Call([Message(User, FinalPrompt(narrated.value.responses, s.summary))], None);
      if answer.None? {
        return Failure(TransportError);
      }
      return Success(answer.value.text);
    }

    /** `run()`, with the line `input("input: ")` read as a parameter.  It
        returns the response that `run` prints; `run` itself returns
        `None`. */
    method Run(input: string) returns (r: Result<string, Failure>)
      modifies llm, solver
      ensures Trace(llm.log, solver.log, r)
        == Legacy.RunTrace(config, behavior, llm.reply, old(llm.log), solver.answer, old(solver.log), input)
    {
      var forward := NaturalToAsp(input);
      if forward.Failure? {
        return Failure(forward.error);
      }
      var solved := solver.Solve(forward.value.aspInput);
      if solved.None? {
        return Failure(GroundingError);
      }
      r := AspToNatural([], solved.value.facts);
    }
  }
}
