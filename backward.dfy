/** `asp_to_natural` and `_process_fact_group`: one narration call per
    group of solver facts, then one call that summarises the narrations. */
module Backward {
  import opened Wrappers
  import opened Strings
  import opened Errors
  import opened Config
  import opened Oracles
  import opened Grouping
  import opened Queries

  /** The postprocessing mapping with `{atom}`, the misspelled
      `{intructions}` and `{facts}` replaced, in that order. */
  function NarrationPrompt(mapping: string, key: Plain, instructions: Plain, facts: seq<Plain>): string {
    Sub(Sub(Sub(mapping, "{atom}", key), "{intructions}", instructions), "{facts}", Join(facts, "\n"))
  }

  /** What `_process_fact_group` reads from the configuration: the
      postprocessing entries and the `init` and `mapping` templates of the
      behavior's postprocessing section. */
  datatype Narrator = Narrator(post: seq<Entry>, init: string, mapping: string)

  function NarratorOf(cfg: AppConfig, beh: Behavior): (nr: Narrator)
    requires WellFormed(cfg, beh)
    ensures nr.post == cfg.postprocessing.value
  {
    Narrator(cfg.postprocessing.value, beh["postprocessing"]["init"], beh["postprocessing"]["mapping"])
  }

  /** The request `_process_fact_group` makes for a group, once its
      postprocessing entry is found by predicate name. */
  function Narration(nr: Narrator, name: string, facts: seq<Plain>,
                     history: Query, context: string): (r: Result<Request, Failure>)
    ensures r.Failure? ==> r.error.LlmaspError?
    ensures r.Success? <==> GetProperty(nr.post, name, true).Success?
    ensures r.Success? ==>
      |r.value.messages| == |history| + 3 && r.value.messages[..|history|] == history && r.value.maxTokens.None?
  {
    match GetProperty(nr.post, name, true)
      case Failure(e) => Failure(e)
      case Success(p) =>
        Success(Request(history + [
          Message(System, nr.init),
          Message(System, context),
          Message(User, NarrationPrompt(nr.mapping, p.key, p.value, facts))], None))
  }

  /** The narration of a group under a configuration and behavior: it
      exists exactly when some postprocessing entry is the first whose
      predicate name is the group's, and then it is the history, the
      behavior's postprocessing `init`, the context, and the behavior's
      postprocessing `mapping` filled with that entry's atom and
      instructions and the group's facts one per line. */
  lemma NarrationMessages(cfg: AppConfig, beh: Behavior, name: string, facts: seq<Plain>,
                          history: Query, context: string)
    requires WellFormed(cfg, beh)
    ensures Narration(NarratorOf(cfg, beh), name, facts, history, context).Success? <==>
      exists i | 0 <= i < |cfg.postprocessing.value| :: FirstHit(cfg.postprocessing.value, i, name, true)
    ensures forall i | 0 <= i < |cfg.postprocessing.value| && FirstHit(cfg.postprocessing.value, i, name, true) ::
      Narration(NarratorOf(cfg, beh), name, facts, history, context) ==
        Success(Request(history + [
          Message(System, beh["postprocessing"]["init"]),
          Message(System, context),
          Message(User, NarrationPrompt(beh["postprocessing"]["mapping"], cfg.postprocessing.value[i][0].key,
                                        cfg.postprocessing.value[i][0].value, facts))], None))
  {
    GetPropertyFirstMatch(cfg.postprocessing.value, name, true);
  }

  /** `_process_fact_group(fact_name, facts, queries, context)`. */
  function ProcessFactGroup(nr: Narrator, reply: (seq<Request>, Request) -> Option<Completion>, log: seq<Request>,
                            name: string, facts: seq<Plain>, history: Query, context: string): (x: Exchange<Plain>)
    ensures x.outcome.Failure? ==> x.outcome.error.LlmaspError? || x.outcome.error == TransportError
  {
    match Narration(nr, name, facts, history, context)
      case Failure(e) => Exchange(log, Failure(e))
      case Success(request) =>
        match reply(log, request)
          case None => Exchange(log + [request], Failure(TransportError))
          case Some(c) => Exchange(log + [request], Success(c.text))
  }

  predicate Covers(names: seq<string>, members: map<string, seq<Plain>>) {
    forall i | 0 <= i < |names| :: names[i] in members
  }

  /** The loop over `grouped_facts.items()`. */
  function NarrateGroups(nr: Narrator, reply: (seq<Request>, Request) -> Option<Completion>, log: seq<Request>,
                         names: seq<string>, members: map<string, seq<Plain>>,
                         history: Query, context: string): (x: Exchange<seq<Plain>>)
    requires Covers(names, members)
  {
    if |names| == 0 then Exchange(log, Success([]))
    else
      var n := |names| - 1;
      var before := NarrateGroups(nr, reply, log, names[..n], members, history, context);
      match before.outcome
        case Failure(e) => before
        case Success(rs) =>
          var x := ProcessFactGroup(nr, reply, before.log, names[n], members[names[n]], history, context);
          match x.outcome
            case Failure(e) => Exchange(x.log, Failure(e))
            case Success(r) => Exchange(x.log, Success(rs + [r]))
  }

  /** Once the loop has raised, later groups change nothing. */
  lemma {:induction false} NarrateGroupsFailureStays(nr: Narrator, reply: (seq<Request>, Request) -> Option<Completion>, log: seq<Request>,
                                                     names: seq<string>, i: nat, members: map<string, seq<Plain>>,
                                                     history: Query, context: string)
    requires Covers(names, members) && i <= |names|
    requires NarrateGroups(nr, reply, log, names[..i], members, history, context).outcome.Failure?
    ensures NarrateGroups(nr, reply, log, names, members, history, context)
      == NarrateGroups(nr, reply, log, names[..i], members, history, context)
  {
    if i < |names| {
      assert names[..|names| - 1][..i] == names[..i];
      NarrateGroupsFailureStays(nr, reply, log, names[..|names| - 1], i, members, history, context);
    } else {
      assert names[..i] == names;
    }
  }

  /** The narration requests of the groups `names`, in order, or the
      error of the first group without a postprocessing entry. */
  function Narrations(nr: Narrator, names: seq<string>, members: map<string, seq<Plain>>,
                      history: Query, context: string): (r: Result<seq<Request>, Failure>)
    requires Covers(names, members)
    ensures r.Success? ==> |r.value| == |names|
    ensures r.Success? ==> forall i | 0 <= i < |names| ::
      |r.value[i].messages| == |history| + 3 && r.value[i].messages[..|history|] == history
  {
    if |names| == 0 then Success([])
    else
      var n := |names| - 1;
      match Narrations(nr, names[..n], members, history, context)
        case Failure(e) => Failure(e)
        case Success(rs) =>
          match Narration(nr, names[n], members[names[n]], history, context)
            case Failure(e) => Failure(e)
            case Success(q) => Success(rs + [q])
  }

  /** The narration requests all exist exactly when every group's predicate
      name has a postprocessing entry. */
  lemma {:induction false} NarrationsFound(nr: Narrator, names: seq<string>, members: map<string, seq<Plain>>,
                                           history: Query, context: string)
    requires Covers(names, members)
    ensures Narrations(nr, names, members, history, context).Success? <==>
      forall i | 0 <= i < |names| :: GetProperty(nr.post, names[i], true).Success?
  {
    if |names| > 0 {
      var n := |names| - 1;
      NarrationsFound(nr, names[..n], members, history, context);
      assert forall i | 0 <= i < n :: names[..n][i] == names[i];
    }
  }

  /** A successful loop makes exactly the groups' narration requests, in
      order. */
  lemma {:induction false} NarrateGroupsLog(nr: Narrator, reply: (seq<Request>, Request) -> Option<Completion>, log: seq<Request>,
                                            names: seq<string>, members: map<string, seq<Plain>>,
                                            history: Query, context: string)
    requires Covers(names, members)
    requires NarrateGroups(nr, reply, log, names, members, history, context).outcome.Success?
    ensures Narrations(nr, names, members, history, context).Success?
    ensures NarrateGroups(nr, reply, log, names, members, history, context).log
      == log + Narrations(nr, names, members, history, context).value
  {
    if |names| > 0 {
      var n := |names| - 1;
      var before := NarrateGroups(nr, reply, log, names[..n], members, history, context);
      NarrateGroupsLog(nr, reply, log, names[..n], members, history, context);
      var prior := Narrations(nr, names[..n], members, history, context).value;
      var request := Narration(nr, names[n], members[names[n]], history, context).value;
      assert Narrations(nr, names, members, history, context).value == prior + [request];
      assert NarrateGroups(nr, reply, log, names, members, history, context).log == before.log + [request];
      AppendAssoc(log, prior, [request]);
    }
  }

  /** The replies a successful loop collects are the model's answers to the
      groups' narration requests, in order. */
  lemma {:induction false} NarrateGroupsReplies(nr: Narrator, reply: (seq<Request>, Request) -> Option<Completion>, log: seq<Request>,
                                                names: seq<string>, members: map<string, seq<Plain>>,
                                                history: Query, context: string)
    requires Covers(names, members)
    requires NarrateGroups(nr, reply, log, names, members, history, context).outcome.Success?
    ensures Narrations(nr, names, members, history, context).Success?
    ensures Answers(reply, log, Narrations(nr, names, members, history, context).value)
      == Some(NarrateGroups(nr, reply, log, names, members, history, context).outcome.value)
  {
    NarrateGroupsLog(nr, reply, log, names, members, history, context);
    if |names| > 0 {
      var n := |names| - 1;
      NarrateGroupsReplies(nr, reply, log, names[..n], members, history, context);
      NarrateGroupsLog(nr, reply, log, names[..n], members, history, context);
      var prior := Narrations(nr, names[..n], members, history, context).value;
      var request := Narration(nr, names[n], members[names[n]], history, context).value;
      assert Narrations(nr, names, members, history, context).value == prior + [request];
      assert (prior + [request])[..n] == prior;
    }
  }

  /** A successful loop makes exactly the groups' narration requests, in
      order, and collects the model's replies to them. */
  lemma NarrateGroupsCalls(nr: Narrator, reply: (seq<Request>, Request) -> Option<Completion>, log: seq<Request>,
                           names: seq<string>, members: map<string, seq<Plain>>,
                           history: Query, context: string)
    requires Covers(names, members)
    requires NarrateGroups(nr, reply, log, names, members, history, context).outcome.Success?
    ensures Narrations(nr, names, members, history, context).Success?
    ensures var x := NarrateGroups(nr, reply, log, names, members, history, context);
      var calls := Narrations(nr, names, members, history, context).value;
      x.log == log + calls && Answers(reply, log, calls) == Some(x.outcome.value)
  {
    NarrateGroupsLog(nr, reply, log, names, members, history, context);
    NarrateGroupsReplies(nr, reply, log, names, members, history, context);
  }

  /** A failed loop stops where it failed: the failing group's call, if it
      got as far as a call, is the last one. */
  lemma {:induction false} NarrateGroupsBounded(nr: Narrator, reply: (seq<Request>, Request) -> Option<Completion>, log: seq<Request>,
                                                names: seq<string>, members: map<string, seq<Plain>>,
                                                history: Query, context: string)
    requires Covers(names, members)
    ensures var x := NarrateGroups(nr, reply, log, names, members, history, context);
      log <= x.log && |x.log| <= |log| + |names|
      && (x.outcome.Failure? ==> x.outcome.error.LlmaspError? || x.outcome.error == TransportError)
  {
    if |names| > 0 {
      NarrateGroupsBounded(nr, reply, log, names[..|names| - 1], members, history, context);
    }
  }

  /** `asp_to_natural(facts, history, use_history)`: the reply of the final
      summary call; every error is re-raised as `Failed to convert ASP to
      natural language`. */
  function AspToNatural(cfg: AppConfig, beh: Behavior,
                        reply: (seq<Request>, Request) -> Option<Completion>, log: seq<Request>,
                        facts: seq<Plain>, history: seq<Query>, useHistory: bool): (x: Exchange<Completion>)
    requires WellFormed(cfg, beh)
    ensures x.outcome.Failure? ==> exists e :: x.outcome.error == Wrap(ConvertingToNatural, e)
  {
    var g := Grouped(facts);
    var flat := if useHistory then Flatten(history) else [];
    var nr := NarratorOf(cfg, beh);
    match GetProperty(cfg.postprocessing.value, "_", false)
      case Failure(e) => Exchange(log, Failure(Wrap(ConvertingToNatural, e)))
      case Success(p) =>
        var context := Context(beh, "postprocessing", p.value);
        var x := NarrateGroups(nr, reply, log, g.names, g.members, flat, context);
        match x.outcome
          case Failure(e) => Exchange(x.log, Failure(Wrap(ConvertingToNatural, e)))
          case Success(rs) =>
            var request := Request([Message(System, context), Message(User, Summary(beh, rs))], None);
            match reply(x.log, request)
              case None => Exchange(x.log + [request], Failure(Wrap(ConvertingToNatural, TransportError)))
              case Some(c) => Exchange(x.log + [request], Success(c))
  }

  /** The `summarize` template with the narrations, one per line, in place
      of `{responses}`. */
  function Summary(beh: Behavior, responses: seq<Plain>): string
    requires "postprocessing" in beh && "summarize" in beh["postprocessing"]
  {
    Sub(beh["postprocessing"]["summarize"], "{responses}", Join(responses, "\n"))
  }

  /** A successful translation found the `_` entry, made every group's
      narration request in order and then the summary call of the context
      and the `summarize` template filled with the replies; the result is
      the reply to that last call. */
  lemma AspToNaturalCalls(cfg: AppConfig, beh: Behavior,
                          reply: (seq<Request>, Request) -> Option<Completion>, log: seq<Request>,
                          facts: seq<Plain>, history: seq<Query>, useHistory: bool)
    requires WellFormed(cfg, beh)
    requires AspToNatural(cfg, beh, reply, log, facts, history, useHistory).outcome.Success?
    ensures GetProperty(cfg.postprocessing.value, "_", false).Success?
    ensures var context := Context(beh, "postprocessing", GetProperty(cfg.postprocessing.value, "_", false).value.value);
      var g := Grouped(facts);
      var calls := Narrations(NarratorOf(cfg, beh), g.names, g.members, if useHistory then Flatten(history) else [], context);
      calls.Success? && Answers(reply, log, calls.value).Some?
    ensures var x := AspToNatural(cfg, beh, reply, log, facts, history, useHistory);
      var context := Context(beh, "postprocessing", GetProperty(cfg.postprocessing.value, "_", false).value.value);
      var g := Grouped(facts);
      var calls := Narrations(NarratorOf(cfg, beh), g.names, g.members, if useHistory then Flatten(history) else [], context).value;
      var summary := Request([Message(System, context), Message(User, Summary(beh, Answers(reply, log, calls).value))], None);
      x.log == log + calls + [summary] && reply(log + calls, summary) == Some(x.outcome.value)
  {
    var g := Grouped(facts);
    var flat := if useHistory then Flatten(history) else [];
    var nr := NarratorOf(cfg, beh);
    var p := GetProperty(cfg.postprocessing.value, "_", false).value;
    var context := Context(beh, "postprocessing", p.value);
    NarrateGroupsCalls(nr, reply, log, g.names, g.members, flat, context);
  }

  /** A successful translation makes exactly one call per distinct predicate
      name of the facts, each the flattened history (empty unless
      `use_history`) followed by three messages, then one final call of
      exactly two messages, a system and a user message. */
  lemma AspToNaturalShape(cfg: AppConfig, beh: Behavior,
                          reply: (seq<Request>, Request) -> Option<Completion>, log: seq<Request>,
                          facts: seq<Plain>, history: seq<Query>, useHistory: bool)
    requires WellFormed(cfg, beh)
    requires AspToNatural(cfg, beh, reply, log, facts, history, useHistory).outcome.Success?
    ensures var x := AspToNatural(cfg, beh, reply, log, facts, history, useHistory);
      var groups := |Grouped(facts).names|;
      var flat := if useHistory then Flatten(history) else [];
      && |x.log| == |log| + groups + 1 && x.log[..|log|] == log
      && (forall i | |log| <= i < |log| + groups ::
            |x.log[i].messages| == |flat| + 3 && x.log[i].messages[..|flat|] == flat)
      && |x.log[|x.log| - 1].messages| == 2
      && x.log[|x.log| - 1].messages[0].role == System
      && x.log[|x.log| - 1].messages[1].role == User
  {
    AspToNaturalCalls(cfg, beh, reply, log, facts, history, useHistory);
    var g := Grouped(facts);
    var flat := if useHistory then Flatten(history) else [];
    var context := Context(beh, "postprocessing", GetProperty(cfg.postprocessing.value, "_", false).value.value);
    var calls := Narrations(NarratorOf(cfg, beh), g.names, g.members, flat, context).value;
    var summary := Request([Message(System, context), Message(User, Summary(beh, Answers(reply, log, calls).value))], None);
    LogShape(log, calls, summary, flat);
  }

  /** A group whose predicate name has no postprocessing entry makes the
      translation raise, and the summary call is never made. */
  lemma MissingNarrationFails(cfg: AppConfig, beh: Behavior,
                              reply: (seq<Request>, Request) -> Option<Completion>, log: seq<Request>,
                              facts: seq<Plain>, history: seq<Query>, useHistory: bool, f: nat)
    requires WellFormed(cfg, beh)
    requires f < |facts|
    requires GetProperty(cfg.postprocessing.value, AtomName(facts[f]), true).Failure?
    ensures var x := AspToNatural(cfg, beh, reply, log, facts, history, useHistory);
      && x.outcome.Failure? && IsLlmaspError(x.outcome.error)
      && |x.log| <= |log| + |Grouped(facts).names|
  {
    var g := Grouped(facts);
    GroupedCovers(facts);
    var flat := if useHistory then Flatten(history) else [];
    var nr := NarratorOf(cfg, beh);
    var name := AtomName(facts[f]);
    assert name in g.members;
    var j :| 0 <= j < |g.names| && g.names[j] == name;
    match GetProperty(cfg.postprocessing.value, "_", false)
      case Failure(e) =>
      case Success(p) =>
        var context := Context(beh, "postprocessing", p.value);
        NarrateGroupsBounded(nr, reply, log, g.names, g.members, flat, context);
        var y := NarrateGroups(nr, reply, log, g.names, g.members, flat, context);
        if y.outcome.Success? {
          NarrateGroupsLog(nr, reply, log, g.names, g.members, flat, context);
          NarrationsFound(nr, g.names, g.members, flat, context);
          assert false;
        }
  }

  /** Without facts there is no group: the only call is the summary, with
      `{responses}` replaced by nothing. */
  lemma NoFactsOnlySummary(cfg: AppConfig, beh: Behavior,
                           reply: (seq<Request>, Request) -> Option<Completion>, log: seq<Request>,
                           history: seq<Query>, useHistory: bool)
    requires WellFormed(cfg, beh)
    requires GetProperty(cfg.postprocessing.value, "_", false).Success?
    ensures var x := AspToNatural(cfg, beh, reply, log, [], history, useHistory);
      var p := GetProperty(cfg.postprocessing.value, "_", false).value;
      x.log == log + [Request([Message(System, Context(beh, "postprocessing", p.value)),
                               Message(User, Sub(beh["postprocessing"]["summarize"], "{responses}", ""))], None)]
  {
  }

  /** The narration prompt receives a group's instructions only through the
      misspelled placeholder `{intructions}`: a template without it (for
      instance one that spells `{instructions}`) gives the same prompt
      whatever the instructions are. */
  lemma NarrationIgnoresInstructions(mapping: string, key: Plain, facts: seq<Plain>, i1: Plain, i2: Plain)
    requires !Occurs(Sub(mapping, "{atom}", key), "{intructions}")
    ensures NarrationPrompt(mapping, key, i1, facts) == NarrationPrompt(mapping, key, i2, facts)
  {
    SubAbsent(Sub(mapping, "{atom}", key), "{intructions}", i1);
    SubAbsent(Sub(mapping, "{atom}", key), "{intructions}", i2);
  }
}
