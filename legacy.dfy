/** The older `LLMASP` revision (`llmasp/llm/LLMASP.py`): four-message
    queries for every preprocessing entry, dotted fact extraction, a fact
    translation that carries over from group to group, and no error
    handling: every exception reaches the caller. */
module Legacy {
  import opened Wrappers
  import opened Strings
  import opened Errors
  import opened Config
  import opened Oracles
  import opened Facts
  import opened Grouping
  import Forward

  /** Entries `0..i` are all non-empty, so the filter reaches entry `i`. */
  predicate NonEmptyThrough(props: seq<Entry>, i: int)
    requires 0 <= i < |props|
  {
    forall j | 0 <= j <= i :: |props[j]| > 0
  }

  /** `list(filter(lambda x: ..., properties))`: the matching entries, up to
      the first empty one, whose `next(iter(x))` raises `StopIteration`,
      which `list` takes for the end of the iteration. */
  function Filtered(props: seq<Entry>, key: string, isFact: bool): (r: seq<Entry>)
    ensures forall e | e in r :: |e| > 0 && Matches(e[0], key, isFact)
    ensures forall i | 0 <= i < |props| && NonEmptyThrough(props, i) && Matches(props[i][0], key, isFact) ::
      props[i] in r
  {
    if |props| == 0 || |props[0]| == 0 then []
    else (if Matches(props[0][0], key, isFact) then [props[0]] else []) + Filtered(props[1..], key, isFact)
  }

  /** `__get_property`: the first key and value of the first filtered
      entry; `[0]` of an empty list raises `IndexError`. */
  function GetProperty(props: seq<Entry>, key: string, isFact: bool): (r: Result<Pair, Failure>) {
    var found := Filtered(props, key, isFact);
    if |found| == 0 then Failure(IndexError) else Success(found[0][0])
  }

  /** The older lookup finds the same pair as the current one, and fails
      exactly when the current one does, always with `IndexError`. */
  lemma {:induction false} GetPropertyAgrees(props: seq<Entry>, key: string, isFact: bool)
    ensures GetProperty(props, key, isFact) ==
      match Config.GetProperty(props, key, isFact)
        case Success(p) => Success(p)
        case Failure(_) => Failure(IndexError)
  {
    if |props| > 0 && |props[0]| > 0 && !Matches(props[0][0], key, isFact) {
      GetPropertyAgrees(props[1..], key, isFact);
      assert Filtered(props, key, isFact) == Filtered(props[1..], key, isFact);
    }
  }

  /** One query of `__create_queries`: the behavior prompt, the context with
      the entry's key for `{format}`, the entry's value, and the input. */
  function EntryQuery(behavior: string, context: string, p: Pair, input: string): Query {
    [Message(System, behavior), Message(System, Sub(context, "{format}", p.key)),
     Message(System, p.value), Message(User, "USER_INPUT: " + input)]
  }

  /** The loop of `__create_queries`; `self.behavior["datalog"]["behavior"]`
      is looked up once per entry, before the entry is unpacked. */
  function BuildQueries(pre: seq<Entry>, datalog: map<string, string>, input: string): (r: Result<seq<Query>, Failure>)
    requires "context" in datalog
  {
    if |pre| == 0 then Success([])
    else match BuildQueries(pre[..|pre| - 1], datalog, input)
      case Failure(e) => Failure(e)
      case Success(qs) =>
        var entry := pre[|pre| - 1];
        if "behavior" !in datalog then Failure(KeyError("behavior"))
        else if |entry| == 0 then Failure(IndexError)
        else Success(qs + [EntryQuery(datalog["behavior"], datalog["context"], entry[0], input)])
  }

  /** `__create_queries(user_input)`: the dict it returns, keyed `0..n-1`,
      as the sequence of its values. */
  function CreateQueries(cfg: AppConfig, beh: Behavior, input: string): Result<seq<Query>, Failure> {
    if "datalog" !in beh then Failure(KeyError("datalog"))
    else if "context" !in beh["datalog"] then Failure(KeyError("context"))
    else if cfg.preprocessing.None? then Failure(KeyError("preprocessing"))
    else BuildQueries(cfg.preprocessing.value, beh["datalog"], input)
  }

  lemma {:induction false} BuildQueriesFailureStays(pre: seq<Entry>, i: nat, datalog: map<string, string>, input: string)
    requires "context" in datalog && i <= |pre|
    requires BuildQueries(pre[..i], datalog, input).Failure?
    ensures BuildQueries(pre, datalog, input) == BuildQueries(pre[..i], datalog, input)
  {
    if i < |pre| {
      assert pre[..|pre| - 1][..i] == pre[..i];
      BuildQueriesFailureStays(pre[..|pre| - 1], i, datalog, input);
    } else {
      assert pre[..i] == pre;
    }
  }

  /** One query per preprocessing entry, `_` included, in order, each exactly
      the four messages; the loop raises exactly when some entry is empty
      or (with at least one entry) the behavior prompt is missing. */
  lemma {:induction false} QueriesPerEntry(pre: seq<Entry>, datalog: map<string, string>, input: string)
    requires "context" in datalog
    ensures BuildQueries(pre, datalog, input).Success? <==>
      (|pre| == 0 || "behavior" in datalog) && forall i | 0 <= i < |pre| :: |pre[i]| > 0
    ensures BuildQueries(pre, datalog, input).Success? ==>
      var qs := BuildQueries(pre, datalog, input).value;
      && |qs| == |pre|
      && forall i | 0 <= i < |pre| :: qs[i] == [
        Message(System, datalog["behavior"]),
        Message(System, Sub(datalog["context"], "{format}", pre[i][0].key)),
        Message(System, pre[i][0].value),
        Message(User, "USER_INPUT: " + input)]
  {
    if |pre| > 0 {
      var n := |pre| - 1;
      QueriesPerEntry(pre[..n], datalog, input);
      assert forall i | 0 <= i < n :: pre[..n][i] == pre[i];
    }
  }

  /** What the query loop of `natural_to_asp` accumulates. */
  datatype Progress = Progress(aspInput: string, history: seq<Query>)

  /** The facts of one response: the dotted matches, one per line. */
  function ResponseFacts(text: string): string {
    Join(FindAll(text, true), "\n")
  }

  /** The loop of `natural_to_asp`: the model is asked each query with no
      token limit. */
  function AskAll(reply: (seq<Request>, Request) -> Option<Completion>, log: seq<Request>,
                  qs: seq<Query>): (x: Exchange<Progress>)
    ensures x.outcome.Failure? ==> x.outcome.error == TransportError
  {
    if |qs| == 0 then Exchange(log, Success(Progress("", [])))
    else
      var before := AskAll(reply, log, qs[..|qs| - 1]);
      match before.outcome
        case Failure(e) => before
        case Success(p) =>
          var q := qs[|qs| - 1];
          var request := Request(q, None);
          match reply(before.log, request)
            case None => Exchange(before.log + [request], Failure(TransportError))
            case Some(c) =>
              var facts := ResponseFacts(c.text);
              Exchange(before.log + [request],
                Success(Progress(p.aspInput + "\n" + facts, p.history + [q + [Message(Assistant, facts)]])))
  }

  lemma {:induction false} AskAllFailureStays(reply: (seq<Request>, Request) -> Option<Completion>, log: seq<Request>,
                                              qs: seq<Query>, i: nat)
    requires i <= |qs|
    requires AskAll(reply, log, qs[..i]).outcome.Failure?
    ensures AskAll(reply, log, qs) == AskAll(reply, log, qs[..i])
  {
    if i < |qs| {
      assert qs[..|qs| - 1][..i] == qs[..i];
      AskAllFailureStays(reply, log, qs[..|qs| - 1], i);
    } else {
      assert qs[..i] == qs;
    }
  }

  /** The facts of the reply to query `k`, one per line. */
  function FactsOf(reply: (seq<Request>, Request) -> Option<Completion>, log: seq<Request>,
                   qs: seq<Query>, k: nat): string
    requires k < |qs|
  {
    match Forward.ReplyTo(reply, log, qs, None, k)
      case Some(c) => ResponseFacts(c.text)
      case None => ""
  }

  /** The program part each query contributes: a newline and its facts. */
  function Lines(reply: (seq<Request>, Request) -> Option<Completion>, log: seq<Request>,
                 qs: seq<Query>): seq<string>
  {
    seq(|qs|, i requires 0 <= i < |qs| => "\n" + FactsOf(reply, log, qs, i))
  }

  /** The loop succeeds exactly when every call is answered, and it has
      then made one call per query, in order. */
  lemma {:induction false} AskAllSucceeds(reply: (seq<Request>, Request) -> Option<Completion>, log: seq<Request>,
                                          qs: seq<Query>)
    ensures AskAll(reply, log, qs).outcome.Success? <==> Forward.AnsweredBefore(reply, log, qs, None, |qs|)
    ensures AskAll(reply, log, qs).outcome.Success? ==> AskAll(reply, log, qs).log == log + Forward.Requests(qs, None)
  {
    if |qs| > 0 {
      var n := |qs| - 1;
      AskAllSucceeds(reply, log, qs[..n]);
      Forward.PrefixAgrees(reply, log, qs, None, n);
      Forward.PriorNext(log, qs, None, n);
      assert qs[..n + 1] == qs;
      var before := AskAll(reply, log, qs[..n]);
      if before.outcome.Success? {
        assert before.log == Forward.Prior(log, qs, None, n);
        assert Forward.AnsweredBefore(reply, log, qs, None, n);
        assert AskAll(reply, log, qs).outcome.Success? <==> Forward.ReplyTo(reply, log, qs, None, n).Some?;
      } else {
        var i :| 0 <= i < n && Forward.ReplyTo(reply, log, qs[..n], None, i).None?;
        assert Forward.ReplyTo(reply, log, qs, None, i).None?;
      }
    } else {
      assert Forward.Requests(qs, None) == [];
    }
  }

  lemma LinesStep(reply: (seq<Request>, Request) -> Option<Completion>, log: seq<Request>, qs: seq<Query>)
    requires |qs| > 0
    ensures var n := |qs| - 1;
      Lines(reply, log, qs) == Lines(reply, log, qs[..n]) + ["\n" + FactsOf(reply, log, qs, n)]
  {
    var n := |qs| - 1;
    Forward.PrefixAgrees(reply, log, qs, None, n);
    forall i | 0 <= i < n ensures FactsOf(reply, log, qs[..n], i) == FactsOf(reply, log, qs, i) {}
  }

  /** After a successful loop the program text is, query after query, a
      newline and that reply's facts. */
  lemma {:induction false} AskAllProgram(reply: (seq<Request>, Request) -> Option<Completion>, log: seq<Request>,
                                          qs: seq<Query>)
    requires AskAll(reply, log, qs).outcome.Success?
    ensures AskAll(reply, log, qs).outcome.value.aspInput == Flatten(Lines(reply, log, qs))
  {
    AskAllSucceeds(reply, log, qs);
    if |qs| > 0 {
      var n := |qs| - 1;
      AskAllSucceeds(reply, log, qs[..n]);
      Forward.PrefixAgrees(reply, log, qs, None, n);
      assert qs[..n + 1] == qs;
      AskAllProgram(reply, log, qs[..n]);
      var before := AskAll(reply, log, qs[..n]);
      assert before.log == Forward.Prior(log, qs, None, n);
      var c := Forward.ReplyTo(reply, log, qs, None, n).value;
      assert AskAll(reply, log, qs).outcome.value.aspInput == before.outcome.value.aspInput + ("\n" + ResponseFacts(c.text));
      LinesStep(reply, log, qs);
      FlattenSnoc(Lines(reply, log, qs[..n]), "\n" + FactsOf(reply, log, qs, n));
    } else {
      assert Lines(reply, log, qs) == [];
    }
  }

  /** After a successful loop each query has exactly one assistant message
      appended, holding the facts of its reply. */
  lemma {:induction false} AskAllHistory(reply: (seq<Request>, Request) -> Option<Completion>, log: seq<Request>,
                                          qs: seq<Query>)
    requires AskAll(reply, log, qs).outcome.Success?
    ensures var h := AskAll(reply, log, qs).outcome.value.history;
      && |h| == |qs|
      && forall i | 0 <= i < |qs| :: h[i] == qs[i] + [Message(Assistant, FactsOf(reply, log, qs, i))]
  {
    if |qs| > 0 {
      var n := |qs| - 1;
      AskAllHistory(reply, log, qs[..n]);
      AskAllSucceeds(reply, log, qs[..n]);
      Forward.PrefixAgrees(reply, log, qs, None, n);
      assert qs[..n + 1] == qs;
      var before := AskAll(reply, log, qs[..n]);
      var hb := before.outcome.value.history;
      assert before.log == Forward.Prior(log, qs, None, n);
      var c := Forward.ReplyTo(reply, log, qs, None, n).value;
      var h := AskAll(reply, log, qs).outcome.value.history;
      assert h == hb + [qs[n] + [Message(Assistant, ResponseFacts(c.text))]];
      forall i | 0 <= i < n ensures h[i] == qs[i] + [Message(Assistant, FactsOf(reply, log, qs, i))] {
        assert h[i] == hb[i];
        assert qs[..n][i] == qs[i];
      }
    }
  }

  /** `natural_to_asp(user_input)`: `(asp_input, queries)`.  With no query,
      `print(facts)` meets a name the loop never bound. */
  function NaturalToAsp(cfg: AppConfig, beh: Behavior,
                        reply: (seq<Request>, Request) -> Option<Completion>, log: seq<Request>,
                        input: string): Exchange<Progress>
  {
    match CreateQueries(cfg, beh, input)
      case Failure(e) => Exchange(log, Failure(e))
      case Success(qs) =>
        var x := AskAll(reply, log, qs);
        match x.outcome
          case Failure(e) => x
          case Success(p) =>
            if |qs| == 0 then Exchange(x.log, Failure(UnboundLocalError("facts")))
            else if cfg.knowledgeBase.None? then Exchange(x.log, Failure(KeyError("knowledge_base")))
            else Exchange(x.log, Success(Progress(p.aspInput + "\n" + cfg.knowledgeBase.value, p.history)))
  }

  /** A successful forward translation calls the model once per query, in
      order; its program is, per query, a newline and that reply's dotted
      facts, then a newline and the knowledge base. */
  lemma NaturalToAspProgram(cfg: AppConfig, beh: Behavior,
                            reply: (seq<Request>, Request) -> Option<Completion>, log: seq<Request>, input: string)
    requires NaturalToAsp(cfg, beh, reply, log, input).outcome.Success?
    ensures CreateQueries(cfg, beh, input).Success? && cfg.knowledgeBase.Some?
    ensures var qs := CreateQueries(cfg, beh, input).value;
      var x := NaturalToAsp(cfg, beh, reply, log, input);
      && |qs| > 0
      && x.log == log + Forward.Requests(qs, None)
      && x.outcome.value.aspInput == Flatten(Lines(reply, log, qs)) + "\n" + cfg.knowledgeBase.value
      && |x.outcome.value.history| == |qs|
  {
    var qs := CreateQueries(cfg, beh, input).value;
    AskAllSucceeds(reply, log, qs);
    AskAllProgram(reply, log, qs);
    AskAllHistory(reply, log, qs);
  }

  /** Without preprocessing entries the forward translation raises at
      `print(facts)`, before the knowledge base is read. */
  lemma NoEntriesUnbound(cfg: AppConfig, beh: Behavior,
                         reply: (seq<Request>, Request) -> Option<Completion>, log: seq<Request>, input: string)
    requires "datalog" in beh && "context" in beh["datalog"]
    requires cfg.preprocessing == Some([])
    ensures NaturalToAsp(cfg, beh, reply, log, input) == Exchange(log, Failure(UnboundLocalError("facts")))
  {
  }

  /** Each match of the older pattern ends in `).`. */
  lemma DottedFactsEnd(text: string)
    ensures forall f | f in FindAll(text, true) :: |f| >= 4 && f[|f| - 2..] == ")."
  {
    ScanShape(text, false, true);
    forall f | f in FindAll(text, true) ensures |f| >= 4 && f[|f| - 2..] == ")." {
      DottedEnd(f);
    }
  }

  /** `fact_translation` for a group: `{fact}` replaced in the entry's key
      by the translation carried from the group before, then `{meaning}`
      replaced in the entry's value by that. */
  function NextTranslation(p: Pair, carried: Plain): Plain {
    Sub(p.value, "{meaning}", Sub(p.key, "{fact}", carried))
  }

  /** The translation carried through the groups `names`, in order,
      starting from the `translation` entry's value: a group whose name has
      no postprocessing entry would raise, so a successful loop never
      takes the second branch. */
  function CarriedThrough(post: seq<Entry>, names: seq<string>, first: Plain): Plain {
    if |names| == 0 then first
    else
      var prev := CarriedThrough(post, names[..|names| - 1], first);
      match GetProperty(post, names[|names| - 1], true)
        case Success(p) => NextTranslation(p, prev)
        case Failure(_) => prev
  }

  /** `"[FACTS]" + "\n".join(group) + "[/FACTS]"`. */
  function FactsBlock(facts: seq<Plain>): string {
    "[FACTS]" + Join(facts, "\n") + "[/FACTS]"
  }

  /** The request for group `k`. */
  function GroupRequest(history: Query, context: string, translation: string, facts: seq<Plain>): Request {
    Request(history + [Message(System, context), Message(System, translation), Message(User, FactsBlock(facts))], None)
  }

  /** What the group loop accumulates: the replies and the translation. */
  datatype Narrated = Narrated(responses: seq<string>, translation: Plain)

  predicate Covers(names: seq<string>, members: map<string, seq<Plain>>) {
    forall i | 0 <= i < |names| :: names[i] in members
  }

  /** The loop of `asp_to_natural` over the groups. */
  function NarrateGroups(post: seq<Entry>, reply: (seq<Request>, Request) -> Option<Completion>, log: seq<Request>,
                         names: seq<string>, members: map<string, seq<Plain>>,
                         history: Query, context: string, first: Plain): (x: Exchange<Narrated>)
    requires Covers(names, members)
  {
    if |names| == 0 then Exchange(log, Success(Narrated([], first)))
    else
      var n := |names| - 1;
      var before := NarrateGroups(post, reply, log, names[..n], members, history, context, first);
      match before.outcome
        case Failure(e) => before
        case Success(b) =>
          match GetProperty(post, names[n], true)
            case Failure(e) => Exchange(before.log, Failure(e))
            case Success(p) =>
              var translation := NextTranslation(p, b.translation);
              var request := GroupRequest(history, context, translation, members[names[n]]);
              match reply(before.log, request)
                case None => Exchange(before.log + [request], Failure(TransportError))
                case Some(c) => Exchange(before.log + [request], Success(Narrated(b.responses + [c.text], translation)))
  }

  lemma {:induction false} NarrateGroupsFailureStays(post: seq<Entry>, reply: (seq<Request>, Request) -> Option<Completion>,
                                                     log: seq<Request>, names: seq<string>, i: nat,
                                                     members: map<string, seq<Plain>>, history: Query, context: string, first: Plain)
    requires Covers(names, members) && i <= |names|
    requires NarrateGroups(post, reply, log, names[..i], members, history, context, first).outcome.Failure?
    ensures NarrateGroups(post, reply, log, names, members, history, context, first)
      == NarrateGroups(post, reply, log, names[..i], members, history, context, first)
  {
    if i < |names| {
      assert names[..|names| - 1][..i] == names[..i];
      NarrateGroupsFailureStays(post, reply, log, names[..|names| - 1], i, members, history, context, first);
    } else {
      assert names[..i] == names;
    }
  }

  /** After a successful loop the translation is the one carried through
      every group. */
  lemma {:induction false} NarrateGroupsTranslation(post: seq<Entry>, reply: (seq<Request>, Request) -> Option<Completion>,
                                                    log: seq<Request>, names: seq<string>,
                                                    members: map<string, seq<Plain>>, history: Query, context: string, first: Plain)
    requires Covers(names, members)
    requires NarrateGroups(post, reply, log, names, members, history, context, first).outcome.Success?
    ensures NarrateGroups(post, reply, log, names, members, history, context, first).outcome.value.translation
      == CarriedThrough(post, names, first)
  {
    if |names| > 0 {
      NarrateGroupsTranslation(post, reply, log, names[..|names| - 1], members, history, context, first);
    }
  }

  /** The calls the group loop is expected to make: for each group, the
      history, the context, the translation carried through that group and
      the group's facts. */
  function GroupRequests(post: seq<Entry>, names: seq<string>, members: map<string, seq<Plain>>,
                         history: Query, context: string, first: Plain): (rs: seq<Request>)
    requires Covers(names, members)
    ensures |rs| == |names|
    ensures forall i | 0 <= i < |rs| :: |rs[i].messages| == |history| + 3 && rs[i].messages[..|history|] == history
  {
    if |names| == 0 then []
    else
      var n := |names| - 1;
      var request := GroupRequest(history, context, CarriedThrough(post, names, first), members[names[n]]);
      assert request.messages[..|history|] == history;
      GroupRequests(post, names[..n], members, history, context, first) + [request]
  }

  /** A successful loop makes exactly the expected calls, in order, and
      collects one reply per group. */
  lemma {:induction false} NarrateGroupsCalls(post: seq<Entry>, reply: (seq<Request>, Request) -> Option<Completion>,
                                              log: seq<Request>, names: seq<string>,
                                              members: map<string, seq<Plain>>, history: Query, context: string, first: Plain)
    requires Covers(names, members)
    requires NarrateGroups(post, reply, log, names, members, history, context, first).outcome.Success?
    ensures var x := NarrateGroups(post, reply, log, names, members, history, context, first);
      x.log == log + GroupRequests(post, names, members, history, context, first)
  {
    if |names| > 0 {
      var n := |names| - 1;
      var before := NarrateGroups(post, reply, log, names[..n], members, history, context, first);
      NarrateGroupsCalls(post, reply, log, names[..n], members, history, context, first);
      NarrateGroupsTranslation(post, reply, log, names[..n], members, history, context, first);
      var p := GetProperty(post, names[n], true).value;
      var t := NextTranslation(p, before.outcome.value.translation);
      assert t == CarriedThrough(post, names, first);
      var request := GroupRequest(history, context, t, members[names[n]]);
      var x := NarrateGroups(post, reply, log, names, members, history, context, first);
      assert x.log == before.log + [request];
      AppendAssoc(log, GroupRequests(post, names[..n], members, history, context, first), [request]);
    }
  }

  /** The replies a successful loop collects are the model's answers to
      those calls, in order. */
  lemma {:induction false} NarrateGroupsReplies(post: seq<Entry>, reply: (seq<Request>, Request) -> Option<Completion>,
                                                log: seq<Request>, names: seq<string>,
                                                members: map<string, seq<Plain>>, history: Query, context: string, first: Plain)
    requires Covers(names, members)
    requires NarrateGroups(post, reply, log, names, members, history, context, first).outcome.Success?
    ensures var calls := GroupRequests(post, names, members, history, context, first);
      Answers(reply, log, calls) == Some(NarrateGroups(post, reply, log, names, members, history, context, first).outcome.value.responses)
  {
    if |names| > 0 {
      var n := |names| - 1;
      var before := NarrateGroups(post, reply, log, names[..n], members, history, context, first);
      NarrateGroupsReplies(post, reply, log, names[..n], members, history, context, first);
      NarrateGroupsCalls(post, reply, log, names[..n], members, history, context, first);
      NarrateGroupsTranslation(post, reply, log, names[..n], members, history, context, first);
      var prior := GroupRequests(post, names[..n], members, history, context, first);
      var p := GetProperty(post, names[n], true).value;
      var t := NextTranslation(p, before.outcome.value.translation);
      assert t == CarriedThrough(post, names, first);
      var request := GroupRequest(history, context, t, members[names[n]]);
      assert GroupRequests(post, names, members, history, context, first) == prior + [request];
      assert (prior + [request])[..n] == prior;
    }
  }

  /** What `asp_to_natural` reads before its loop: the postprocessing
      entries, the context with the `_` value for `{format}`, the `summary`
      value and the first `translation` value. */
  datatype Setting = Setting(post: seq<Entry>, context: string, summary: Plain, first: Plain)

  function Settings(cfg: AppConfig, beh: Behavior): Result<Setting, Failure> {
    if "natural-language" !in beh then Failure(KeyError("natural-language"))
    else if "context" !in beh["natural-language"] then Failure(KeyError("context"))
    else if cfg.postprocessing.None? then Failure(KeyError("postprocessing"))
    else
      var post := cfg.postprocessing.value;
      var format := GetProperty(post, "_", false);
      var summary := GetProperty(post, "summary", false);
      var translation := GetProperty(post, "translation", false);
      if format.Failure? then Failure(format.error)
      else if summary.Failure? then Failure(summary.error)
      else if translation.Failure? then Failure(translation.error)
      else Success(Setting(post, Sub(beh["natural-language"]["context"], "{format}", format.value.value),
                           summary.value.value, translation.value.value))
  }

  /** `asp_to_natural(history, facts)`: the reply to the final call. */
  function AspToNatural(cfg: AppConfig, beh: Behavior,
                        reply: (seq<Request>, Request) -> Option<Completion>, log: seq<Request>,
                        history: seq<Query>, facts: seq<Plain>): Exchange<string>
  {
    var g := Grouped(facts);
    match Settings(cfg, beh)
      case Failure(e) => Exchange(log, Failure(e))
      case Success(s) =>
        var x := NarrateGroups(s.post, reply, log, g.names, g.members, Flatten(history), s.context, s.first);
        match x.outcome
          case Failure(e) => Exchange(x.log, Failure(e))
          case Success(b) =>
            var request := Request([Message(User, FinalPrompt(b.responses, s.summary))], None);
            match reply(x.log, request)
              case None => Exchange(x.log + [request], Failure(TransportError))
              case Some(c) => Exchange(x.log + [request], Success(c.text))
  }

  /** `re.sub(r"\{response\}", final_response, "\n".join(responses))`: the
      `summary` value put in place of `{response}` in the joined replies. */
  function FinalPrompt(responses: seq<string>, summary: Plain): string {
    Sub(Join(responses, "\n"), "{response}", summary)
  }

  /** A successful backward translation read its settings, made every
      group's request in order, each with the translation carried through
      that group, and then the final call of the replies joined with the
      `summary` value in place of `{response}`; the result is the reply to
      that last call. */
  lemma AspToNaturalCalls(cfg: AppConfig, beh: Behavior,
                          reply: (seq<Request>, Request) -> Option<Completion>, log: seq<Request>,
                          history: seq<Query>, facts: seq<Plain>)
    requires AspToNatural(cfg, beh, reply, log, history, facts).outcome.Success?
    ensures Settings(cfg, beh).Success?
    ensures var s := Settings(cfg, beh).value;
      var g := Grouped(facts);
      Answers(reply, log, GroupRequests(s.post, g.names, g.members, Flatten(history), s.context, s.first)).Some?
    ensures var x := AspToNatural(cfg, beh, reply, log, history, facts);
      var s := Settings(cfg, beh).value;
      var g := Grouped(facts);
      var calls := GroupRequests(s.post, g.names, g.members, Flatten(history), s.context, s.first);
      var last := Request([Message(User, FinalPrompt(Answers(reply, log, calls).value, s.summary))], None);
      && x.log == log + calls + [last]
      && reply(log + calls, last).Some? && reply(log + calls, last).value.text == x.outcome.value
  {
    var g := Grouped(facts);
    var s := Settings(cfg, beh).value;
    var x := NarrateGroups(s.post, reply, log, g.names, g.members, Flatten(history), s.context, s.first);
    assert x.outcome.Success?;
    NarrateGroupsCalls(s.post, reply, log, g.names, g.members, Flatten(history), s.context, s.first);
    NarrateGroupsReplies(s.post, reply, log, g.names, g.members, Flatten(history), s.context, s.first);
    var last := Request([Message(User, FinalPrompt(x.outcome.value.responses, s.summary))], None);
    assert reply(x.log, last).Some?;
    assert AspToNatural(cfg, beh, reply, log, history, facts) == Exchange(x.log + [last], Success(reply(x.log, last).value.text));
  }

  /** A successful backward translation makes one call per group, each the
      flattened history followed by exactly three messages, then one final
      call of a single user message. */
  lemma AspToNaturalShape(cfg: AppConfig, beh: Behavior,
                          reply: (seq<Request>, Request) -> Option<Completion>, log: seq<Request>,
                          history: seq<Query>, facts: seq<Plain>)
    requires AspToNatural(cfg, beh, reply, log, history, facts).outcome.Success?
    ensures var x := AspToNatural(cfg, beh, reply, log, history, facts);
      var groups := |Grouped(facts).names|;
      && |x.log| == |log| + groups + 1 && x.log[..|log|] == log
      && (forall i | |log| <= i < |log| + groups ::
            |x.log[i].messages| == |Flatten(history)| + 3 && x.log[i].messages[..|Flatten(history)|] == Flatten(history))
      && |x.log[|x.log| - 1].messages| == 1 && x.log[|x.log| - 1].messages[0].role == User
  {
    AspToNaturalCalls(cfg, beh, reply, log, history, facts);
    var g := Grouped(facts);
    var s := Settings(cfg, beh).value;
    var calls := GroupRequests(s.post, g.names, g.members, Flatten(history), s.context, s.first);
    var last := Request([Message(User, FinalPrompt(Answers(reply, log, calls).value, s.summary))], None);
    LogShape(log, calls, last, Flatten(history));
  }

  /** The carried translation matters only through `{fact}` in the key: a
      key without it gives the same translation whatever is carried. */
  lemma CarriedTranslationUnused(p: Pair, c1: Plain, c2: Plain)
    requires !Occurs(p.key, "{fact}")
    ensures NextTranslation(p, c1) == NextTranslation(p, c2) == Sub(p.value, "{meaning}", p.key)
  {
    SubAbsent(p.key, "{fact}", c1);
    SubAbsent(p.key, "{fact}", c2);
  }

  /** With the key `{fact}` and the value `{meaning}`, the carried
      translation passes through unchanged to the next group. */
  lemma CarriedTranslationKept(carried: Plain)
    ensures NextTranslation(Pair("{fact}", "{meaning}"), carried) == carried
  {
    SubWhole("{fact}", carried);
    SubWhole("{meaning}", carried);
  }

  /** What a run leaves behind: the model and solver logs and the printed
      response, or the exception that escaped. */
  datatype Trace = Trace(llmLog: seq<Request>, solverLog: seq<string>, result: Result<string, Failure>)

  /** `run()`, with the line read by `input("input: ")` as a parameter and
      `asp_to_natural` given an empty history. */
  function RunTrace(cfg: AppConfig, beh: Behavior,
                    reply: (seq<Request>, Request) -> Option<Completion>, llmLog: seq<Request>,
                    answer: (seq<string>, string) -> Option<Solution>, solverLog: seq<string>,
                    input: string): Trace
  {
    var forward := NaturalToAsp(cfg, beh, reply, llmLog, input);
    match forward.outcome
      case Failure(e) => Trace(forward.log, solverLog, Failure(e))
      case Success(p) =>
        var solved := solverLog + [p.aspInput];
        match answer(solverLog, p.aspInput)
          case None => Trace(forward.log, solved, Failure(GroundingError))
          case Some(solution) =>
            var backward := AspToNatural(cfg, beh, reply, forward.log, [], solution.facts);
            Trace(backward.log, solved, backward.outcome)
  }

  /** In a successful run every group call is exactly three messages, since
      the history passed back is empty, and the solver is called once. */
  lemma RunGroupCalls(cfg: AppConfig, beh: Behavior,
                      reply: (seq<Request>, Request) -> Option<Completion>, llmLog: seq<Request>,
                      answer: (seq<string>, string) -> Option<Solution>, solverLog: seq<string>, input: string)
    requires RunTrace(cfg, beh, reply, llmLog, answer, solverLog, input).result.Success?
    ensures NaturalToAsp(cfg, beh, reply, llmLog, input).outcome.Success?
    ensures var forward := NaturalToAsp(cfg, beh, reply, llmLog, input);
      var solution := answer(solverLog, forward.outcome.value.aspInput);
      var t := RunTrace(cfg, beh, reply, llmLog, answer, solverLog, input);
      && solution.Some?
      && t.solverLog == solverLog + [forward.outcome.value.aspInput]
      && |t.llmLog| == |forward.log| + |Grouped(solution.value.facts).names| + 1
      && forall i | |forward.log| <= i < |t.llmLog| - 1 :: |t.llmLog[i].messages| == 3
  {
    var forward := NaturalToAsp(cfg, beh, reply, llmLog, input);
    var solution := answer(solverLog, forward.outcome.value.aspInput).value;
    AspToNaturalShape(cfg, beh, reply, forward.log, [], solution.facts);
    assert Flatten<Message>([]) == [];
  }
}
