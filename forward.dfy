/** `natural_to_asp`: ask the model every query, extract the facts of each
    answer, and assemble the logic program. */
module Forward {
  import opened Wrappers
  import opened Strings
  import opened Errors
  import opened Config
  import opened Oracles
  import opened Facts
  import opened Queries

  /** A query after `query.append(prompt("assistant", "\n".join(facts)))`. */
  function Answered(q: Query, facts: seq<string>): Query {
    q + [Message(Assistant, Join(facts, "\n"))]
  }

  /** What the query loop gathers: every extracted fact, the answered
      queries, and the metadata of the last call. */
  datatype Gathered = Gathered(facts: seq<string>, history: seq<Query>, meta: Option<Usage>)

  /** The loop of `natural_to_asp` over the queries. */
  function AskAll(reply: (seq<Request>, Request) -> Option<Completion>, log: seq<Request>,
                  qs: seq<Query>, maxTokens: Option<nat>): (x: Exchange<Gathered>)
    ensures x.outcome.Failure? ==> x.outcome.error == TransportError
  {
    if |qs| == 0 then Exchange(log, Success(Gathered([], [], None)))
    else
      var before := AskAll(reply, log, qs[..|qs| - 1], maxTokens);
      match before.outcome
        case Failure(e) => before
        case Success(g) =>
          var q := qs[|qs| - 1];
          var request := Request(q, maxTokens);
          match reply(before.log, request)
            case None => Exchange(before.log + [request], Failure(TransportError))
            case Some(c) =>
              var facts := Extract(c.text);
              Exchange(before.log + [request],
                Success(Gathered(g.facts + facts, g.history + [Answered(q, facts)], Some(c.meta))))
  }

  /** Once the loop has raised, later queries change nothing. */
  lemma {:induction false} AskAllFailureStays(reply: (seq<Request>, Request) -> Option<Completion>, log: seq<Request>,
                                              qs: seq<Query>, i: nat, maxTokens: Option<nat>)
    requires i <= |qs|
    requires AskAll(reply, log, qs[..i], maxTokens).outcome.Failure?
    ensures AskAll(reply, log, qs, maxTokens) == AskAll(reply, log, qs[..i], maxTokens)
  {
    if i < |qs| {
      assert qs[..|qs| - 1][..i] == qs[..i];
      AskAllFailureStays(reply, log, qs[..|qs| - 1], i, maxTokens);
    } else {
      assert qs[..i] == qs;
    }
  }

  /** The requests for the queries, in order. */
  function Requests(qs: seq<Query>, maxTokens: Option<nat>): seq<Request> {
    seq(|qs|, i requires 0 <= i < |qs| => Request(qs[i], maxTokens))
  }

  /** One more query after a successful prefix: the loop asks it and
      either raises or adds its reply's facts, its answered query and its
      metadata. */
  lemma AskAllNext(reply: (seq<Request>, Request) -> Option<Completion>, log: seq<Request>,
                   qs: seq<Query>, i: nat, maxTokens: Option<nat>)
    requires i < |qs|
    requires AskAll(reply, log, qs[..i], maxTokens).outcome.Success?
    ensures var before := AskAll(reply, log, qs[..i], maxTokens);
      var g := before.outcome.value;
      var request := Request(qs[i], maxTokens);
      AskAll(reply, log, qs[..i + 1], maxTokens) == match reply(before.log, request)
        case None => Exchange(before.log + [request], Failure(TransportError))
        case Some(c) => Exchange(before.log + [request],
          Success(Gathered(g.facts + Extract(c.text), g.history + [Answered(qs[i], Extract(c.text))], Some(c.meta))))
  {
    assert qs[..i + 1][..i] == qs[..i] && qs[..i + 1][i] == qs[i];
  }

  /** The log when query `k` is asked, if all before it were answered. */
  function Prior(log: seq<Request>, qs: seq<Query>, maxTokens: Option<nat>, k: nat): seq<Request>
    requires k <= |qs|
  {
    log + Requests(qs[..k], maxTokens)
  }

  /** The model's reply to query `k`. */
  function ReplyTo(reply: (seq<Request>, Request) -> Option<Completion>, log: seq<Request>,
                   qs: seq<Query>, maxTokens: Option<nat>, k: nat): Option<Completion>
    requires k < |qs|
  {
    reply(Prior(log, qs, maxTokens, k), Request(qs[k], maxTokens))
  }

  /** The facts extracted from the reply to query `k`. */
  function ChunkOf(reply: (seq<Request>, Request) -> Option<Completion>, log: seq<Request>,
                   qs: seq<Query>, maxTokens: Option<nat>, k: nat): seq<string>
    requires k < |qs|
  {
    match ReplyTo(reply, log, qs, maxTokens, k)
      case Some(c) => Extract(c.text)
      case None => []
  }

  /** The metadata of the reply to query `k`. */
  function MetaOf(reply: (seq<Request>, Request) -> Option<Completion>, log: seq<Request>,
                  qs: seq<Query>, maxTokens: Option<nat>, k: nat): Option<Usage>
    requires k < |qs|
  {
    match ReplyTo(reply, log, qs, maxTokens, k)
      case Some(c) => Some(c.meta)
      case None => None
  }

  /** Every query before `k` is answered. */
  predicate AnsweredBefore(reply: (seq<Request>, Request) -> Option<Completion>, log: seq<Request>,
                           qs: seq<Query>, maxTokens: Option<nat>, k: nat)
    requires k <= |qs|
  {
    forall i | 0 <= i < k :: ReplyTo(reply, log, qs, maxTokens, i).Some?
  }

  lemma PrefixAgrees(reply: (seq<Request>, Request) -> Option<Completion>, log: seq<Request>,
                     qs: seq<Query>, maxTokens: Option<nat>, n: nat)
    requires n <= |qs|
    ensures forall i | 0 <= i <= n :: Prior(log, qs[..n], maxTokens, i) == Prior(log, qs, maxTokens, i)
    ensures forall i | 0 <= i < n :: ReplyTo(reply, log, qs[..n], maxTokens, i) == ReplyTo(reply, log, qs, maxTokens, i)
    ensures forall i | 0 <= i < n :: ChunkOf(reply, log, qs[..n], maxTokens, i) == ChunkOf(reply, log, qs, maxTokens, i)
  {
    forall i | 0 <= i <= n ensures Prior(log, qs[..n], maxTokens, i) == Prior(log, qs, maxTokens, i) {
      assert qs[..n][..i] == qs[..i];
    }
  }

  lemma PriorNext(log: seq<Request>, qs: seq<Query>, maxTokens: Option<nat>, k: nat)
    requires k < |qs|
    ensures Prior(log, qs, maxTokens, k + 1) == Prior(log, qs, maxTokens, k) + [Request(qs[k], maxTokens)]
  {
    assert Requests(qs[..k + 1], maxTokens) == Requests(qs[..k], maxTokens) + [Request(qs[k], maxTokens)];
  }

  /** The loop succeeds exactly when every call is answered, and then it
      has made one call per query, in order. */
  lemma {:induction false} AskAllSucceeds(reply: (seq<Request>, Request) -> Option<Completion>, log: seq<Request>,
                                          qs: seq<Query>, maxTokens: Option<nat>)
    ensures AskAll(reply, log, qs, maxTokens).outcome.Success? <==> AnsweredBefore(reply, log, qs, maxTokens, |qs|)
    ensures AskAll(reply, log, qs, maxTokens).outcome.Success? ==>
      AskAll(reply, log, qs, maxTokens).log == log + Requests(qs, maxTokens)
  {
    if |qs| > 0 {
      var n := |qs| - 1;
      AskAllSucceeds(reply, log, qs[..n], maxTokens);
      PrefixAgrees(reply, log, qs, maxTokens, n);
      PriorNext(log, qs, maxTokens, n);
      assert qs[..n + 1] == qs;
      var before := AskAll(reply, log, qs[..n], maxTokens);
      if before.outcome.Success? {
        AskAllNext(reply, log, qs, n, maxTokens);
        assert before.log == Prior(log, qs, maxTokens, n);
        assert AnsweredBefore(reply, log, qs, maxTokens, n);
        assert AskAll(reply, log, qs, maxTokens).outcome.Success? <==> ReplyTo(reply, log, qs, maxTokens, n).Some?;
      } else {
        var i :| 0 <= i < n && ReplyTo(reply, log, qs[..n], maxTokens, i).None?;
        assert ReplyTo(reply, log, qs, maxTokens, i).None?;
      }
    } else {
      assert Requests(qs, maxTokens) == [];
    }
  }

  /** A failed loop stopped at the first call that raised: every query
      before it was answered, and no query after it was asked. */
  lemma {:induction false} AskAllStops(reply: (seq<Request>, Request) -> Option<Completion>, log: seq<Request>,
                                       qs: seq<Query>, maxTokens: Option<nat>) returns (k: nat)
    requires AskAll(reply, log, qs, maxTokens).outcome.Failure?
    ensures k < |qs| && AnsweredBefore(reply, log, qs, maxTokens, k)
    ensures ReplyTo(reply, log, qs, maxTokens, k).None?
    ensures AskAll(reply, log, qs, maxTokens).log == Prior(log, qs, maxTokens, k + 1)
  {
    var n := |qs| - 1;
    PrefixAgrees(reply, log, qs, maxTokens, n);
    if AskAll(reply, log, qs[..n], maxTokens).outcome.Failure? {
      k := AskAllStops(reply, log, qs[..n], maxTokens);
    } else {
      AskAllSucceeds(reply, log, qs[..n], maxTokens);
      k := n;
      PriorNext(log, qs, maxTokens, n);
    }
  }

  /** The facts of every reply, query by query. */
  function Chunks(reply: (seq<Request>, Request) -> Option<Completion>, log: seq<Request>,
                  qs: seq<Query>, maxTokens: Option<nat>): seq<seq<string>>
  {
    seq(|qs|, i requires 0 <= i < |qs| => ChunkOf(reply, log, qs, maxTokens, i))
  }

  /** After a successful loop, query `i` of the history is query `i` with
      exactly one assistant message appended, holding the facts extracted
      from the `i`-th reply. */
  lemma {:induction false} AskAllHistory(reply: (seq<Request>, Request) -> Option<Completion>, log: seq<Request>,
                                         qs: seq<Query>, maxTokens: Option<nat>)
    requires AskAll(reply, log, qs, maxTokens).outcome.Success?
    ensures var g := AskAll(reply, log, qs, maxTokens).outcome.value;
      && |g.history| == |qs|
      && forall i | 0 <= i < |qs| :: g.history[i] == Answered(qs[i], ChunkOf(reply, log, qs, maxTokens, i))
  {
    if |qs| > 0 {
      var n := |qs| - 1;
      assert qs[..n + 1] == qs;
      AskAllSucceeds(reply, log, qs[..n], maxTokens);
      AskAllNext(reply, log, qs, n, maxTokens);
      PrefixAgrees(reply, log, qs, maxTokens, n);
      AskAllHistory(reply, log, qs[..n], maxTokens);
      var before := AskAll(reply, log, qs[..n], maxTokens);
      var h := before.outcome.value.history;
      assert before.log == Prior(log, qs, maxTokens, n);
      var g := AskAll(reply, log, qs, maxTokens).outcome.value;
      assert g.history == h + [Answered(qs[n], ChunkOf(reply, log, qs, maxTokens, n))];
      forall i | 0 <= i < n ensures g.history[i] == Answered(qs[i], ChunkOf(reply, log, qs, maxTokens, i)) {
        assert g.history[i] == h[i];
        assert qs[..n][i] == qs[i];
      }
    }
  }

  lemma ChunksStep(reply: (seq<Request>, Request) -> Option<Completion>, log: seq<Request>,
                   qs: seq<Query>, maxTokens: Option<nat>)
    requires |qs| > 0
    ensures var n := |qs| - 1;
      Chunks(reply, log, qs, maxTokens) == Chunks(reply, log, qs[..n], maxTokens) + [ChunkOf(reply, log, qs, maxTokens, n)]
  {
    PrefixAgrees(reply, log, qs, maxTokens, |qs| - 1);
  }

  /** After a successful loop the facts are those extracted from every
      reply, in order. */
  lemma {:induction false} AskAllFacts(reply: (seq<Request>, Request) -> Option<Completion>, log: seq<Request>,
                                         qs: seq<Query>, maxTokens: Option<nat>)
    requires AskAll(reply, log, qs, maxTokens).outcome.Success?
    ensures AskAll(reply, log, qs, maxTokens).outcome.value.facts == Flatten(Chunks(reply, log, qs, maxTokens))
  {
    AskAllSucceeds(reply, log, qs, maxTokens);
    if |qs| > 0 {
      var n := |qs| - 1;
      assert qs[..n + 1] == qs;
      AskAllSucceeds(reply, log, qs[..n], maxTokens);
      AskAllNext(reply, log, qs, n, maxTokens);
      AskAllFacts(reply, log, qs[..n], maxTokens);
      var before := AskAll(reply, log, qs[..n], maxTokens);
      assert before.log == Prior(log, qs, maxTokens, n);
      assert AskAll(reply, log, qs, maxTokens).outcome.value.facts
        == before.outcome.value.facts + ChunkOf(reply, log, qs, maxTokens, n);
      ChunksStep(reply, log, qs, maxTokens);
      FlattenSnoc(Chunks(reply, log, qs[..n], maxTokens), ChunkOf(reply, log, qs, maxTokens, n));
    } else {
      assert Chunks(reply, log, qs, maxTokens) == [];
    }
  }

  /** After a successful loop the metadata is that of the last reply, or
      `None` with no query. */
  lemma {:induction false} AskAllMeta(reply: (seq<Request>, Request) -> Option<Completion>, log: seq<Request>,
                                         qs: seq<Query>, maxTokens: Option<nat>)
    requires AskAll(reply, log, qs, maxTokens).outcome.Success?
    ensures AskAll(reply, log, qs, maxTokens).outcome.value.meta
      == if |qs| == 0 then None else MetaOf(reply, log, qs, maxTokens, |qs| - 1)
  {
    AskAllSucceeds(reply, log, qs, maxTokens);
    if |qs| > 0 {
      var n := |qs| - 1;
      AskAllSucceeds(reply, log, qs[..n], maxTokens);
      assert qs[..n + 1] == qs;
    }
  }

  /** Every fact gathered has the extracted shape, so the facts text is
      extracted back to the same facts. */
  lemma GatheredFactsRecoverable(reply: (seq<Request>, Request) -> Option<Completion>, log: seq<Request>,
                                 qs: seq<Query>, maxTokens: Option<nat>)
    requires AskAll(reply, log, qs, maxTokens).outcome.Success?
    ensures var g := AskAll(reply, log, qs, maxTokens).outcome.value;
      Extract(Join(g.facts, "\n")) == g.facts
  {
    var g := AskAll(reply, log, qs, maxTokens).outcome.value;
    GatheredShape(reply, log, qs, maxTokens);
    ExtractJoined(g.facts);
  }

  lemma {:induction false} GatheredShape(reply: (seq<Request>, Request) -> Option<Completion>, log: seq<Request>,
                                         qs: seq<Query>, maxTokens: Option<nat>)
    requires AskAll(reply, log, qs, maxTokens).outcome.Success?
    ensures forall f | f in AskAll(reply, log, qs, maxTokens).outcome.value.facts :: Matched(f, true)
  {
    if |qs| > 0 {
      var n := |qs| - 1;
      var before := AskAll(reply, log, qs[..n], maxTokens);
      GatheredShape(reply, log, qs[..n], maxTokens);
      var c := reply(before.log, Request(qs[n], maxTokens)).value;
      ExtractShape(c.text);
    }
  }

  /** `asp_input`: the facts, the database and the knowledge base, one after
      the other on their own lines. */
  function Program(factsText: string, database: string, knowledgeBase: string): string {
    factsText + "\n" + database + "\n" + knowledgeBase
  }

  /** `(created_facts_str, asp_input, queries, meta)`. */
  datatype Translation = Translation(facts: string, program: string, history: seq<Query>, meta: Option<Usage>)

  /** `natural_to_asp(user_input, single_pass, max_tokens)`; every error is
      re-raised as `Failed to convert natural language to ASP`. */
  function NaturalToAsp(cfg: AppConfig, beh: Behavior, database: string,
                        reply: (seq<Request>, Request) -> Option<Completion>, log: seq<Request>,
                        input: Plain, singlePass: bool, maxTokens: Option<nat>): (x: Exchange<Translation>)
    requires WellFormed(cfg, beh)
    ensures x.outcome.Failure? ==> exists e :: x.outcome.error == Wrap(ConvertingToAsp, e)
  {
    match QueriesFor(cfg, beh, input, singlePass)
      case Failure(e) => Exchange(log, Failure(Wrap(ConvertingToAsp, e)))
      case Success(qs) =>
        var x := AskAll(reply, log, qs, maxTokens);
        match x.outcome
          case Failure(e) => Exchange(x.log, Failure(Wrap(ConvertingToAsp, e)))
          case Success(g) =>
            var factsText := Join(g.facts, "\n");
            Exchange(x.log, Success(Translation(factsText, Program(factsText, database, cfg.knowledgeBase.value), g.history, g.meta)))
  }

  /** What a successful loop gathers, all at once: one call per query in
      order, the facts of every reply (which extract back to themselves),
      every query answered once, and nothing at all with no query. */
  lemma AskAllAnswered(reply: (seq<Request>, Request) -> Option<Completion>, log: seq<Request>,
                       qs: seq<Query>, maxTokens: Option<nat>)
    requires AskAll(reply, log, qs, maxTokens).outcome.Success?
    ensures var x := AskAll(reply, log, qs, maxTokens);
      var g := x.outcome.value;
      && x.log == log + Requests(qs, maxTokens)
      && g.facts == Flatten(Chunks(reply, log, qs, maxTokens))
      && Extract(Join(g.facts, "\n")) == g.facts
      && |g.history| == |qs|
      && (forall i | 0 <= i < |qs| :: |g.history[i]| == |qs[i]| + 1
            && g.history[i][..|qs[i]|] == qs[i] && g.history[i][|qs[i]|].role == Assistant)
      && (|qs| == 0 ==> g.meta.None? && g.facts == [])
  {
    var g := AskAll(reply, log, qs, maxTokens).outcome.value;
    AskAllSucceeds(reply, log, qs, maxTokens);
    AskAllHistory(reply, log, qs, maxTokens);
    AskAllFacts(reply, log, qs, maxTokens);
    AskAllMeta(reply, log, qs, maxTokens);
    GatheredFactsRecoverable(reply, log, qs, maxTokens);
    forall i | 0 <= i < |qs| ensures |g.history[i]| == |qs[i]| + 1
      && g.history[i][..|qs[i]|] == qs[i] && g.history[i][|qs[i]|].role == Assistant {
      assert g.history[i] == Answered(qs[i], ChunkOf(reply, log, qs, maxTokens, i));
    }
  }

  /** On success: one call per query in order, the program is the facts
      text, database and knowledge base joined by newlines, the facts text
      holds exactly the extracted facts, and the history answers every query. */
  lemma NaturalToAspSucceeds(cfg: AppConfig, beh: Behavior, database: string,
                             reply: (seq<Request>, Request) -> Option<Completion>, log: seq<Request>,
                             input: Plain, singlePass: bool, maxTokens: Option<nat>)
    requires WellFormed(cfg, beh)
    requires NaturalToAsp(cfg, beh, database, reply, log, input, singlePass, maxTokens).outcome.Success?
    ensures QueriesFor(cfg, beh, input, singlePass).Success?
    ensures var qs := QueriesFor(cfg, beh, input, singlePass).value;
      var x := NaturalToAsp(cfg, beh, database, reply, log, input, singlePass, maxTokens);
      var t := x.outcome.value;
      && x.log == log + Requests(qs, maxTokens)
      && t.program == t.facts + "\n" + database + "\n" + cfg.knowledgeBase.value
      && Extract(t.facts) == Flatten(Chunks(reply, log, qs, maxTokens))
      && t.facts == Join(Flatten(Chunks(reply, log, qs, maxTokens)), "\n")
      && |t.history| == |qs|
      && (forall i | 0 <= i < |qs| :: |t.history[i]| == |qs[i]| + 1
            && t.history[i][..|qs[i]|] == qs[i] && t.history[i][|qs[i]|].role == Assistant)
      && (|qs| == 0 ==> t.meta.None? && t.facts == "")
  {
    var qs := QueriesFor(cfg, beh, input, singlePass).value;
    var g := AskAll(reply, log, qs, maxTokens).outcome.value;
    AskAllAnswered(reply, log, qs, maxTokens);
    assert NaturalToAsp(cfg, beh, database, reply, log, input, singlePass, maxTokens).outcome.value
      == Translation(Join(g.facts, "\n"), Program(Join(g.facts, "\n"), database, cfg.knowledgeBase.value), g.history, g.meta);
  }

  /** A failure in the loop is the model's: no call after the raising one is
      made, and the raising call is the last in the log. */
  lemma NaturalToAspStopsAtRaise(cfg: AppConfig, beh: Behavior, database: string,
                                 reply: (seq<Request>, Request) -> Option<Completion>, log: seq<Request>,
                                 input: Plain, singlePass: bool, maxTokens: Option<nat>)
    requires WellFormed(cfg, beh)
    requires QueriesFor(cfg, beh, input, singlePass).Success?
    requires NaturalToAsp(cfg, beh, database, reply, log, input, singlePass, maxTokens).outcome.Failure?
    ensures var qs := QueriesFor(cfg, beh, input, singlePass).value;
      var x := NaturalToAsp(cfg, beh, database, reply, log, input, singlePass, maxTokens);
      && x.outcome.error == Wrap(ConvertingToAsp, TransportError)
      && exists k | 0 <= k < |qs| ::
        AnsweredBefore(reply, log, qs, maxTokens, k) && ReplyTo(reply, log, qs, maxTokens, k).None?
        && x.log == Prior(log, qs, maxTokens, k + 1)
  {
    var k := AskAllStops(reply, log, QueriesFor(cfg, beh, input, singlePass).value, maxTokens);
  }

  /** When query construction fails, the model is never called. */
  lemma NoQueriesNoCalls(cfg: AppConfig, beh: Behavior, database: string,
                         reply: (seq<Request>, Request) -> Option<Completion>, log: seq<Request>,
                         input: Plain, singlePass: bool, maxTokens: Option<nat>)
    requires WellFormed(cfg, beh)
    requires QueriesFor(cfg, beh, input, singlePass).Failure?
    ensures NaturalToAsp(cfg, beh, database, reply, log, input, singlePass, maxTokens)
      == Exchange(log, Failure(Wrap(ConvertingToAsp, QueriesFor(cfg, beh, input, singlePass).error)))
  {
  }
}
