/** `__create_queries` and `_create_query_messages`: the chat queries that ask
    the language model to translate the user's text, one predicate at a time
    or all predicates at once. */
module Queries {
  import opened Wrappers
  import opened Strings
  import opened Errors
  import opened Config
  import opened Oracles

  /** `_create_query_messages(context, mapping)`. */
  function QueryMessages(init: string, context: string, mapping: string): Query {
    [Message(System, init), Message(System, context), Message(User, mapping)]
  }

  /** The mapping template (with `{input}` already replaced) with
      `{instructions}` and then `{atom}` replaced. */
  function Fill(mapping: string, instructions: Plain, atom: Plain): string {
    Sub(Sub(mapping, "{instructions}", instructions), "{atom}", atom)
  }

  /** The pairs whose key is not the application-context key `_`. */
  function NonMeta(ps: seq<Pair>): (r: seq<Pair>)
    ensures |r| <= |ps|
    ensures forall p | p in r :: p in ps && p.key != "_"
    ensures forall p | p in ps && p.key != "_" :: p in r
  {
    if |ps| == 0 then []
    else NonMeta(ps[..|ps| - 1]) + (if ps[|ps| - 1].key != "_" then [ps[|ps| - 1]] else [])
  }

  predicate AllNonEmpty(pre: seq<Entry>) {
    forall i | 0 <= i < |pre| :: |pre[i]| > 0
  }

  /** `list(query.items())[0]` of every entry. */
  function Heads(pre: seq<Entry>): seq<Pair>
    requires AllNonEmpty(pre)
  {
    seq(|pre|, i requires 0 <= i < |pre| => pre[i][0])
  }

  /** One query per predicate pair, in order. */
  function Asked(ps: seq<Pair>, init: string, context: string, mapping: string): seq<Query> {
    seq(|ps|, i requires 0 <= i < |ps| => QueryMessages(init, context, Fill(mapping, ps[i].value, ps[i].key)))
  }

  /** The per-predicate loop: `list(query.items())[0]` raises `IndexError`
      on an empty entry; the `_` entry asks nothing. */
  function PerPredicate(pre: seq<Entry>, init: string, context: string, mapping: string): (r: Result<seq<Query>, Failure>)
    ensures r.Failure? ==> r.error == IndexError
  {
    if |pre| == 0 then Success([])
    else match PerPredicate(pre[..|pre| - 1], init, context, mapping)
      case Failure(e) => Failure(e)
      case Success(qs) =>
        var entry := pre[|pre| - 1];
        if |entry| == 0 then Failure(IndexError)
        else if entry[0].key == "_" then Success(qs)
        else Success(qs + [QueryMessages(init, context, Fill(mapping, entry[0].value, entry[0].key))])
  }

  lemma {:induction false} NonMetaAppend(ps: seq<Pair>, p: Pair)
    ensures NonMeta(ps + [p]) == NonMeta(ps) + (if p.key != "_" then [p] else [])
  {
    assert (ps + [p])[..|ps|] == ps;
  }

  lemma AskedAppend(ps: seq<Pair>, p: Pair, init: string, context: string, mapping: string)
    ensures Asked(ps + [p], init, context, mapping)
      == Asked(ps, init, context, mapping) + [QueryMessages(init, context, Fill(mapping, p.value, p.key))]
  {
  }

  /** The per-predicate loop succeeds exactly when no entry is empty. */
  lemma {:induction false} PerPredicateSucceeds(pre: seq<Entry>, init: string, context: string, mapping: string)
    ensures PerPredicate(pre, init, context, mapping).Success? <==> AllNonEmpty(pre)
  {
    if |pre| > 0 {
      var n := |pre| - 1;
      PerPredicateSucceeds(pre[..n], init, context, mapping);
      assert forall i | 0 <= i < n :: pre[..n][i] == pre[i];
    }
  }

  /** When no entry is empty the loop asks one query per entry whose first
      key is not `_`, in config order. */
  lemma {:induction false} PerPredicateQueries(pre: seq<Entry>, init: string, context: string, mapping: string)
    requires AllNonEmpty(pre)
    ensures PerPredicate(pre, init, context, mapping) == Success(Asked(NonMeta(Heads(pre)), init, context, mapping))
  {
    if |pre| > 0 {
      var n := |pre| - 1;
      var front := pre[..n];
      assert forall i | 0 <= i < n :: front[i] == pre[i];
      PerPredicateQueries(front, init, context, mapping);
      var head := pre[n][0];
      assert Heads(pre) == Heads(front) + [head];
      NonMetaAppend(Heads(front), head);
      var qs := Asked(NonMeta(Heads(front)), init, context, mapping);
      if head.key != "_" {
        AskedAppend(NonMeta(Heads(front)), head, init, context, mapping);
        assert PerPredicate(pre, init, context, mapping)
          == Success(qs + [QueryMessages(init, context, Fill(mapping, head.value, head.key))]);
      } else {
        assert PerPredicate(pre, init, context, mapping) == Success(qs);
        assert NonMeta(Heads(pre)) == NonMeta(Heads(front));
      }
    } else {
      assert Heads(pre) == [];
      assert Asked([], init, context, mapping) == [];
    }
  }

  /** A failed prefix of the loop fails the whole loop with the same error. */
  lemma {:induction false} PerPredicateFailureStays(pre: seq<Entry>, i: nat, init: string, context: string, mapping: string)
    requires i <= |pre|
    requires PerPredicate(pre[..i], init, context, mapping).Failure?
    ensures PerPredicate(pre, init, context, mapping) == PerPredicate(pre[..i], init, context, mapping)
  {
    if i < |pre| {
      assert pre[..|pre| - 1][..i] == pre[..i];
      PerPredicateFailureStays(pre[..|pre| - 1], i, init, context, mapping);
    } else {
      assert pre[..i] == pre;
    }
  }

  /** Every key, then every value, of a list of pairs. */
  function Keys(ps: seq<Pair>): seq<Plain> {
    seq(|ps|, i requires 0 <= i < |ps| => ps[i].key)
  }

  function Values(ps: seq<Pair>): seq<Plain> {
    seq(|ps|, i requires 0 <= i < |ps| => ps[i].value)
  }

  /** Single-pass mode: `zip(*pairs)` over every non-`_` pair of every entry
      (an empty list cannot be unpacked: `ValueError`), then one query whose
      instructions are joined with `""` and whose atoms are joined with `" "`. */
  function SinglePass(pre: seq<Entry>, init: string, context: string, mapping: string): (r: Result<seq<Query>, Failure>)
    ensures r.Failure? <==> |NonMeta(Flatten(pre))| == 0
    ensures r.Failure? ==> r.error == ValueError
    ensures r.Success? ==> |r.value| == 1
  {
    var ps := NonMeta(Flatten(pre));
    if |ps| == 0 then Failure(ValueError)
    else
      var instructions := Join(Values(ps), "");
      var atoms := Join(Keys(ps), " ");
      Success([QueryMessages(init, context, Fill(mapping, instructions, atoms))])
  }

  lemma {:induction false} FlattenHeads(pre: seq<Entry>)
    requires forall i | 0 <= i < |pre| :: |pre[i]| == 1
    ensures Flatten(pre) == Heads(pre)
  {
    if |pre| > 0 {
      var n := |pre| - 1;
      FlattenHeads(pre[..n]);
      assert pre[n] == [pre[n][0]];
      assert Heads(pre) == Heads(pre[..n]) + [pre[n][0]];
    }
  }

  /** With one pair per entry, both modes cover the same predicates: the
      single query lists the atoms of exactly the per-predicate queries, and
      exists exactly when there is at least one of those. */
  lemma SinglePassCombinesPredicates(pre: seq<Entry>, init: string, context: string, mapping: string)
    requires forall i | 0 <= i < |pre| :: |pre[i]| == 1
    ensures AllNonEmpty(pre)
    ensures SinglePass(pre, init, context, mapping).Success?
      <==> PerPredicate(pre, init, context, mapping).Success? && |PerPredicate(pre, init, context, mapping).value| > 0
    ensures SinglePass(pre, init, context, mapping).Success? ==>
      var ps := NonMeta(Heads(pre));
      SinglePass(pre, init, context, mapping).value
        == [QueryMessages(init, context, Fill(mapping, Join(Values(ps), ""), Join(Keys(ps), " ")))]
  {
    FlattenHeads(pre);
    PerPredicateQueries(pre, init, context, mapping);
  }

  /** The mapping template with the user's text in place of `{input}`. */
  function InputMapping(beh: Behavior, input: Plain): string
    requires "preprocessing" in beh && "mapping" in beh["preprocessing"]
  {
    Sub(beh["preprocessing"]["mapping"], "{input}", input)
  }

  /** The context template with the application context in place of
      `{context}`, the only placeholder it receives. */
  function Context(beh: Behavior, section: string, application: Plain): string
    requires section in beh && "context" in beh[section]
  {
    Sub(beh[section]["context"], "{context}", application)
  }

  /** `__create_queries(user_input, single_pass)`; every error is re-raised
      as `Failed to create queries`. */
  function QueriesFor(cfg: AppConfig, beh: Behavior, input: Plain, singlePass: bool): (r: Result<seq<Query>, Failure>)
    requires WellFormed(cfg, beh)
    ensures r.Failure? ==> exists e :: r.error == Wrap(CreatingQueries, e)
  {
    var pre := cfg.preprocessing.value;
    var init := beh["preprocessing"]["init"];
    var mapping := InputMapping(beh, input);
    match GetProperty(pre, "_", false)
      case Failure(e) => Failure(Wrap(CreatingQueries, e))
      case Success(p) =>
        var context := Context(beh, "preprocessing", p.value);
        var r := if singlePass then SinglePass(pre, init, context, mapping)
          else PerPredicate(pre, init, context, mapping);
        match r
          case Failure(e) => Failure(Wrap(CreatingQueries, e))
          case Success(qs) => Success(qs)
  }

  /** Per-predicate mode, given a `_` entry and no empty entry: one query per
      non-`_` entry in config order, each exactly system init, system
      context, user mapping. */
  lemma OneQueryPerPredicate(cfg: AppConfig, beh: Behavior, input: Plain, i: nat, p: Pair)
    requires WellFormed(cfg, beh)
    requires AllNonEmpty(cfg.preprocessing.value)
    requires i < |cfg.preprocessing.value| && FirstHit(cfg.preprocessing.value, i, "_", false)
    requires p == cfg.preprocessing.value[i][0]
    ensures QueriesFor(cfg, beh, input, false).Success?
    ensures var ps := NonMeta(Heads(cfg.preprocessing.value));
      var qs := QueriesFor(cfg, beh, input, false).value;
      && |qs| == |ps|
      && forall k | 0 <= k < |qs| :: qs[k] == [
        Message(System, beh["preprocessing"]["init"]),
        Message(System, Context(beh, "preprocessing", p.value)),
        Message(User, Fill(InputMapping(beh, input), ps[k].value, ps[k].key))]
  {
    var pre := cfg.preprocessing.value;
    GetPropertyFirstMatch(pre, "_", false);
    PerPredicateQueries(pre, beh["preprocessing"]["init"], Context(beh, "preprocessing", p.value), InputMapping(beh, input));
  }

  /** Single-pass mode yields exactly one query whenever it succeeds. */
  lemma SinglePassOneQuery(cfg: AppConfig, beh: Behavior, input: Plain)
    requires WellFormed(cfg, beh)
    ensures QueriesFor(cfg, beh, input, true).Success? ==> |QueriesFor(cfg, beh, input, true).value| == 1
    ensures QueriesFor(cfg, beh, input, true).Success? ==> |NonMeta(Flatten(cfg.preprocessing.value))| > 0
  {
  }

  /** Without a `_` entry (and no empty entry before the search ends) query
      construction raises `Property not found: _`, in both modes. */
  lemma MissingContextRaises(cfg: AppConfig, beh: Behavior, input: Plain, singlePass: bool)
    requires WellFormed(cfg, beh)
    requires forall j | 0 <= j < |cfg.preprocessing.value| ::
      |cfg.preprocessing.value[j]| > 0 && cfg.preprocessing.value[j][0].key != "_"
    ensures QueriesFor(cfg, beh, input, singlePass)
      == Failure(Wrap(CreatingQueries, LlmaspError(PropertyNotFound("_"))))
  {
    GetPropertyFirstMatch(cfg.preprocessing.value, "_", false);
  }

  /** `{input}` is replaced before `{instructions}` and `{atom}`: with the
      mapping `{input}`, the query is whatever input the user typed with its
      own placeholders expanded. */
  lemma InputExpanded(input: Plain, instructions: Plain, atom: Plain)
    ensures Fill(Sub("{input}", "{input}", input), instructions, atom) == Fill(input, instructions, atom)
  {
    SubWhole("{input}", input);
  }

  /** For any mapping with one `{input}`, the query is the mapping with the
      user's input in its place and then the input's own placeholders
      expanded along with the mapping's. */
  lemma InputExpandedIn(before: string, after: string, input: Plain, instructions: Plain, atom: Plain)
    requires forall i | 0 <= i < |before| :: !OccursAt(before + "{input}", "{input}", i)
    requires !Occurs(after, "{input}")
    ensures Fill(Sub(before + "{input}" + after, "{input}", input), instructions, atom)
      == Fill(before + input + after, instructions, atom)
  {
    SubFirst(before, "{input}", after, input);
    SubAbsent(after, "{input}", input);
  }

  /** So with the mapping `{input}` and the input `{atom}`, the query is the
      predicate's key. */
  lemma InputSubstitutedFirst(instructions: Plain, atom: Plain)
    ensures Fill(Sub("{input}", "{input}", "{atom}"), instructions, atom) == atom
  {
    SubWhole("{input}", "{atom}");
    var s := "{atom}";
    assert !Occurs(s, "{instructions}");
    SubAbsent(s, "{instructions}", instructions);
    SubWhole("{atom}", atom);
  }
}
