/** `group_by_fact`: solver facts grouped by predicate name in a dictionary
    that keeps its keys in order of first insertion. */
module Grouping {
  import opened Strings

  /** A Python dict from predicate name to facts: `names` is its key order. */
  datatype Groups = Groups(names: seq<string>, members: map<string, seq<Plain>>)

  predicate Distinct(xs: seq<string>) {
    forall i, j | 0 <= i < j < |xs| :: xs[i] != xs[j]
  }

  /** The key order lists each key of the dict exactly once. */
  predicate Consistent(g: Groups) {
    && Distinct(g.names)
    && (forall i | 0 <= i < |g.names| :: g.names[i] in g.members)
    && (forall k | k in g.members :: k in g.names)
  }

  /** The dict after `grouped.setdefault(name, []).append(f)` for each fact. */
  function Grouped(facts: seq<Plain>): (g: Groups)
    ensures Consistent(g)
  {
    if |facts| == 0 then Groups([], map[])
    else
      var g := Grouped(facts[..|facts| - 1]);
      var f := facts[|facts| - 1];
      var name := AtomName(f);
      if name in g.members then Groups(g.names, g.members[name := g.members[name] + [f]])
      else Groups(g.names + [name], g.members[name := [f]])
  }

  /** The facts whose predicate name is `name`, in their original order. */
  function Select(facts: seq<Plain>, name: string): seq<Plain> {
    if |facts| == 0 then []
    else
      var last := facts[|facts| - 1];
      Select(facts[..|facts| - 1], name) + (if AtomName(last) == name then [last] else [])
  }

  /** Every fact of a selection has the selected name and comes from the input. */
  lemma {:induction false} SelectHasName(facts: seq<Plain>, name: string)
    ensures forall f | f in Select(facts, name) :: AtomName(f) == name && f in facts
  {
    if |facts| > 0 {
      SelectHasName(facts[..|facts| - 1], name);
    }
  }

  /** What a group holds for key `k`: the facts selected for `k`, and a
      key that is not a group selects nothing. */
  predicate HoldsSelection(facts: seq<Plain>, k: string) {
    var g := Grouped(facts);
    if k in g.members then g.members[k] == Select(facts, k) && |Select(facts, k)| > 0
    else Select(facts, k) == []
  }

  /** One more fact keeps what the group for `k` holds. */
  lemma MembersStep(facts: seq<Plain>, k: string)
    requires |facts| > 0 && HoldsSelection(facts[..|facts| - 1], k)
    ensures HoldsSelection(facts, k)
  {
    var pre := facts[..|facts| - 1];
    var f := facts[|facts| - 1];
    assert Select(facts, k) == Select(pre, k) + (if AtomName(f) == k then [f] else []);
  }

  /** Each group holds exactly the facts with its name, in input order, and
      a name that is not a group selects nothing. */
  lemma {:induction false} GroupedMembers(facts: seq<Plain>)
    ensures forall k :: HoldsSelection(facts, k)
  {
    if |facts| > 0 {
      GroupedMembers(facts[..|facts| - 1]);
      forall k ensures HoldsSelection(facts, k) {
        MembersStep(facts, k);
      }
    }
  }

  /** Every fact's name is a group. */
  lemma {:induction false} GroupedCovers(facts: seq<Plain>)
    ensures forall i | 0 <= i < |facts| :: AtomName(facts[i]) in Grouped(facts).members
  {
    if |facts| > 0 {
      var pre := facts[..|facts| - 1];
      GroupedCovers(pre);
      forall i | 0 <= i < |facts| - 1 ensures facts[i] == pre[i] {}
    }
  }

  /** Each group holds exactly the facts with its name, in input order, and
      every fact's name is a group. */
  lemma GroupedSelects(facts: seq<Plain>)
    ensures forall k | k in Grouped(facts).members :: Grouped(facts).members[k] == Select(facts, k)
    ensures forall i | 0 <= i < |facts| :: AtomName(facts[i]) in Grouped(facts).members
    ensures forall k | k in Grouped(facts).members :: |Select(facts, k)| > 0
    ensures forall k | k !in Grouped(facts).members :: Select(facts, k) == []
  {
    GroupedMembers(facts);
    forall k | k in Grouped(facts).members
      ensures Grouped(facts).members[k] == Select(facts, k) && |Select(facts, k)| > 0
    {
      assert HoldsSelection(facts, k);
    }
    forall k | k !in Grouped(facts).members ensures Select(facts, k) == [] {
      assert HoldsSelection(facts, k);
    }
    GroupedCovers(facts);
  }

  /** Grouping partitions the facts: each fact is in the group of its own
      name and in no other. */
  lemma ExactlyOneGroup(facts: seq<Plain>)
    ensures forall i | 0 <= i < |facts| ::
      AtomName(facts[i]) in Grouped(facts).members && facts[i] in Grouped(facts).members[AtomName(facts[i])]
    ensures forall k, f | k in Grouped(facts).members && f in Grouped(facts).members[k] ::
      AtomName(f) == k && f in facts
  {
    GroupedSelects(facts);
    forall k | k in Grouped(facts).members {
      SelectHasName(facts, k);
    }
    forall i | 0 <= i < |facts| ensures facts[i] in Select(facts, AtomName(facts[i])) {
      SelectContains(facts, i);
    }
  }

  lemma {:induction false} SelectContains(facts: seq<Plain>, i: nat)
    requires i < |facts|
    ensures facts[i] in Select(facts, AtomName(facts[i]))
  {
    if i < |facts| - 1 {
      SelectContains(facts[..|facts| - 1], i);
    }
  }

  /** Groups are ordered by first occurrence: a fact of a later group is
      always preceded by a fact of every earlier group. */
  lemma FirstOccurrenceOrder(facts: seq<Plain>)
    ensures forall i, j, p | 0 <= i < j < |Grouped(facts).names| && 0 <= p < |facts|
        && AtomName(facts[p]) == Grouped(facts).names[j] ::
      exists q | 0 <= q < p :: AtomName(facts[q]) == Grouped(facts).names[i]
  {
    var names := Grouped(facts).names;
    forall i, j, p | 0 <= i < j < |names| && 0 <= p < |facts| && AtomName(facts[p]) == names[j]
      ensures exists q | 0 <= q < p :: AtomName(facts[q]) == names[i]
    {
      var q := EarlierGroup(facts, i, j, p);
      assert 0 <= q < p && AtomName(facts[q]) == names[i];
    }
  }

  /** One more fact adds its name at the end of the key order, unless the
      name is a key already. */
  lemma NamesStep(facts: seq<Plain>)
    requires |facts| > 0
    ensures var g := Grouped(facts[..|facts| - 1]);
      var last := AtomName(facts[|facts| - 1]);
      Grouped(facts).names == if last in g.members then g.names else g.names + [last]
  {
  }

  lemma {:induction false} EarlierGroup(facts: seq<Plain>, i: nat, j: nat, p: nat) returns (q: nat)
    requires i < j < |Grouped(facts).names| && p < |facts|
    requires AtomName(facts[p]) == Grouped(facts).names[j]
    ensures q < p && AtomName(facts[q]) == Grouped(facts).names[i]
  {
    var n := |facts| - 1;
    var pre := facts[..n];
    var g := Grouped(pre);
    var names := Grouped(facts).names;
    NamesStep(facts);
    assert i < |g.names| && names[i] == g.names[i];
    if p < n {
      assert pre[p] == facts[p];
      GroupedCovers(pre);
      assert AtomName(pre[p]) in g.members;
      assert j < |g.names| by {
        if AtomName(facts[n]) !in g.members {
          assert names[j] != AtomName(facts[n]);
        }
      }
      assert names[j] == g.names[j];
      q := EarlierGroup(pre, i, j, p);
      assert pre[q] == facts[q];
    } else {
      q := FirstWith(pre, g.names[i]);
      assert pre[q] == facts[q];
    }
  }

  /** An index of a fact with the given name, when one of them has it. */
  lemma FirstWith(facts: seq<Plain>, name: string) returns (q: nat)
    requires name in Grouped(facts).members
    ensures q < |facts| && AtomName(facts[q]) == name
  {
    GroupedSelects(facts);
    SelectHasName(facts, name);
    var f := Select(facts, name)[0];
    assert f in Select(facts, name);
    var k :| 0 <= k < |facts| && facts[k] == f;
    q := k;
  }

  /** Sum of the sizes of the groups named in `names`. */
  function Total(names: seq<string>, members: map<string, seq<Plain>>): nat
    requires forall i | 0 <= i < |names| :: names[i] in members
  {
    if |names| == 0 then 0
    else Total(names[..|names| - 1], members) + |members[names[|names| - 1]]|
  }

  lemma {:induction false} TotalIgnores(names: seq<string>, members: map<string, seq<Plain>>, name: string, v: seq<Plain>)
    requires forall i | 0 <= i < |names| :: names[i] in members
    requires name !in names
    ensures Total(names, members[name := v]) == Total(names, members)
  {
    if |names| > 0 {
      TotalIgnores(names[..|names| - 1], members, name, v);
    }
  }

  lemma {:induction false} TotalGrows(names: seq<string>, members: map<string, seq<Plain>>, name: string, f: Plain)
    requires forall i | 0 <= i < |names| :: names[i] in members
    requires Distinct(names) && name in names
    ensures Total(names, members[name := members[name] + [f]]) == Total(names, members) + 1
  {
    var last := names[|names| - 1];
    var pre := names[..|names| - 1];
    if last == name {
      assert name !in pre;
      TotalIgnores(pre, members, name, members[name] + [f]);
    } else {
      assert name in pre;
      TotalGrows(pre, members, name, f);
    }
  }

  /** The group sizes add up to the number of facts. */
  lemma {:induction false} GroupSizesSum(facts: seq<Plain>)
    ensures Total(Grouped(facts).names, Grouped(facts).members) == |facts|
  {
    if |facts| > 0 {
      var pre := facts[..|facts| - 1];
      var g := Grouped(pre);
      var f := facts[|facts| - 1];
      var name := AtomName(f);
      GroupSizesSum(pre);
      if name in g.members {
        TotalGrows(g.names, g.members, name, f);
      } else {
        TotalIgnores(g.names, g.members, name, [f]);
      }
    }
  }

  /** `group_by_fact` (llmasp.py, lines 232-238). */
  method GroupByFact(facts: seq<Plain>) returns (g: Groups)
    ensures g == Grouped(facts)
  {
    var names: seq<string> := [];
    var grouped: map<string, seq<Plain>> := map[];
    for i := 0 to |facts|
      invariant Groups(names, grouped) == Grouped(facts[..i])
    {
      var f := facts[i];
      var name := AtomName(f);
      assert facts[..i + 1][..i] == facts[..i] && facts[..i + 1][i] == f;
      ghost var before := Groups(names, grouped);
      if name !in grouped {
        names := names + [name];
        grouped := grouped[name := []];
      }
      grouped := grouped[name := grouped[name] + [f]];
      assert [] + [f] == [f];
      assert name in before.members ==> grouped == before.members[name := before.members[name] + [f]];
      assert name !in before.members ==> grouped == before.members[name := [f]];
    }
    assert facts[..|facts|] == facts;
    g := Groups(names, grouped);
  }
}
