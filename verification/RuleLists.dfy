/**
 * Rewriting of the target-id lists kept as JSON in schedule rules (src/clients/target_dedupe.py).
 */
module RuleLists {
  import opened Common

  // A list element: a JSON integer, something int() converts, or something it rejects.
  datatype Item = Num(n: int) | Convertible(n: int) | Junk

  // A rule's column: blank, broken or non-list text, or a list.
  datatype RuleJson = NotAList | Items(items: seq<Item>)

  function Ints(items: seq<Item>): seq<int> {
    if items == [] then []
    else
      var front, last := Ints(items[..|items| - 1]), items[|items| - 1];
      if last.Junk? then front else front + [last.n]
  }

  function Nums(xs: seq<int>): (r: seq<Item>)
    ensures |r| == |xs| && forall i :: 0 <= i < |xs| ==> r[i] == Num(xs[i])
  {
    seq(|xs|, i requires 0 <= i < |xs| => Num(xs[i]))
  }

  function Subst(xs: seq<int>, from: set<int>, to: int): (r: seq<int>)
    ensures |r| == |xs| && forall i :: 0 <= i < |xs| ==> r[i] == if xs[i] in from then to else xs[i]
  {
    seq(|xs|, i requires 0 <= i < |xs| => if xs[i] in from then to else xs[i])
  }

  // Order-preserving, keep-first deduplication.
  function Dedup(xs: seq<int>): (r: seq<int>)
    ensures forall x :: x in r <==> x in xs
    ensures forall i, j :: 0 <= i < j < |r| ==> r[i] != r[j]
  {
    if xs == [] then []
    else
      var front, last := Dedup(xs[..|xs| - 1]), xs[|xs| - 1];
      assert xs == xs[..|xs| - 1] + [last];
      if last in front then front else front + [last]
  }

  // One pass of _rules_replace_target_id over one list.
  function Replaced(items: seq<Item>, oid: int, nid: int): seq<Item> {
    if oid in Ints(items) then Nums(Dedup(Subst(Ints(items), {oid}, nid))) else items
  }

  function ReplacedRule(r: RuleJson, oid: int, nid: int): RuleJson {
    if r.NotAList? then r else Items(Replaced(r.items, oid, nid))
  }

  predicate Touches(r: RuleJson, oid: int) { r.Items? && oid in Ints(r.items) }

  function ReplacedAll(rules: seq<RuleJson>, oid: int, nid: int): (r: seq<RuleJson>)
    ensures |r| == |rules| && forall i :: 0 <= i < |r| ==> r[i] == ReplacedRule(rules[i], oid, nid)
  {
    seq(|rules|, i requires 0 <= i < |rules| => ReplacedRule(rules[i], oid, nid))
  }

  // The pass per duplicate, in order.
  function Passes(r: RuleJson, dups: seq<int>, nid: int): RuleJson {
    if dups == [] then r else ReplacedRule(Passes(r, dups[..|dups| - 1], nid), dups[|dups| - 1], nid)
  }

  method ReplaceInList(items: seq<Item>, oid: int, nid: int) returns (changed: bool, r: seq<Item>)
    ensures changed <==> oid in Ints(items)
    ensures r == Replaced(items, oid, nid)
  {
    changed := false;
    var out: seq<int> := [];
    for i := 0 to |items|
      invariant out == Subst(Ints(items[..i]), {oid}, nid)
      invariant changed <==> oid in Ints(items[..i])
    {
      assert items[..i + 1][..i] == items[..i];
      if items[i].Junk? {
        continue;
      }
      var v := items[i].n;
      if v == oid {
        v := nid;
        changed := true;
      }
      out := out + [v];
    }
    assert items[..|items|] == items;
    if !changed {
      return changed, items;
    }
    var deduped: seq<int> := [];
    var seen: set<int> := {};
    for i := 0 to |out|
      invariant deduped == Dedup(out[..i])
      invariant forall x :: x in seen <==> x in deduped
    {
      assert out[..i + 1][..i] == out[..i];
      if out[i] !in seen {
        seen := seen + {out[i]};
        deduped := deduped + [out[i]];
      }
    }
    assert out[..|out|] == out;
    r := Nums(deduped);
  }

  lemma UntouchedRule(items: seq<Item>, oid: int, nid: int)
    requires oid !in Ints(items)
    ensures Replaced(items, oid, nid) == items
  {
  }

  /** The schedule rules' list columns, rewritten in place. */
  class RuleTable {
    var rules: seq<RuleJson>

    constructor (rules: seq<RuleJson>)
      ensures this.rules == rules
    {
      this.rules := rules;
    }

    method ReplaceTargetId(oid: int, nid: int) returns (updated: nat)
      modifies this
      ensures rules == ReplacedAll(old(rules), oid, nid)
      ensures updated == Count((r: RuleJson) => Touches(r, oid), old(rules))
    {
      hide Ints, Replaced;
      updated := 0;
      var touches := (r: RuleJson) => Touches(r, oid);
      for i := 0 to |rules|
        invariant |rules| == |old(rules)|
        invariant forall j :: 0 <= j < i ==> rules[j] == ReplacedRule(old(rules)[j], oid, nid)
        invariant forall j :: i <= j < |rules| ==> rules[j] == old(rules)[j]
        invariant updated == Count(touches, old(rules)[..i])
      {
        assert old(rules)[..i + 1][..i] == old(rules)[..i];
        if rules[i].NotAList? {
          continue;
        }
        var changed, r := ReplaceInList(rules[i].items, oid, nid);
        if !changed {
          UntouchedRule(rules[i].items, oid, nid);
          continue;
        }
        assert Items(r) == ReplacedRule(rules[i], oid, nid);
        rules := rules[i := Items(r)];
        updated := updated + 1;
      }
      assert old(rules)[..|rules|] == old(rules);
    }
  }

  // The pass-per-duplicate rewrite is one simultaneous substitution and one deduplication

  lemma {:induction false} IntsOfNums(xs: seq<int>)
    ensures Ints(Nums(xs)) == xs
  {
    if xs != [] {
      assert Nums(xs)[..|xs| - 1] == Nums(xs[..|xs| - 1]);
      IntsOfNums(xs[..|xs| - 1]);
    }
  }

  lemma SubstSnoc(xs: seq<int>, x: int, from: set<int>, to: int)
    ensures Subst(xs + [x], from, to) == Subst(xs, from, to) + Subst([x], from, to)
  {
  }

  lemma DedupSnoc(xs: seq<int>, x: int)
    ensures Dedup(xs + [x]) == if x in xs then Dedup(xs) else Dedup(xs) + [x]
  {
    assert (xs + [x])[..|xs|] == xs;
  }

  // Deduplicating before a substitution changes nothing once it is deduplicated after.
  lemma {:induction false} DedupAroundSubst(xs: seq<int>, from: set<int>, to: int)
    ensures Dedup(Subst(Dedup(xs), from, to)) == Dedup(Subst(xs, from, to))
  {
    if xs != [] {
      var ys, x := xs[..|xs| - 1], xs[|xs| - 1];
      assert xs == ys + [x];
      var fx := Subst([x], from, to)[0];
      DedupAroundSubst(ys, from, to);
      DedupSnoc(ys, x);
      SubstSnoc(ys, x, from, to);
      DedupSnoc(Subst(ys, from, to), fx);
      if x in ys {
        var i :| 0 <= i < |ys| && ys[i] == x;
        assert Subst(ys, from, to)[i] == fx;
      } else {
        SubstSnoc(Dedup(ys), x, from, to);
        DedupSnoc(Subst(Dedup(ys), from, to), fx);
        assert fx in Dedup(Subst(ys, from, to)) <==> fx in Dedup(Subst(Dedup(ys), from, to));
      }
    }
  }

  function SetOf(xs: seq<int>): set<int> { set x | x in xs }

  predicate AnyIn(xs: seq<int>, s: set<int>) { exists i :: 0 <= i < |xs| && xs[i] in s }

  // All duplicates replaced at once.
  function Simultaneous(r: RuleJson, dups: seq<int>, nid: int): RuleJson {
    if r.Items? && AnyIn(Ints(r.items), SetOf(dups)) then Items(Nums(Dedup(Subst(Ints(r.items), SetOf(dups), nid))))
    else r
  }

  lemma {:induction false} PassesAreSimultaneous(r: RuleJson, dups: seq<int>, nid: int)
    requires nid !in dups && forall i, j :: 0 <= i < j < |dups| ==> dups[i] != dups[j]
    ensures Passes(r, dups, nid) == Simultaneous(r, dups, nid)
  {
    if dups != [] {
      var front, d := dups[..|dups| - 1], dups[|dups| - 1];
      PassesAreSimultaneous(r, front, nid);
      assert front + [d] == dups;
      if r.Items? {
        OneMorePass(r.items, front, d, nid);
      }
    }
  }

  lemma OneMorePass(items: seq<Item>, front: seq<int>, d: int, nid: int)
    requires nid !in front && nid != d && d !in front
    ensures ReplacedRule(Simultaneous(Items(items), front, nid), d, nid) == Simultaneous(Items(items), front + [d], nid)
  {
    var xs, f := Ints(items), SetOf(front);
    var all := SetOf(front + [d]);
    assert all == f + {d};
    var done := Subst(xs, f, nid);
    assert d in done <==> d in xs by {
      forall i | 0 <= i < |xs|
        ensures done[i] == d <==> xs[i] == d
      {
      }
    }
    assert AnyIn(xs, all) <==> AnyIn(xs, f) || d in xs;
    if AnyIn(xs, f) {
      IntsOfNums(Dedup(done));
      if d in xs {
        DedupAroundSubst(done, {d}, nid);
        assert Subst(done, {d}, nid) == Subst(xs, all, nid);
      } else {
        assert done == Subst(xs, all, nid);
      }
    } else if d in xs {
      assert Subst(xs, {d}, nid) == Subst(xs, all, nid);
    }
  }

  // No rewritten list names a duplicate, and a list that named none is untouched.
  lemma PassesCloseReferences(r: RuleJson, dups: seq<int>, nid: int)
    requires nid !in dups && forall i, j :: 0 <= i < j < |dups| ==> dups[i] != dups[j]
    ensures var r' := Passes(r, dups, nid);
            && (r'.Items? ==> forall d :: d in dups ==> d !in Ints(r'.items))
            && (r.Items? && !AnyIn(Ints(r.items), SetOf(dups)) ==> r' == r)
            && (r.Items? ==> r'.Items?) && (r.NotAList? ==> r' == r)
  {
    PassesAreSimultaneous(r, dups, nid);
    if r.Items? {
      var xs := Ints(r.items);
      var ys := Dedup(Subst(xs, SetOf(dups), nid));
      IntsOfNums(ys);
      forall d | d in dups
        ensures d !in ys
      {
        assert d in SetOf(dups);
      }
      assert forall d :: d in dups && d in xs ==> AnyIn(xs, SetOf(dups)) by {
        forall d | d in dups && d in xs
          ensures AnyIn(xs, SetOf(dups))
        {
          var i :| 0 <= i < |xs| && xs[i] == d;
          assert xs[i] in SetOf(dups);
        }
      }
    }
  }

  // Keep-first: whatever comes later in a deduplicated list had no occurrence before the first
  // occurrence of anything that comes earlier.
  ghost predicate FirstSeenOrder(r: seq<int>, xs: seq<int>) {
    forall i, j, k :: 0 <= i < j < |r| && 0 <= k < |xs| && xs[k] == r[j] ==> r[i] in xs[..k]
  }

  lemma {:induction false} DedupKeepsFirstSeenOrder(xs: seq<int>)
    ensures FirstSeenOrder(Dedup(xs), xs)
  {
    if xs != [] {
      var front, last := xs[..|xs| - 1], xs[|xs| - 1];
      DedupKeepsFirstSeenOrder(front);
      var r := Dedup(xs);
      forall i, j, k | 0 <= i < j < |r| && 0 <= k < |xs| && xs[k] == r[j]
        ensures r[i] in xs[..k]
      {
        if k < |front| {
          assert front[k] in front && front[..k] == xs[..k];
          assert r[j] in Dedup(front);
        } else {
          assert xs[..k] == front && r[i] in Dedup(front);
        }
      }
    }
  }

  // One rule column before and after a merge, without the passes: columns that name no duplicate stay
  // as they are; the others list, once each and in first-seen order, what they listed before with
  // every duplicate read as the canonical id.
  ghost predicate ColumnConserved(r: RuleJson, r': RuleJson, dups: set<int>, nid: int) {
    if r.NotAList? || !AnyIn(Ints(r.items), dups) then r' == r
    else
      && r'.Items? && (forall i :: 0 <= i < |r'.items| ==> r'.items[i].Num?)
      && ListConserved(Ints(r.items), Ints(r'.items), dups, nid)
  }

  ghost predicate ListConserved(xs: seq<int>, ys: seq<int>, dups: set<int>, nid: int) {
    && (forall i, j :: 0 <= i < j < |ys| ==> ys[i] != ys[j])
    && (forall y :: y in ys <==> (y in xs && y !in dups) || (y == nid && AnyIn(xs, dups)))
    && FirstSeenOrder(ys, Subst(xs, dups, nid))
  }

  lemma DedupedIsConserved(xs: seq<int>, dups: set<int>, nid: int)
    requires nid !in dups && AnyIn(xs, dups)
    ensures ListConserved(xs, Dedup(Subst(xs, dups, nid)), dups, nid)
  {
    var zs := Subst(xs, dups, nid);
    DedupKeepsFirstSeenOrder(zs);
    forall y
      ensures y in zs <==> (y in xs && y !in dups) || y == nid
    {
      if y in xs && y !in dups {
        var i :| 0 <= i < |xs| && xs[i] == y;
        assert zs[i] == y;
      }
      if y == nid {
        var i :| 0 <= i < |xs| && xs[i] in dups;
        assert zs[i] == y;
      }
    }
  }

  lemma PassesConserveColumn(r: RuleJson, dups: seq<int>, nid: int)
    requires nid !in dups && forall i, j :: 0 <= i < j < |dups| ==> dups[i] != dups[j]
    ensures ColumnConserved(r, Passes(r, dups, nid), SetOf(dups), nid)
  {
    hide Passes, ListConserved;
    PassesAreSimultaneous(r, dups, nid);
    if r.Items? && AnyIn(Ints(r.items), SetOf(dups)) {
      DedupedIsConserved(Ints(r.items), SetOf(dups), nid);
      IntsOfNums(Dedup(Subst(Ints(r.items), SetOf(dups), nid)));
    }
  }

  // A later pass touches what its duplicate was named in from the start.
  lemma PassesKeepOtherIds(r: RuleJson, dups: seq<int>, nid: int, d: int)
    requires nid !in dups && d !in dups && d != nid && forall i, j :: 0 <= i < j < |dups| ==> dups[i] != dups[j]
    ensures Touches(Passes(r, dups, nid), d) <==> Touches(r, d)
  {
    hide Passes;
    PassesConserveColumn(r, dups, nid);
  }
}
