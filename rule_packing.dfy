/** Packing of tracked account IDs into filter-rule values
    (`filterRulesFromIDs`, stream.go). Every ID becomes a clause `from:<id>`;
    clauses are packed greedily, in input order, into `" OR "`-joined values
    of at most `MaxRuleLength` bytes. */
module RulePacking {
  import opened Text

  /** The feed's limit on the length of one rule value, in bytes. */
  const MaxRuleLength: nat := 512
  const Or: string := " OR "
  const From: string := "from:"

  function Clause(id: string): string { From + id }

  function Clauses(ids: seq<string>): seq<string>
  {
    seq(|ids|, i requires 0 <= i < |ids| => Clause(ids[i]))
  }

  /** The accumulators of the loop: `done` stands for the groups already
      emitted into `r`, `cur` for the clauses of the group being built. */
  datatype Packing = Packing(done: seq<seq<string>>, cur: seq<string>)

  /** Length of the current rule with `s` appended, computed as the source
      does: the lengths in `cur`, plus `s`, plus one separator per clause in `cur`. */
  function RuleLen(cur: seq<string>, s: string): nat
  {
    SumLen(cur) + |s| + |cur| * |Or|
  }

  /** One iteration: flush `cur` when `s` does not fit, then append `s`.
      The flush happens even when `cur` is empty. */
  function Step(p: Packing, s: string): Packing
  {
    if RuleLen(p.cur, s) > MaxRuleLength then Packing(p.done + [p.cur], [s])
    else Packing(p.done, p.cur + [s])
  }

  /** The loop over all clauses, as a left fold. */
  function Pack(cs: seq<string>): Packing
    decreases |cs|
  {
    if |cs| == 0 then Packing([], []) else Step(Pack(cs[..|cs| - 1]), cs[|cs| - 1])
  }

  /** The clause groups emitted for `ids`; the final non-empty `cur` is flushed. */
  function Groups(ids: seq<string>): seq<seq<string>>
  {
    var p := Pack(Clauses(ids));
    if |p.cur| > 0 then p.done + [p.cur] else p.done
  }

  function JoinAll(gs: seq<seq<string>>): seq<string>
  {
    seq(|gs|, i requires 0 <= i < |gs| => Join(gs[i], Or))
  }

  /** The rule values `filterRulesFromIDs` returns for `ids`. */
  function FilterRules(ids: seq<string>): seq<string>
  {
    JoinAll(Groups(ids))
  }

  /** The loop of stream.go, with the accumulators `r`, `cur` and `l`. */
  method FilterRulesFromIDs(ids: seq<string>) returns (r: seq<string>)
    ensures r == FilterRules(ids)
  {
    r := [];
    var cur: seq<string> := [];
    var l := 0;
    ghost var done: seq<seq<string>> := [];
    for i := 0 to |ids|
      invariant Pack(Clauses(ids)[..i]) == Packing(done, cur)
      invariant r == JoinAll(done)
      invariant l == SumLen(cur)
    {
      var s := From + ids[i];
      assert Clauses(ids)[..i + 1][..i] == Clauses(ids)[..i];
      var ruleLen := l + |s| + |cur| * |Or|;
      if ruleLen > MaxRuleLength {
        r := r + [Join(cur, Or)];
        done := done + [cur];
        assert r == JoinAll(done);
        cur := [];
        l := 0;
      }
      SumLenSnoc(cur, s);
      cur := cur + [s];
      l := l + |s|;
    }
    assert Clauses(ids)[..|ids|] == Clauses(ids);
    if |cur| > 0 {
      r := r + [Join(cur, Or)];
      assert r == JoinAll(done + [cur]);
    }
  }

  // ---------------------------------------------------------------------
  // What the packing guarantees.

  function Flatten(gs: seq<seq<string>>): seq<string>
    decreases |gs|
  {
    if |gs| == 0 then [] else Flatten(gs[..|gs| - 1]) + gs[|gs| - 1]
  }

  lemma FlattenSnoc(gs: seq<seq<string>>, g: seq<string>)
    ensures Flatten(gs + [g]) == Flatten(gs) + g
  {
    assert (gs + [g])[..|gs|] == gs;
  }

  /** A group is within the limit, or it is one over-long clause on its own. */
  predicate Fits(g: seq<string>)
  {
    |Join(g, Or)| <= MaxRuleLength || (|g| == 1 && |g[0]| > MaxRuleLength)
  }

  /** Appending clause `c` to group `g` would exceed the limit. */
  predicate Overflows(g: seq<string>, c: string)
  {
    |Join(g + [c], Or)| > MaxRuleLength
  }

  /** The source's length arithmetic is the length of the joined value. */
  lemma RuleLenIsJoinLen(cur: seq<string>, s: string)
    ensures RuleLen(cur, s) == |Join(cur + [s], Or)|
  {
    if |cur| == 0 {
      assert cur + [s] == [s];
    } else {
      JoinSnoc(cur, s, Or);
      JoinLength(cur, Or);
    }
  }

  /** What holds of the accumulators after the clauses `cs` were processed:
      they hold exactly `cs`, and only the first group may be empty. */
  ghost predicate Covers(p: Packing, cs: seq<string>)
  {
    && Flatten(p.done) + p.cur == cs
    && (|cs| == 0 ==> p.done == [] && p.cur == [])
    && (|cs| > 0 ==> |p.cur| > 0)
    && (forall i :: 0 < i < |p.done| ==> |p.done[i]| > 0)
    && ((|p.done| > 0 && p.done[0] == []) <==> (|cs| > 0 && |cs[0]| > MaxRuleLength))
  }

  /** Every group fits, and each was closed because the next clause overflowed it. */
  ghost predicate Greedy(p: Packing)
  {
    && Fits(p.cur)
    && (forall i :: 0 <= i < |p.done| ==> Fits(p.done[i]))
    && (forall i :: 0 < i < |p.done| ==> |p.done[i]| > 0 ==> Overflows(p.done[i - 1], p.done[i][0]))
    && (|p.done| > 0 && |p.cur| > 0 ==> Overflows(p.done[|p.done| - 1], p.cur[0]))
  }

  ghost predicate PackInv(p: Packing, cs: seq<string>)
  {
    Covers(p, cs) && Greedy(p)
  }

  lemma FlushCovers(p: Packing, cs: seq<string>, s: string)
    requires Covers(p, cs)
    requires RuleLen(p.cur, s) > MaxRuleLength
    ensures Covers(Step(p, s), cs + [s])
  {
    var q := Step(p, s);
    assert q == Packing(p.done + [p.cur], [s]);
    FlattenSnoc(p.done, p.cur);
    assert Flatten(q.done) + q.cur == cs + [s];
    if |p.done| == 0 {
      if p.cur == [] {
        assert cs == [];
        assert (cs + [s])[0] == s;
        assert RuleLen(p.cur, s) == |s|;
      } else {
        assert (cs + [s])[0] == cs[0];
      }
    } else {
      assert (cs + [s])[0] == cs[0];
      assert q.done[0] == p.done[0];
      assert forall i :: 0 < i < |p.done| ==> q.done[i] == p.done[i];
    }
  }

  lemma FlushGreedy(p: Packing, s: string)
    requires Greedy(p)
    requires RuleLen(p.cur, s) > MaxRuleLength
    ensures Greedy(Step(p, s))
  {
    RuleLenIsJoinLen(p.cur, s);
    var q := Step(p, s);
    assert q == Packing(p.done + [p.cur], [s]);
    assert Join([s], Or) == s;
    assert forall i :: 0 <= i < |p.done| ==> q.done[i] == p.done[i];
    assert Overflows(q.done[|q.done| - 1], q.cur[0]);
  }

  lemma AppendCovers(p: Packing, cs: seq<string>, s: string)
    requires Covers(p, cs)
    requires RuleLen(p.cur, s) <= MaxRuleLength
    ensures Covers(Step(p, s), cs + [s])
  {
    var q := Step(p, s);
    assert q == Packing(p.done, p.cur + [s]);
    assert Flatten(q.done) + q.cur == cs + [s];
    if |cs| > 0 {
      assert (cs + [s])[0] == cs[0];
    } else {
      assert p.cur + [s] == [s];
      assert RuleLen(p.cur, s) == |s|;
    }
  }

  lemma AppendGreedy(p: Packing, s: string)
    requires Greedy(p)
    requires |p.done| > 0 ==> |p.cur| > 0
    requires RuleLen(p.cur, s) <= MaxRuleLength
    ensures Greedy(Step(p, s))
  {
    RuleLenIsJoinLen(p.cur, s);
    var q := Step(p, s);
    assert q == Packing(p.done, p.cur + [s]);
    assert Fits(q.cur);
    if |p.cur| > 0 {
      assert q.cur[0] == p.cur[0];
    }
  }

  lemma StepKeepsPackInv(p: Packing, cs: seq<string>, s: string)
    requires PackInv(p, cs)
    ensures PackInv(Step(p, s), cs + [s])
  {
    if RuleLen(p.cur, s) > MaxRuleLength {
      FlushCovers(p, cs, s);
      FlushGreedy(p, s);
    } else {
      AppendCovers(p, cs, s);
      AppendGreedy(p, s);
    }
  }

  lemma {:induction false} PackInvariant(cs: seq<string>)
    ensures PackInv(Pack(cs), cs)
    decreases |cs|
  {
    if |cs| > 0 {
      var init, last := cs[..|cs| - 1], cs[|cs| - 1];
      assert Pack(cs) == Step(Pack(init), last);
      assert init + [last] == cs;
      PackInvariant(init);
      StepKeepsPackInv(Pack(init), init, last);
    }
  }

  /** The groups, in order, concatenate back to the clauses of the input:
      no ID is dropped, duplicated or reordered. */
  lemma GroupsConcatenate(ids: seq<string>)
    ensures Flatten(Groups(ids)) == Clauses(ids)
  {
    var p := Pack(Clauses(ids));
    PackInvariant(Clauses(ids));
    if |p.cur| > 0 { FlattenSnoc(p.done, p.cur); }
  }

  /** Every group is within the limit, except an over-long clause, which
      stands alone. */
  lemma GroupsBounded(ids: seq<string>)
    ensures forall i :: 0 <= i < |Groups(ids)| ==> Fits(Groups(ids)[i])
  {
    PackInvariant(Clauses(ids));
  }

  /** Greedy: a group is closed only when the next clause, with its
      separator, would push it past the limit. */
  lemma GroupsGreedy(ids: seq<string>)
    ensures forall i :: 0 < i < |Groups(ids)| ==>
      |Groups(ids)[i]| > 0 && Overflows(Groups(ids)[i - 1], Groups(ids)[i][0])
  {
    var p := Pack(Clauses(ids));
    PackInvariant(Clauses(ids));
    var gs := Groups(ids);
    forall i | 0 < i < |gs| ensures |gs[i]| > 0 && Overflows(gs[i - 1], gs[i][0]) {
      if i < |p.done| {
        assert gs[i] == p.done[i] && gs[i - 1] == p.done[i - 1];
      } else {
        assert gs[i] == p.cur && gs[i - 1] == p.done[|p.done| - 1];
      }
    }
  }

  /** Only the first group can be empty, and it is exactly when the first
      clause alone is over-long; the output is empty exactly for empty input. */
  lemma EmptyGroups(ids: seq<string>)
    ensures |Groups(ids)| == 0 <==> |ids| == 0
    ensures forall i :: 0 < i < |Groups(ids)| ==> |Groups(ids)[i]| > 0
    ensures (|Groups(ids)| > 0 && Groups(ids)[0] == []) <==>
            (|ids| > 0 && |Clause(ids[0])| > MaxRuleLength)
  {
    PackInvariant(Clauses(ids));
  }

  lemma {:induction false} InFlatten(gs: seq<seq<string>>, i: nat, j: nat)
    requires i < |gs| && j < |gs[i]|
    ensures gs[i][j] in Flatten(gs)
    decreases |gs|
  {
    if i < |gs| - 1 {
      InFlatten(gs[..|gs| - 1], i, j);
    } else {
      assert gs[i][j] == (Flatten(gs[..|gs| - 1]) + gs[i])[|Flatten(gs[..|gs| - 1])| + j];
    }
  }

  /** When every clause fits, every emitted rule value is non-empty and at
      most `MaxRuleLength` bytes. */
  lemma RulesWithinLimit(ids: seq<string>)
    requires forall i :: 0 <= i < |ids| ==> |Clause(ids[i])| <= MaxRuleLength
    ensures forall i :: 0 <= i < |FilterRules(ids)| ==> 0 < |FilterRules(ids)[i]| <= MaxRuleLength
  {
    var gs := Groups(ids);
    GroupsBounded(ids);
    EmptyGroups(ids);
    GroupsConcatenate(ids);
    forall i | 0 <= i < |gs|
      ensures 0 < |Join(gs[i], Or)| <= MaxRuleLength
    {
      assert |gs[i]| > 0;
      InFlatten(gs, i, 0);
      var k :| 0 <= k < |ids| && Clauses(ids)[k] == gs[i][0];
      if |gs[i]| == 1 { assert gs[i][0] == Clause(ids[k]); }
      JoinLength(gs[i], Or);
    }
  }

  // ---------------------------------------------------------------------
  // Reading the IDs back out of the rule values.

  function StripFrom(c: string): string
  {
    if |c| >= |From| && c[..|From|] == From then c[|From|..] else c
  }

  function StripAll(cs: seq<string>): seq<string>
  {
    seq(|cs|, i requires 0 <= i < |cs| => StripFrom(cs[i]))
  }

  /** The IDs named by one rule value: split at `" OR "`, strip `from:`. */
  function DecodeRule(rule: string): seq<string>
  {
    if rule == "" then [] else StripAll(Split(rule, Or))
  }

  function DecodeRules(rules: seq<string>): seq<string>
    decreases |rules|
  {
    if |rules| == 0 then [] else DecodeRules(rules[..|rules| - 1]) + DecodeRule(rules[|rules| - 1])
  }

  function Concat(ds: seq<seq<string>>): seq<string>
    decreases |ds|
  {
    if |ds| == 0 then [] else Concat(ds[..|ds| - 1]) + ds[|ds| - 1]
  }

  lemma {:induction false} InConcat(ds: seq<seq<string>>, k: string)
    ensures k in Concat(ds) <==> exists i :: 0 <= i < |ds| && k in ds[i]
    decreases |ds|
  {
    if |ds| > 0 {
      var n := |ds| - 1;
      InConcat(ds[..n], k);
      assert forall i :: 0 <= i < n ==> ds[..n][i] == ds[i];
    }
  }

  /** The IDs of each rule value, one list per value. */
  function DecodedEach(rules: seq<string>): seq<seq<string>>
  {
    seq(|rules|, i requires 0 <= i < |rules| => DecodeRule(rules[i]))
  }

  lemma {:induction false} DecodeRulesConcat(rules: seq<string>)
    ensures DecodeRules(rules) == Concat(DecodedEach(rules))
    decreases |rules|
  {
    if |rules| > 0 {
      var n := |rules| - 1;
      DecodeRulesConcat(rules[..n]);
      assert DecodedEach(rules)[..n] == DecodedEach(rules[..n]);
    }
  }

  /** An ID is read out of a list of rule values iff some value names it. */
  lemma InDecodeRules(rules: seq<string>, k: string)
    ensures k in DecodeRules(rules) <==> exists i :: 0 <= i < |rules| && k in DecodeRule(rules[i])
  {
    DecodeRulesConcat(rules);
    InConcat(DecodedEach(rules), k);
    if exists i :: 0 <= i < |rules| && k in DecodeRule(rules[i]) {
      var i :| 0 <= i < |rules| && k in DecodeRule(rules[i]);
      assert k in DecodedEach(rules)[i];
    }
  }

  /** A clause that the decoder reads back: non-empty, without a space. */
  predicate Plain(c: string)
  {
    |c| > 0 && ' ' !in c
  }

  lemma StripAllAppend(a: seq<string>, b: seq<string>)
    ensures StripAll(a + b) == StripAll(a) + StripAll(b)
  {
  }

  /** One rule value decodes to the stripped clauses of its group. */
  lemma DecodeJoin(g: seq<string>)
    requires forall i :: 0 <= i < |g| ==> Plain(g[i])
    ensures DecodeRule(Join(g, Or)) == StripAll(g)
  {
    if |g| > 0 {
      JoinLength(g, Or);
      assert Or[0] == ' ';
      SplitJoin(g, Or);
    }
  }

  lemma {:induction false} DecodeJoinAll(gs: seq<seq<string>>)
    requires forall c :: c in Flatten(gs) ==> Plain(c)
    ensures DecodeRules(JoinAll(gs)) == StripAll(Flatten(gs))
    decreases |gs|
  {
    if |gs| > 0 {
      var init, g := gs[..|gs| - 1], gs[|gs| - 1];
      assert Flatten(gs) == Flatten(init) + g;
      assert JoinAll(gs)[..|gs| - 1] == JoinAll(init);
      assert JoinAll(gs)[|gs| - 1] == Join(g, Or);
      DecodeJoinAll(init);
      forall i | 0 <= i < |g| ensures Plain(g[i]) {
        assert g[i] in Flatten(gs);
      }
      DecodeJoin(g);
      StripAllAppend(Flatten(init), g);
    }
  }

  /** Stripping `from:` from every clause of every rule value, in order,
      gives back exactly the input IDs, provided no ID holds a space (the
      separator's first character; account IDs are decimal digits). */
  lemma RoundTrip(ids: seq<string>)
    requires forall i :: 0 <= i < |ids| ==> ' ' !in ids[i]
    ensures DecodeRules(FilterRules(ids)) == ids
  {
    GroupsConcatenate(ids);
    var cs := Clauses(ids);
    forall c | c in Flatten(Groups(ids)) ensures Plain(c) {
      var k :| 0 <= k < |ids| && cs[k] == c;
      assert c == From + ids[k];
      assert ' ' !in From;
    }
    DecodeJoinAll(Groups(ids));
    forall i | 0 <= i < |ids| ensures StripAll(cs)[i] == ids[i] {
      assert cs[i][..|From|] == From && cs[i][|From|..] == ids[i];
    }
  }
}
