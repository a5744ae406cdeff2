/** Reconciliation of the remote filter rules (`setupFilterRules`, stream.go).
    The remote filter service holds a sequence of rule records; the client
    lists them, deletes every record that is not needed, and adds the
    desired values that are still missing, in one batch each. */
module RuleSync {
  import opened RulePacking

  /** Server-assigned rule identifiers. */
  type RuleID = nat

  /** One installed rule as the service reports it. */
  datatype RuleRecord = RuleRecord(id: RuleID, value: string, tag: string)

  /** A rule to add (`twitter.TweetSearchStreamRule`). */
  datatype NewRule = NewRule(value: string, tag: string)

  /** The calls the client issues to the service, in order. */
  datatype Call = ListCall | DeleteCall(ids: seq<RuleID>) | AddCall(rules: seq<NewRule>)

  datatype ListResult = Listed(rules: seq<RuleRecord>) | ListFailed

  /** Which of the three service calls fail if issued; the service itself
      is outside the model. */
  datatype Faults = Faults(listFails: bool, deleteFails: bool, addFails: bool)

  datatype Stage = Fetching | Deleting | Adding
  datatype SyncResult = Synced | SyncFailed(stage: Stage)

  // ---------------------------------------------------------------------
  // The partition of the remote records, as a specification.

  function Values(rs: seq<RuleRecord>): set<string>
  {
    set r | r in rs :: r.value
  }

  lemma ValuesSnoc(rs: seq<RuleRecord>, r: RuleRecord)
    ensures Values(rs + [r]) == Values(rs) + {r.value}
  {
    assert r in rs + [r];
    forall v | v in Values(rs) ensures v in Values(rs + [r]) {
      var x :| x in rs && x.value == v;
      assert x in rs + [r];
    }
  }

  lemma ValuesAppend(a: seq<RuleRecord>, b: seq<RuleRecord>)
    ensures Values(a + b) == Values(a) + Values(b)
  {
    forall v | v in Values(a) ensures v in Values(a + b) {
      var x :| x in a && x.value == v;
      assert x in a + b;
    }
    forall v | v in Values(b) ensures v in Values(a + b) {
      var x :| x in b && x.value == v;
      assert x in a + b;
    }
  }

  lemma NotInValues(rs: seq<RuleRecord>, v: string)
    ensures v !in Values(rs) <==> forall j :: 0 <= j < |rs| ==> rs[j].value != v
  {
    if v in Values(rs) {
      var x :| x in rs && x.value == v;
      var j :| 0 <= j < |rs| && rs[j] == x;
    } else {
      forall j | 0 <= j < |rs| ensures rs[j].value != v {
        assert rs[j] in rs;
      }
    }
  }

  ghost predicate DistinctValues(rs: seq<RuleRecord>)
  {
    forall i, j :: 0 <= i < j < |rs| ==> rs[i].value != rs[j].value
  }

  ghost predicate DistinctIDs(rs: seq<RuleRecord>)
  {
    forall i, j :: 0 <= i < j < |rs| ==> rs[i].id != rs[j].id
  }

  /** No earlier record carries the same value as record i. */
  predicate FirstOfValue(rs: seq<RuleRecord>, i: nat)
    requires i < |rs|
  {
    forall j :: 0 <= j < i ==> rs[j].value != rs[i].value
  }

  /** Record i survives reconciliation: its value is desired and no earlier
      record with that value was kept before it. */
  predicate Kept(rs: seq<RuleRecord>, desired: set<string>, i: nat)
    requires i < |rs|
  {
    rs[i].value in desired && FirstOfValue(rs, i)
  }

  /** The IDs of every record that is not kept, in record order. */
  function Unneeded(rs: seq<RuleRecord>, desired: set<string>): seq<RuleID>
    decreases |rs|
  {
    if |rs| == 0 then []
    else Unneeded(rs[..|rs| - 1], desired) + (if Kept(rs, desired, |rs| - 1) then [] else [rs[|rs| - 1].id])
  }

  /** The records that are kept, in record order. */
  function KeptRecords(rs: seq<RuleRecord>, desired: set<string>): seq<RuleRecord>
    decreases |rs|
  {
    if |rs| == 0 then []
    else KeptRecords(rs[..|rs| - 1], desired) + (if Kept(rs, desired, |rs| - 1) then [rs[|rs| - 1]] else [])
  }

  /** The desired values no record provides: these are added. */
  function Missing(rs: seq<RuleRecord>, desired: set<string>): set<string>
  {
    desired - Values(rs)
  }

  /** The service's bulk delete: drops every record whose ID is listed. */
  function WithoutIDs(rs: seq<RuleRecord>, ids: seq<RuleID>): seq<RuleRecord>
    decreases |rs|
  {
    if |rs| == 0 then []
    else WithoutIDs(rs[..|rs| - 1], ids) + (if rs[|rs| - 1].id in ids then [] else [rs[|rs| - 1]])
  }

  /** The service's bulk add: appends the rules with fresh consecutive IDs. */
  function NewRecords(rules: seq<NewRule>, next: nat): seq<RuleRecord>
  {
    seq(|rules|, i requires 0 <= i < |rules| => RuleRecord(next + i, rules[i].value, rules[i].tag))
  }

  /** An add request for exactly the values `missing`, each once, untagged. */
  ghost predicate RequestFor(req: seq<NewRule>, missing: set<string>)
  {
    && (forall i :: 0 <= i < |req| ==> req[i].tag == "")
    && (forall i, j :: 0 <= i < j < |req| ==> req[i].value != req[j].value)
    && (forall v :: v in missing <==> exists i :: 0 <= i < |req| && req[i].value == v)
  }

  // ---------------------------------------------------------------------
  // The client's loops.

  /** The loop of stream.go:71-78 over the listed records; `ruleMap` is the
      set of desired values still unmatched, consumed as records match. */
  method Partition(desired: set<string>, rules: seq<RuleRecord>) returns (toDelete: seq<RuleID>, remaining: set<string>)
    ensures toDelete == Unneeded(rules, desired)
    ensures remaining == Missing(rules, desired)
  {
    var ruleMap := desired;
    toDelete := [];
    for i := 0 to |rules|
      invariant ruleMap == desired - Values(rules[..i])
      invariant toDelete == Unneeded(rules[..i], desired)
    {
      var rule := rules[i];
      assert rules[..i + 1] == rules[..i] + [rule];
      assert rules[..i + 1][..i] == rules[..i];
      ValuesSnoc(rules[..i], rule);
      NotInValues(rules[..i], rule.value);
      assert Kept(rules[..i + 1], desired, i) <==> rule.value in ruleMap;
      if rule.value !in ruleMap {
        toDelete := toDelete + [rule.id];
        continue;
      }
      ruleMap := ruleMap - {rule.value};
    }
    assert rules[..|rules|] == rules;
    remaining := ruleMap;
  }

  /** The loop of stream.go:86-89: one untagged rule per remaining value, in
      the map's unspecified iteration order. */
  method BuildRequest(remaining: set<string>) returns (req: seq<NewRule>)
    ensures RequestFor(req, remaining)
  {
    req := [];
    var left := remaining;
    while left != {}
      invariant left <= remaining
      invariant forall i :: 0 <= i < |req| ==> req[i].tag == "" && req[i].value in remaining && req[i].value !in left
      invariant forall i, j :: 0 <= i < j < |req| ==> req[i].value != req[j].value
      invariant forall v :: v in remaining - left <==> exists i :: 0 <= i < |req| && req[i].value == v
      decreases left
    {
      var r :| r in left;
      ghost var before, leftBefore := req, left;
      req := req + [NewRule(r, "")];
      left := left - {r};
      forall v ensures v in remaining - left <==> exists i :: 0 <= i < |req| && req[i].value == v {
        if v in remaining - left {
          if v == r {
            assert req[|req| - 1].value == v;
          } else {
            assert v in remaining - leftBefore;
            var i :| 0 <= i < |before| && before[i].value == v;
            assert req[i] == before[i];
          }
        }
        if exists i :: 0 <= i < |req| && req[i].value == v {
          var i :| 0 <= i < |req| && req[i].value == v;
          if i < |before| {
            assert before[i] == req[i];
          }
        }
      }
    }
    assert remaining - left == remaining;
  }

  // ---------------------------------------------------------------------
  // What reconciliation achieves.

  lemma {:induction false} KeptPrefix(rs: seq<RuleRecord>, desired: set<string>, n: nat, i: nat)
    requires i < n <= |rs|
    ensures Kept(rs[..n], desired, i) <==> Kept(rs, desired, i)
  {
    assert forall j :: 0 <= j <= i ==> rs[..n][j] == rs[j];
  }

  /** With distinct record IDs, a record's ID is slated for deletion exactly
      when the record is not kept. */
  lemma {:induction false} UnneededIDs(rs: seq<RuleRecord>, desired: set<string>)
    requires DistinctIDs(rs)
    ensures forall i :: 0 <= i < |rs| ==> (rs[i].id in Unneeded(rs, desired) <==> !Kept(rs, desired, i))
    ensures forall x :: x in Unneeded(rs, desired) ==> exists j :: 0 <= j < |rs| && rs[j].id == x
    decreases |rs|
  {
    if |rs| > 0 {
      var n := |rs| - 1;
      var init := rs[..n];
      UnneededIDs(init, desired);
      forall i | 0 <= i < n ensures Kept(init, desired, i) <==> Kept(rs, desired, i) {
        KeptPrefix(rs, desired, n, i);
      }
      forall x | x in Unneeded(init, desired) ensures x != rs[n].id {
        var j :| 0 <= j < n && init[j].id == x;
      }
    }
  }

  /** The bulk delete of the unneeded IDs leaves exactly the kept records. */
  lemma {:induction false} DeleteLeavesKept(rs: seq<RuleRecord>, ids: seq<RuleID>, desired: set<string>)
    requires DistinctIDs(rs)
    requires forall i :: 0 <= i < |rs| ==> (rs[i].id in ids <==> !Kept(rs, desired, i))
    ensures WithoutIDs(rs, ids) == KeptRecords(rs, desired)
    decreases |rs|
  {
    if |rs| > 0 {
      var n := |rs| - 1;
      forall i | 0 <= i < n ensures Kept(rs[..n], desired, i) <==> Kept(rs, desired, i) {
        KeptPrefix(rs, desired, n, i);
      }
      DeleteLeavesKept(rs[..n], ids, desired);
    }
  }

  /** The kept records carry each value that is both desired and present
      exactly once. */
  lemma {:induction false} KeptValues(rs: seq<RuleRecord>, desired: set<string>)
    ensures Values(KeptRecords(rs, desired)) == desired * Values(rs)
    ensures DistinctValues(KeptRecords(rs, desired))
    decreases |rs|
  {
    if |rs| > 0 {
      var n := |rs| - 1;
      var init, last := rs[..n], rs[n];
      assert rs == init + [last];
      KeptValues(init, desired);
      ValuesSnoc(init, last);
      NotInValues(init, last.value);
      var k := KeptRecords(init, desired);
      assert KeptRecords(rs, desired) == k + (if Kept(rs, desired, n) then [last] else []);
      assert forall j :: 0 <= j < n ==> init[j] == rs[j];
      if Kept(rs, desired, n) {
        ValuesSnoc(k, last);
        NotInValues(k, last.value);
        assert last.value !in Values(init);
      } else if last.value in desired {
        var j :| 0 <= j < n && rs[j].value == last.value;
        assert last.value in Values(init);
        assert k + [] == k;
      } else {
        assert k + [] == k;
      }
    }
  }

  /** Deleting none leaves the records as they were. */
  lemma {:induction false} WithoutNone(rs: seq<RuleRecord>)
    ensures WithoutIDs(rs, []) == rs
    decreases |rs|
  {
    if |rs| > 0 {
      WithoutNone(rs[..|rs| - 1]);
      assert rs[..|rs| - 1] + [rs[|rs| - 1]] == rs;
    }
  }

  /** The bulk delete keeps distinct IDs distinct and keeps only existing records. */
  lemma {:induction false} WithoutIDsSubset(rs: seq<RuleRecord>, ids: seq<RuleID>)
    requires DistinctIDs(rs)
    ensures DistinctIDs(WithoutIDs(rs, ids))
    ensures forall r :: r in WithoutIDs(rs, ids) ==> r in rs
    decreases |rs|
  {
    if |rs| > 0 {
      var n := |rs| - 1;
      WithoutIDsSubset(rs[..n], ids);
      var w := WithoutIDs(rs[..n], ids);
      forall r | r in w ensures r.id != rs[n].id {
        assert r in rs[..n];
        var j :| 0 <= j < n && rs[..n][j] == r;
      }
    }
  }

  /** After the delete and the add of a request for the missing values, the
      installed values are exactly the desired ones, each once. */
  lemma Converges(rs: seq<RuleRecord>, desired: set<string>, req: seq<NewRule>, next: nat)
    requires RequestFor(req, Missing(rs, desired))
    ensures Values(KeptRecords(rs, desired) + NewRecords(req, next)) == desired
    ensures DistinctValues(KeptRecords(rs, desired) + NewRecords(req, next))
  {
    KeptValues(rs, desired);
    var k, a := KeptRecords(rs, desired), NewRecords(req, next);
    ValuesAppend(k, a);
    forall v ensures v in Values(a) <==> v in Missing(rs, desired) {
      if v in Values(a) {
        var x :| x in a && x.value == v;
        var i :| 0 <= i < |a| && a[i] == x;
        assert req[i].value == v;
      }
      if v in Missing(rs, desired) {
        var i :| 0 <= i < |req| && req[i].value == v;
        assert a[i] in a;
      }
    }
    forall i, j | 0 <= i < j < |k + a| ensures (k + a)[i].value != (k + a)[j].value {
      if j < |k| {
        assert (k + a)[i] == k[i] && (k + a)[j] == k[j];
      } else if i >= |k| {
        assert (k + a)[i] == a[i - |k|] && (k + a)[j] == a[j - |k|];
      } else {
        assert (k + a)[i] == k[i] && k[i] in k;
        assert (k + a)[j] == a[j - |k|] && a[j - |k|] in a;
        assert k[i].value in Values(k);
        assert a[j - |k|].value in Values(a);
      }
    }
  }

  /** Records holding distinct desired values are all kept. */
  lemma {:induction false} KeepsAll(rs: seq<RuleRecord>, desired: set<string>)
    requires DistinctValues(rs) && Values(rs) <= desired
    ensures Unneeded(rs, desired) == []
    ensures KeptRecords(rs, desired) == rs
    decreases |rs|
  {
    if |rs| > 0 {
      var n := |rs| - 1;
      ValuesSnoc(rs[..n], rs[n]);
      assert rs[..n] + [rs[n]] == rs;
      KeepsAll(rs[..n], desired);
      assert rs[n] in rs;
    }
  }

  /** A service that already holds each desired value once and nothing
      else is left alone: nothing to delete, nothing to add. */
  lemma NoChurn(rs: seq<RuleRecord>, desired: set<string>)
    requires DistinctValues(rs) && Values(rs) <= desired
    ensures Unneeded(rs, desired) == []
    ensures KeptRecords(rs, desired) == rs
    ensures Values(rs) == desired ==> Missing(rs, desired) == {}
  {
    KeepsAll(rs, desired);
  }

  /** Reconciling twice with the same desired values: the second run, on
      the state the first one installed, issues no delete and no add. */
  lemma Idempotent(rs: seq<RuleRecord>, desired: set<string>, req: seq<NewRule>, next: nat)
    requires RequestFor(req, Missing(rs, desired))
    ensures var after := KeptRecords(rs, desired) + NewRecords(req, next);
      Unneeded(after, desired) == [] && Missing(after, desired) == {}
  {
    var after := KeptRecords(rs, desired) + NewRecords(req, next);
    Converges(rs, desired, req, next);
    NoChurn(after, desired);
  }

  // ---------------------------------------------------------------------
  // The remote filter service and the client procedure.

  /** The remote filter service: its installed records, the next ID it
      assigns, and the log of calls it has received. */
  class RuleService {
    var records: seq<RuleRecord>
    var nextID: nat
    var calls: seq<Call>

    ghost predicate Valid()
      reads this
    {
      DistinctIDs(records) && forall i :: 0 <= i < |records| ==> records[i].id < nextID
    }

    constructor (initial: seq<RuleRecord>, next: nat)
      requires DistinctIDs(initial)
      requires forall i :: 0 <= i < |initial| ==> initial[i].id < next
      ensures Valid()
      ensures records == initial && nextID == next && calls == []
    {
      records := initial;
      nextID := next;
      calls := [];
    }

    /** `TweetSearchStreamRules`: list the installed rules. */
    method List(fail: bool) returns (res: ListResult)
      modifies this`calls
      ensures calls == old(calls) + [ListCall]
      ensures res == if fail then ListFailed else Listed(records)
    {
      calls := calls + [ListCall];
      res := if fail then ListFailed else Listed(records);
    }

    /** `TweetSearchStreamDeleteRuleByID`: delete the listed IDs, all or nothing. */
    method Delete(ids: seq<RuleID>, fail: bool) returns (ok: bool)
      requires Valid()
      modifies this`records, this`calls
      ensures Valid()
      ensures calls == old(calls) + [DeleteCall(ids)]
      ensures ok == !fail
      ensures records == if ok then WithoutIDs(old(records), ids) else old(records)
    {
      calls := calls + [DeleteCall(ids)];
      ok := !fail;
      if ok {
        WithoutIDsSubset(records, ids);
        records := WithoutIDs(records, ids);
        forall i | 0 <= i < |records| ensures records[i].id < nextID {
          assert records[i] in records;
          var j :| 0 <= j < |old(records)| && old(records)[j] == records[i];
        }
      }
    }

    /** `TweetSearchStreamAddRule`: add the rules, all or nothing. */
    method Add(rules: seq<NewRule>, fail: bool) returns (ok: bool)
      requires Valid()
      modifies this`records, this`nextID, this`calls
      ensures Valid()
      ensures calls == old(calls) + [AddCall(rules)]
      ensures ok == !fail
      ensures records == if ok then old(records) + NewRecords(rules, old(nextID)) else old(records)
      ensures nextID == if ok then old(nextID) + |rules| else old(nextID)
    {
      calls := calls + [AddCall(rules)];
      ok := !fail;
      if ok {
        records := records + NewRecords(rules, nextID);
        nextID := nextID + |rules|;
      }
    }
  }

  /** The set of desired rule values for the tracked `ids`. */
  function Desired(ids: seq<string>): set<string>
  {
    set r | r in FilterRules(ids)
  }

  /** The loop of stream.go:62-65: the packed values as a set. */
  method RuleSet(cfgRules: seq<string>) returns (ruleMap: set<string>)
    ensures forall r :: r in ruleMap <==> r in cfgRules
  {
    ruleMap := {};
    for i := 0 to |cfgRules|
      invariant forall r :: r in ruleMap <==> r in cfgRules[..i]
    {
      assert cfgRules[..i + 1] == cfgRules[..i] + [cfgRules[i]];
      ruleMap := ruleMap + {cfgRules[i]};
    }
    assert cfgRules[..|cfgRules|] == cfgRules;
  }

  /** What reconciling towards `desired` does to the service, given which
      calls fail: the calls it receives and the records it ends with. */
  ghost predicate Reconciled(desired: set<string>, faults: Faults, before: seq<RuleRecord>, next: nat,
                             calls0: seq<Call>, calls: seq<Call>, records: seq<RuleRecord>, res: SyncResult)
  {
    var del := Unneeded(before, desired);
    var missing := Missing(before, desired);
    var afterDelete := KeptRecords(before, desired);
    var start := calls0 + [ListCall] + (if |del| > 0 then [DeleteCall(del)] else []);
    if faults.listFails then
      res == SyncFailed(Fetching) && records == before && calls == calls0 + [ListCall]
    else if |del| > 0 && faults.deleteFails then
      res == SyncFailed(Deleting) && records == before && calls == start
    else if |missing| == 0 then
      res == Synced && records == afterDelete && calls == start
    else
      && |calls| == |start| + 1 && calls[..|start|] == start
      && calls[|start|].AddCall? && RequestFor(calls[|start|].rules, missing)
      && if faults.addFails then
           res == SyncFailed(Adding) && records == afterDelete
         else
           res == Synced && records == afterDelete + NewRecords(calls[|start|].rules, next)
  }

  /** stream.go:67-95: list, delete the unneeded records if there are any,
      add the missing values if there are any; each failure ends it at once. */
  method Reconcile(svc: RuleService, ruleMap: set<string>, faults: Faults) returns (res: SyncResult)
    requires svc.Valid()
    modifies svc
    ensures svc.Valid()
    ensures Reconciled(ruleMap, faults, old(svc.records), old(svc.nextID), old(svc.calls), svc.calls, svc.records, res)
  {
    ghost var before := svc.records;
    ghost var next := svc.nextID;
    var listed := svc.List(faults.listFails);
    if listed.ListFailed? {
      return SyncFailed(Fetching);
    }
    var toDelete, remaining := Partition(ruleMap, listed.rules);
    UnneededIDs(before, ruleMap);
    DeleteLeavesKept(before, toDelete, ruleMap);
    if |toDelete| > 0 {
      var ok := svc.Delete(toDelete, faults.deleteFails);
      if !ok {
        return SyncFailed(Deleting);
      }
    } else {
      WithoutNone(before);
    }
    assert svc.records == KeptRecords(before, ruleMap);
    if |remaining| == 0 {
      return Synced;
    }
    ghost var start := svc.calls;
    var req := BuildRequest(remaining);
    var ok := svc.Add(req, faults.addFails);
    assert svc.calls == start + [AddCall(req)];
    if !ok {
      return SyncFailed(Adding);
    }
    return Synced;
  }

  /** After a reconciliation that succeeded, the service holds each desired
      value exactly once and nothing else. */
  lemma ReconciledConverges(desired: set<string>, faults: Faults, before: seq<RuleRecord>, next: nat,
                            calls0: seq<Call>, calls: seq<Call>, records: seq<RuleRecord>)
    requires Reconciled(desired, faults, before, next, calls0, calls, records, Synced)
    ensures Values(records) == desired && DistinctValues(records)
  {
    KeptValues(before, desired);
    var missing := Missing(before, desired);
    if |missing| > 0 {
      var start := calls0 + [ListCall] + (if |Unneeded(before, desired)| > 0 then [DeleteCall(Unneeded(before, desired))] else []);
      Converges(before, desired, calls[|start|].rules, next);
    } else {
      assert desired * Values(before) == desired by {
        forall v | v in desired ensures v in Values(before) {
          assert v !in missing;
        }
      }
    }
  }

  /** A service already holding each desired value exactly once, and
      nothing else, receives no delete and no add: only the listing. */
  lemma ConvergedStateUntouched(desired: set<string>, faults: Faults, before: seq<RuleRecord>, next: nat,
                                calls0: seq<Call>, calls: seq<Call>, records: seq<RuleRecord>, res: SyncResult)
    requires Values(before) == desired && DistinctValues(before)
    requires !faults.listFails
    requires Reconciled(desired, faults, before, next, calls0, calls, records, res)
    ensures res == Synced && records == before && calls == calls0 + [ListCall]
  {
    NoChurn(before, desired);
  }

  /** `setupFilterRules(ids)`: pack the IDs, then reconcile. */
  method SetupFilterRules(svc: RuleService, ids: seq<string>, faults: Faults) returns (res: SyncResult)
    requires svc.Valid()
    modifies svc
    ensures svc.Valid()
    ensures Reconciled(Desired(ids), faults, old(svc.records), old(svc.nextID), old(svc.calls), svc.calls, svc.records, res)
    ensures res == Synced ==> Values(svc.records) == Desired(ids) && DistinctValues(svc.records)
  {
    var cfgRules := FilterRulesFromIDs(ids);
    var ruleMap := RuleSet(cfgRules);
    assert ruleMap == Desired(ids);
    ghost var before, next, calls0 := svc.records, svc.nextID, svc.calls;
    res := Reconcile(svc, ruleMap, faults);
    if res == Synced {
      ReconciledConverges(ruleMap, faults, before, next, calls0, svc.calls, svc.records);
    }
  }

  /** Records A and B installed, B and C desired: only A is deleted and only C is added. */
  lemma DeletesAAddsC(a: RuleRecord, b: RuleRecord, c: string)
    requires a.value != b.value && c != a.value && c != b.value
    ensures Unneeded([a, b], {b.value, c}) == [a.id]
    ensures Missing([a, b], {b.value, c}) == {c}
  {
    var rs := [a, b];
    var d := {b.value, c};
    assert rs[..1] == [a];
    assert [a][..0] == [];
    assert !Kept([a], d, 0);
    assert Kept(rs, d, 1);
    assert Unneeded([a], d) == [a.id];
    assert Values(rs) == {a.value, b.value} by {
      ValuesSnoc([a], b);
      ValuesSnoc([], a);
      assert [] + [a] == [a];
      assert [a] + [b] == rs;
    }
  }
}
