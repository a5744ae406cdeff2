/** Start-up of the stream (stream.go:105-118): build the ID-to-channels
    map, collect its keys in sorted order, and install the filter rules for
    them; any failure is fatal. Then the end-to-end facts that join the
    configuration, the rules and the fan-out. */
module Monitor {
  import opened Config
  import opened SortedIDs
  import opened RulePacking
  import opened RuleSync
  import opened Dispatch

  datatype Fatal = MapFailed(remote: RemoteJSON) | RulesFailed(stage: Stage)

  /** Ready to stream with the map and the tracked IDs, or stopped. */
  datatype Startup = Ready(idToChannels: map<string, seq<string>>, ids: seq<string>) | Stopped(reason: Fatal)

  /** The start-up sequence of stream.go:105-118: map the channels, sort
      the keys, and install the rules for them. `ids` and `res` name the
      tracked IDs and the rule setup's outcome. */
  method Start(c: Config, lists: seq<AccountList>, svc: RuleService, faults: Faults)
    returns (out: Startup, ghost ids: seq<string>, ghost res: SyncResult)
    requires |lists| == |c.channels| && svc.Valid()
    modifies svc
    ensures svc.Valid()
    ensures Merge(c.channels, lists).ListError? ==>
      && out == Stopped(MapFailed(Merge(c.channels, lists).remote))
      && svc.calls == old(svc.calls) && svc.records == old(svc.records)
    ensures Merge(c.channels, lists).Mapped? ==>
      && StrictlySorted(ids)
      && (forall k :: k in ids <==> k in Merge(c.channels, lists).m)
      && Reconciled(Desired(ids), faults, old(svc.records), old(svc.nextID), old(svc.calls), svc.calls, svc.records, res)
      && out == (if res == Synced then Ready(Merge(c.channels, lists).m, ids) else Stopped(RulesFailed(res.stage)))
    ensures out.Ready? ==>
      && Merge(c.channels, lists) == Mapped(out.idToChannels)
      && StrictlySorted(out.ids)
      && (forall k :: k in out.ids <==> k in out.idToChannels)
      && Values(svc.records) == Desired(out.ids) && DistinctValues(svc.records)
  {
    ids, res := [], Synced;
    var r := TwitterIDToChannels(c, lists);
    if r.ListError? {
      return Stopped(MapFailed(r.remote)), ids, res;
    }
    var tracked := SortedKeys(r.m);
    var sr := SetupFilterRules(svc, tracked, faults);
    ids, res := tracked, sr;
    if sr.SyncFailed? {
      return Stopped(RulesFailed(sr.stage)), ids, res;
    }
    return Ready(r.m, tracked), ids, res;
  }

  /** The accounts the packed rule values track are exactly the map's keys,
      each once and in ascending order, and so are the accounts named by
      the records a successful start-up leaves installed; this needs IDs
      without spaces. */
  lemma TrackedAccounts(m: map<string, seq<string>>, ids: seq<string>, records: seq<RuleRecord>)
    requires StrictlySorted(ids) && forall k :: k in ids <==> k in m
    requires forall k :: k in m ==> ' ' !in k
    requires Values(records) == Desired(ids)
    ensures DecodeRules(FilterRules(ids)) == ids
    ensures forall k :: k in m <==> exists r :: r in records && k in DecodeRule(r.value)
  {
    forall i | 0 <= i < |ids| ensures ' ' !in ids[i] {
      assert ids[i] in m;
    }
    RoundTrip(ids);
    var rules := FilterRules(ids);
    forall k ensures k in m <==> exists r :: r in records && k in DecodeRule(r.value) {
      InDecodeRules(rules, k);
      if k in m {
        var i :| 0 <= i < |rules| && k in DecodeRule(rules[i]);
        assert rules[i] in Values(records);
        var r :| r in records && r.value == rules[i];
      }
      if exists r :: r in records && k in DecodeRule(r.value) {
        var r :| r in records && k in DecodeRule(r.value);
        assert r.value in Desired(ids);
        var i :| 0 <= i < |rules| && rules[i] == r.value;
      }
    }
  }

  /** The order the map yields its keys in does not matter: any two sorted
      key lists of the same map are the same list. */
  lemma KeyOrderIrrelevant(m: map<string, seq<string>>, a: seq<string>, b: seq<string>)
    requires StrictlySorted(a) && forall k :: k in a <==> k in m
    requires StrictlySorted(b) && forall k :: k in b <==> k in m
    ensures a == b
  {
    SortedUnique(a, b);
  }

  /** A tweet by a channel's static user is posted to that channel. */
  lemma StaticUserTweetPosted(chs: seq<Channel>, lists: seq<AccountList>, i: nat, j: nat, msg: TweetMessage, t: nat)
    requires |lists| == |chs| && i < |chs| && j < |chs[i].users|
    requires Merge(chs, lists).Mapped?
    requires t < |msg.tweets| && msg.tweets[t].authorID == chs[i].users[j].id
    ensures Send(chs[i].discordID, TweetText(msg, msg.tweets[t])) in Planned(msg, msg.tweets, Merge(chs, lists).m)
  {
    var m := Merge(chs, lists).m;
    StaticUserRouted(chs, lists, i, j);
    var dests := Lookup(m, msg.tweets[t].authorID);
    var k :| 0 <= k < |dests| && dests[k] == chs[i].discordID;
    PlannedComplete(msg, msg.tweets, m, t, k);
  }
}
