/** The channel configuration and the map from tracked account IDs to the
    chat channels that follow them (`Config.TwitterIDToChannels`,
    config/config.go). Fetching and decoding a channel's remote account list
    is not modelled: its outcome is an input, one per channel. */
module Config {

  datatype TwitterUser = TwitterUser(id: string, name: string)

  /** A remote account list and the accounts of it to leave out. */
  datatype RemoteJSON = RemoteJSON(url: string, exclude: seq<TwitterUser>)

  datatype Channel = Channel(name: string, discordID: string, remoteJSON: RemoteJSON, users: seq<TwitterUser>)

  datatype Config = Config(channels: seq<Channel>)

  /** The outcome of `http.Get` and JSON decoding of one account list:
      the entries' IDs, in list order, or a failure. */
  datatype AccountList = Fetched(entries: seq<string>) | FetchFailed

  /** The map, or the remote list whose fetch or decoding failed. */
  datatype MapResult = Mapped(m: map<string, seq<string>>) | ListError(remote: RemoteJSON)

  /** Go's `r[k]` on a map of slices: nil (empty) for a missing key. */
  function Lookup(m: map<string, seq<string>>, k: string): seq<string>
  {
    if k in m then m[k] else []
  }

  /** `r[k] = append(r[k], d)` for every k of `ids`, in order. */
  function AppendAll(m: map<string, seq<string>>, ids: seq<string>, d: string): map<string, seq<string>>
    decreases |ids|
  {
    if |ids| == 0 then m
    else
      var m' := AppendAll(m, ids[..|ids| - 1], d);
      var k := ids[|ids| - 1];
      m'[k := Lookup(m', k) + [d]]
  }

  /** The `excluded` set built from `Exclude`. */
  function ExcludedIDs(us: seq<TwitterUser>): set<string>
    decreases |us|
  {
    if |us| == 0 then {} else ExcludedIDs(us[..|us| - 1]) + {us[|us| - 1].id}
  }

  /** The remote entries that are taken: non-empty and not excluded, in order. */
  function Accepted(entries: seq<string>, excluded: set<string>): seq<string>
    decreases |entries|
  {
    if |entries| == 0 then []
    else
      var e := entries[|entries| - 1];
      Accepted(entries[..|entries| - 1], excluded) + (if e != "" && e !in excluded then [e] else [])
  }

  /** An entry is taken iff its ID is non-empty and not excluded. */
  lemma {:induction false} AcceptedHolds(entries: seq<string>, excluded: set<string>, k: string)
    ensures k in Accepted(entries, excluded) <==> k in entries && k != "" && k !in excluded
    decreases |entries|
  {
    if |entries| > 0 {
      var n := |entries| - 1;
      AcceptedHolds(entries[..n], excluded, k);
      assert entries == entries[..n] + [entries[n]];
    }
  }

  function UserIDs(us: seq<TwitterUser>): seq<string>
    decreases |us|
  {
    if |us| == 0 then [] else UserIDs(us[..|us| - 1]) + [us[|us| - 1].id]
  }

  /** Channel `ch` has a remote list and its fetch failed. */
  predicate FetchFails(ch: Channel, list: AccountList)
  {
    ch.remoteJSON.url != "" && list.FetchFailed?
  }

  /** The accepted remote entries (only when the channel has a URL), then the static users. */
  function RemoteIDs(ch: Channel, list: AccountList): seq<string>
  {
    if ch.remoteJSON.url != "" && list.Fetched? then Accepted(list.entries, ExcludedIDs(ch.remoteJSON.exclude)) else []
  }

  function ChannelIDs(ch: Channel, list: AccountList): seq<string>
  {
    RemoteIDs(ch, list) + UserIDs(ch.users)
  }

  /** One pass of the outer loop for a channel whose list did not fail:
      the remote entries first, then the static users. */
  function AddChannel(m: map<string, seq<string>>, ch: Channel, list: AccountList): map<string, seq<string>>
  {
    AppendAll(AppendAll(m, RemoteIDs(ch, list), ch.discordID), UserIDs(ch.users), ch.discordID)
  }

  /** The outer loop, one channel at a time, as a left fold. */
  function Merge(chs: seq<Channel>, lists: seq<AccountList>): MapResult
    requires |lists| == |chs|
    decreases |chs|
  {
    if |chs| == 0 then Mapped(map[])
    else
      var n := |chs| - 1;
      match Merge(chs[..n], lists[..n])
      case ListError(e) => ListError(e)
      case Mapped(m) =>
        if FetchFails(chs[n], lists[n]) then ListError(chs[n].remoteJSON)
        else Mapped(AddChannel(m, chs[n], lists[n]))
  }

  lemma PrefixOfSnoc<T>(s: seq<T>, i: nat)
    requires i < |s|
    ensures s[..i + 1][..i] == s[..i]
  {
  }

  /** An error in a prefix of the channels is the whole result. */
  lemma {:induction false} MergeErrorSticks(chs: seq<Channel>, lists: seq<AccountList>, n: nat)
    requires |lists| == |chs| && n <= |chs|
    requires Merge(chs[..n], lists[..n]).ListError?
    ensures Merge(chs, lists) == Merge(chs[..n], lists[..n])
    decreases |chs|
  {
    if n < |chs| {
      var k := |chs| - 1;
      assert chs[..k][..n] == chs[..n] && lists[..k][..n] == lists[..n];
      MergeErrorSticks(chs[..k], lists[..k], n);
    } else {
      assert chs[..n] == chs && lists[..n] == lists;
    }
  }

  /** The loop of config/config.go:68-71. */
  method ExcludedSet(exclude: seq<TwitterUser>) returns (excluded: set<string>)
    ensures excluded == ExcludedIDs(exclude)
  {
    excluded := {};
    for j := 0 to |exclude|
      invariant excluded == ExcludedIDs(exclude[..j])
    {
      PrefixOfSnoc(exclude, j);
      excluded := excluded + {exclude[j].id};
    }
    assert exclude[..|exclude|] == exclude;
  }

  /** The loop of config/config.go:73-77: append `d` for each taken entry. */
  method AppendEntries(r0: map<string, seq<string>>, entries: seq<string>, excluded: set<string>, d: string)
    returns (r: map<string, seq<string>>)
    ensures r == AppendAll(r0, Accepted(entries, excluded), d)
  {
    r := r0;
    for j := 0 to |entries|
      invariant r == AppendAll(r0, Accepted(entries[..j], excluded), d)
    {
      PrefixOfSnoc(entries, j);
      var e := entries[j];
      assert entries[..j + 1][j] == e;
      ghost var acc := Accepted(entries[..j + 1], excluded);
      assert acc == Accepted(entries[..j], excluded) + (if e != "" && e !in excluded then [e] else []);
      if e != "" && e !in excluded {
        assert acc[..|acc| - 1] == Accepted(entries[..j], excluded) && acc[|acc| - 1] == e;
        r := r[e := Lookup(r, e) + [d]];
      } else {
        assert acc == Accepted(entries[..j], excluded);
      }
    }
    assert entries[..|entries|] == entries;
  }

  /** The loop of config/config.go:80-82: append `d` for each static user. */
  method AppendUsers(r0: map<string, seq<string>>, users: seq<TwitterUser>, d: string)
    returns (r: map<string, seq<string>>)
    ensures r == AppendAll(r0, UserIDs(users), d)
  {
    r := r0;
    for j := 0 to |users|
      invariant r == AppendAll(r0, UserIDs(users[..j]), d)
    {
      PrefixOfSnoc(users, j);
      var u := users[j];
      r := r[u.id := Lookup(r, u.id) + [d]];
    }
    assert users[..|users|] == users;
  }

  /** The outer loop of config/config.go:53-87, over the channels. */
  method TwitterIDToChannels(c: Config, lists: seq<AccountList>) returns (res: MapResult)
    requires |lists| == |c.channels|
    ensures res == Merge(c.channels, lists)
  {
    var chs := c.channels;
    var r: map<string, seq<string>> := map[];
    for i := 0 to |chs|
      invariant Merge(chs[..i], lists[..i]) == Mapped(r)
    {
      var ch := chs[i];
      PrefixOfSnoc(chs, i);
      PrefixOfSnoc(lists, i);
      ghost var r0 := r;
      if ch.remoteJSON.url != "" {
        var list := lists[i];
        if list.FetchFailed? {
          MergeErrorSticks(chs, lists, i + 1);
          return ListError(ch.remoteJSON);
        }
        var excluded := ExcludedSet(ch.remoteJSON.exclude);
        r := AppendEntries(r, list.entries, excluded, ch.discordID);
      }
      assert r == AppendAll(r0, RemoteIDs(ch, lists[i]), ch.discordID);
      r := AppendUsers(r, ch.users, ch.discordID);
      assert r == AddChannel(r0, ch, lists[i]);
    }
    assert chs[..|chs|] == chs && lists[..|lists|] == lists;
    return Mapped(r);
  }

  // ---------------------------------------------------------------------
  // What the map holds.

  function Count(k: string, ids: seq<string>): nat
    decreases |ids|
  {
    if |ids| == 0 then 0 else Count(k, ids[..|ids| - 1]) + (if ids[|ids| - 1] == k then 1 else 0)
  }

  /** `n` copies of `d`. */
  function Repeat(d: string, n: nat): seq<string>
  {
    seq(n, _ => d)
  }

  /** Channel ch's contribution to key k's list. */
  function Share(k: string, ch: Channel, list: AccountList): seq<string>
  {
    Repeat(ch.discordID, Count(k, ChannelIDs(ch, list)))
  }

  /** Key k's list, channel by channel: channel i's ID once per
      occurrence of k among that channel's accepted remote entries and
      static users. */
  function Expected(k: string, chs: seq<Channel>, lists: seq<AccountList>): seq<string>
    requires |lists| == |chs|
    decreases |chs|
  {
    if |chs| == 0 then []
    else
      var n := |chs| - 1;
      Expected(k, chs[..n], lists[..n]) + Share(k, chs[n], lists[n])
  }

  lemma {:induction false} CountAppend(k: string, a: seq<string>, b: seq<string>)
    ensures Count(k, a + b) == Count(k, a) + Count(k, b)
    decreases |b|
  {
    if |b| == 0 {
      assert a + b == a;
    } else {
      assert (a + b)[..|a + b| - 1] == a + b[..|b| - 1];
      CountAppend(k, a, b[..|b| - 1]);
    }
  }

  lemma {:induction false} CountPositive(k: string, ids: seq<string>)
    ensures Count(k, ids) > 0 <==> k in ids
    decreases |ids|
  {
    if |ids| > 0 {
      CountPositive(k, ids[..|ids| - 1]);
      assert ids == ids[..|ids| - 1] + [ids[|ids| - 1]];
    }
  }

  /** Appending for `ids` adds `d` to k's list once per occurrence of k. */
  lemma {:induction false} AppendAllLookup(m: map<string, seq<string>>, ids: seq<string>, d: string, k: string)
    ensures Lookup(AppendAll(m, ids, d), k) == Lookup(m, k) + Repeat(d, Count(k, ids))
    ensures k in AppendAll(m, ids, d) <==> k in m || Count(k, ids) > 0
    decreases |ids|
  {
    if |ids| > 0 {
      AppendAllLookup(m, ids[..|ids| - 1], d, k);
      var c := Count(k, ids[..|ids| - 1]);
      if ids[|ids| - 1] == k {
        assert Repeat(d, c) + [d] == Repeat(d, c + 1);
      }
    } else {
      assert Lookup(m, k) + Repeat(d, 0) == Lookup(m, k);
    }
  }

  /** Every key of a map this builds has a non-empty list. */
  lemma {:induction false} AppendAllNonEmpty(m: map<string, seq<string>>, ids: seq<string>, d: string)
    requires forall k :: k in m ==> m[k] != []
    ensures forall k :: k in AppendAll(m, ids, d) ==> AppendAll(m, ids, d)[k] != []
    decreases |ids|
  {
    if |ids| > 0 {
      AppendAllNonEmpty(m, ids[..|ids| - 1], d);
    }
  }

  /** One channel's pass adds its ID once per occurrence of k among its IDs. */
  lemma AddChannelLookup(m: map<string, seq<string>>, ch: Channel, list: AccountList, k: string)
    ensures Lookup(AddChannel(m, ch, list), k) == Lookup(m, k) + Share(k, ch, list)
    ensures k in AddChannel(m, ch, list) <==> k in m || Count(k, ChannelIDs(ch, list)) > 0
  {
    var d := ch.discordID;
    var rem, us := RemoteIDs(ch, list), UserIDs(ch.users);
    var m1 := AppendAll(m, rem, d);
    AppendAllLookup(m, rem, d, k);
    AppendAllLookup(m1, us, d, k);
    CountAppend(k, rem, us);
    RepeatAppend(d, Count(k, rem), Count(k, us));
  }

  lemma RepeatAppend(d: string, a: nat, b: nat)
    ensures Repeat(d, a) + Repeat(d, b) == Repeat(d, a + b)
  {
    assert forall i :: 0 <= i < a + b ==> (Repeat(d, a) + Repeat(d, b))[i] == d;
  }

  /** The map in closed form: each tracked ID's list is its channel IDs in
      channel order, one per occurrence; exactly the IDs that occur are keys. */
  lemma {:induction false} MergeLookup(chs: seq<Channel>, lists: seq<AccountList>)
    requires |lists| == |chs|
    requires Merge(chs, lists).Mapped?
    ensures forall k :: Lookup(Merge(chs, lists).m, k) == Expected(k, chs, lists)
    ensures forall k :: k in Merge(chs, lists).m <==> Expected(k, chs, lists) != []
    decreases |chs|
  {
    if |chs| > 0 {
      var n := |chs| - 1;
      MergeLookup(chs[..n], lists[..n]);
      var m := Merge(chs[..n], lists[..n]).m;
      assert Merge(chs, lists).m == AddChannel(m, chs[n], lists[n]);
      forall k ensures Lookup(AddChannel(m, chs[n], lists[n]), k) == Expected(k, chs, lists) {
        AddChannelLookup(m, chs[n], lists[n], k);
      }
      MergeNonEmpty(chs, lists);
    }
  }

  lemma {:induction false} MergeNonEmpty(chs: seq<Channel>, lists: seq<AccountList>)
    requires |lists| == |chs|
    requires Merge(chs, lists).Mapped?
    ensures forall k :: k in Merge(chs, lists).m ==> Merge(chs, lists).m[k] != []
    decreases |chs|
  {
    if |chs| > 0 {
      var n := |chs| - 1;
      MergeNonEmpty(chs[..n], lists[..n]);
      var m := Merge(chs[..n], lists[..n]).m;
      AppendAllNonEmpty(m, RemoteIDs(chs[n], lists[n]), chs[n].discordID);
      AppendAllNonEmpty(AppendAll(m, RemoteIDs(chs[n], lists[n]), chs[n].discordID), UserIDs(chs[n].users), chs[n].discordID);
    }
  }

  /** The first channel whose remote list could not be had. */
  predicate FirstFailure(chs: seq<Channel>, lists: seq<AccountList>, i: nat)
    requires |lists| == |chs|
  {
    i < |chs| && FetchFails(chs[i], lists[i]) && forall j :: 0 <= j < i ==> !FetchFails(chs[j], lists[j])
  }

  /** Every channel with a remote list got it. */
  predicate NoFailure(chs: seq<Channel>, lists: seq<AccountList>)
    requires |lists| == |chs|
  {
    forall i :: 0 <= i < |chs| ==> !FetchFails(chs[i], lists[i])
  }

  lemma NoFailureSnoc(chs: seq<Channel>, lists: seq<AccountList>)
    requires |lists| == |chs| && |chs| > 0
    ensures NoFailure(chs, lists) <==>
      NoFailure(chs[..|chs| - 1], lists[..|chs| - 1]) && !FetchFails(chs[|chs| - 1], lists[|chs| - 1])
  {
    var n := |chs| - 1;
    assert forall j :: 0 <= j < n ==> chs[..n][j] == chs[j] && lists[..n][j] == lists[j];
  }

  lemma FirstFailureSnoc(chs: seq<Channel>, lists: seq<AccountList>, i: nat)
    requires |lists| == |chs| && |chs| > 0
    requires FirstFailure(chs[..|chs| - 1], lists[..|chs| - 1], i)
    ensures FirstFailure(chs, lists, i) && chs[..|chs| - 1][i] == chs[i]
  {
    var n := |chs| - 1;
    assert forall j :: 0 <= j < n ==> chs[..n][j] == chs[j] && lists[..n][j] == lists[j];
  }

  /** The whole result is an error exactly when some channel's list fails,
      and then it names the first such channel's list: no partial map. */
  lemma {:induction false} MergeFails(chs: seq<Channel>, lists: seq<AccountList>)
    requires |lists| == |chs|
    ensures Merge(chs, lists).ListError? <==> !NoFailure(chs, lists)
    ensures Merge(chs, lists).ListError? ==>
      exists i: nat :: FirstFailure(chs, lists, i) && Merge(chs, lists).remote == chs[i].remoteJSON
    decreases |chs|
  {
    if |chs| > 0 {
      var n := |chs| - 1;
      MergeFails(chs[..n], lists[..n]);
      NoFailureSnoc(chs, lists);
      if Merge(chs[..n], lists[..n]).ListError? {
        var i: nat :| FirstFailure(chs[..n], lists[..n], i) && Merge(chs[..n], lists[..n]).remote == chs[..n][i].remoteJSON;
        FirstFailureSnoc(chs, lists, i);
      } else if FetchFails(chs[n], lists[n]) {
        assert FirstFailure(chs, lists, n) by {
          assert NoFailure(chs[..n], lists[..n]);
          assert forall j :: 0 <= j < n ==> chs[..n][j] == chs[j] && lists[..n][j] == lists[j];
        }
      }
    }
  }

  lemma {:induction false} ExpectedContains(k: string, chs: seq<Channel>, lists: seq<AccountList>, i: nat)
    requires |lists| == |chs| && i < |chs|
    requires Share(k, chs[i], lists[i]) != []
    ensures chs[i].discordID in Expected(k, chs, lists)
    decreases |chs|
  {
    var n := |chs| - 1;
    var head := Expected(k, chs[..n], lists[..n]);
    var tail := Share(k, chs[n], lists[n]);
    assert Expected(k, chs, lists) == head + tail;
    if i < n {
      assert chs[..n][i] == chs[i] && lists[..n][i] == lists[i];
      ExpectedContains(k, chs[..n], lists[..n], i);
      InLeft(chs[i].discordID, head, tail);
    } else {
      assert (head + tail)[|head|] == tail[0] == chs[n].discordID;
    }
  }

  lemma InLeft(x: string, a: seq<string>, b: seq<string>)
    requires x in a
    ensures x in a + b
  {
  }

  /** The excluded set holds exactly the IDs of the `Exclude` entries. */
  lemma {:induction false} ExcludedIDsHold(us: seq<TwitterUser>, k: string)
    ensures k in ExcludedIDs(us) <==> exists j :: 0 <= j < |us| && us[j].id == k
    decreases |us|
  {
    if |us| > 0 {
      var n := |us| - 1;
      ExcludedIDsHold(us[..n], k);
      assert forall j :: 0 <= j < n ==> us[..n][j] == us[j];
    }
  }

  lemma {:induction false} UserIDsHold(us: seq<TwitterUser>)
    ensures |UserIDs(us)| == |us| && forall j :: 0 <= j < |us| ==> UserIDs(us)[j] == us[j].id
    decreases |us|
  {
    if |us| > 0 {
      UserIDsHold(us[..|us| - 1]);
    }
  }

  /** Every static user of a channel is routed to that channel, with no
      exclusion applied. */
  lemma StaticUserRouted(chs: seq<Channel>, lists: seq<AccountList>, i: nat, j: nat)
    requires |lists| == |chs| && i < |chs| && j < |chs[i].users|
    requires Merge(chs, lists).Mapped?
    ensures var m := Merge(chs, lists).m;
      chs[i].users[j].id in m && chs[i].discordID in m[chs[i].users[j].id]
  {
    var k := chs[i].users[j].id;
    UserIDsHold(chs[i].users);
    assert UserIDs(chs[i].users)[j] == k;
    CountPositive(k, ChannelIDs(chs[i], lists[i]));
    ExpectedContains(k, chs, lists, i);
    MergeLookup(chs, lists);
  }

  /** An empty or excluded remote ID that is not also a static user of the
      channel gets nothing from that channel. */
  lemma SkippedEntryNotRouted(ch: Channel, list: AccountList, k: string)
    requires k == "" || exists j :: 0 <= j < |ch.remoteJSON.exclude| && ch.remoteJSON.exclude[j].id == k
    requires forall j :: 0 <= j < |ch.users| ==> ch.users[j].id != k
    ensures Share(k, ch, list) == []
  {
    ExcludedIDsHold(ch.remoteJSON.exclude, k);
    if ch.remoteJSON.url != "" && list.Fetched? {
      AcceptedHolds(list.entries, ExcludedIDs(ch.remoteJSON.exclude), k);
    }
    assert k !in RemoteIDs(ch, list);
    UserIDsHold(ch.users);
    assert k !in UserIDs(ch.users);
    CountPositive(k, ChannelIDs(ch, list));
  }

  /** A remote entry of a channel with a URL is routed to that channel
      when its ID is non-empty and not excluded. */
  lemma RemoteEntryRouted(chs: seq<Channel>, lists: seq<AccountList>, i: nat, e: string)
    requires |lists| == |chs| && i < |chs|
    requires Merge(chs, lists).Mapped?
    requires chs[i].remoteJSON.url != "" && lists[i].Fetched? && e in lists[i].entries
    requires e != "" && forall j :: 0 <= j < |chs[i].remoteJSON.exclude| ==> chs[i].remoteJSON.exclude[j].id != e
    ensures var m := Merge(chs, lists).m; e in m && chs[i].discordID in m[e]
  {
    ExcludedIDsHold(chs[i].remoteJSON.exclude, e);
    AcceptedHolds(lists[i].entries, ExcludedIDs(chs[i].remoteJSON.exclude), e);
    assert e in RemoteIDs(chs[i], lists[i]);
    CountPositive(e, ChannelIDs(chs[i], lists[i]));
    ExpectedContains(e, chs, lists, i);
    MergeLookup(chs, lists);
  }

  /** The last step of the fold depends only on the prefix's result and the
      last channel's outcome. */
  lemma MergeLastStep(chs: seq<Channel>, a: seq<AccountList>, b: seq<AccountList>)
    requires |a| == |chs| && |b| == |chs| && |chs| > 0
    requires Merge(chs[..|chs| - 1], a[..|chs| - 1]) == Merge(chs[..|chs| - 1], b[..|chs| - 1])
    requires FetchFails(chs[|chs| - 1], a[|chs| - 1]) == FetchFails(chs[|chs| - 1], b[|chs| - 1])
    requires RemoteIDs(chs[|chs| - 1], a[|chs| - 1]) == RemoteIDs(chs[|chs| - 1], b[|chs| - 1])
    ensures Merge(chs, a) == Merge(chs, b)
  {
  }

  /** Two list inputs that differ only at channels without a URL give the
      same result. */
  lemma {:induction false} MergeAgree(chs: seq<Channel>, a: seq<AccountList>, b: seq<AccountList>)
    requires |a| == |chs| && |b| == |chs|
    requires forall j :: 0 <= j < |chs| ==> a[j] == b[j] || chs[j].remoteJSON.url == ""
    ensures Merge(chs, a) == Merge(chs, b)
    decreases |chs|
  {
    if |chs| > 0 {
      var n := |chs| - 1;
      assert forall j :: 0 <= j < n ==> chs[..n][j] == chs[j] && a[..n][j] == a[j] && b[..n][j] == b[j];
      MergeAgree(chs[..n], a[..n], b[..n]);
      MergeLastStep(chs, a, b);
    }
  }

  /** A channel without a remote URL fetches nothing: whatever its list
      input says, the result is the same. */
  lemma EmptyURLIgnoresList(chs: seq<Channel>, lists: seq<AccountList>, i: nat, other: AccountList)
    requires |lists| == |chs| && i < |chs| && chs[i].remoteJSON.url == ""
    ensures Merge(chs, lists[i := other]) == Merge(chs, lists)
  {
    MergeAgree(chs, lists[i := other], lists);
  }
}
