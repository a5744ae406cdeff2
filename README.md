# twitter-monitor, modelled in Dafny

twitter-monitor watches a fixed set of Twitter accounts through the filtered
stream API and posts a permalink of every tweet they write to the Discord
channels that follow them. This project models its sequential core:

- the map from tracked account IDs to Discord channel IDs, built from the
  configuration's channels, their static users and their remote account
  lists (`Config.TwitterIDToChannels`);
- the sorted list of tracked IDs taken from that map's keys;
- the packing of those IDs into `from:<id>` clauses joined by `" OR "`,
  each filter rule value at most 512 bytes (`filterRulesFromIDs`);
- the reconciliation of the desired rule values with the rules installed
  on the remote filter service (`setupFilterRules`), with the service
  modelled as an object whose three calls may fail;
- the processing of one stream message: the author's user name, the
  permalink, and one send per mapped channel, each send's outcome given by
  an oracle.

Modules, by file:

| file | module | models |
|---|---|---|
| text.dfy | Text | `strings.Join` and `strings.Split` on byte strings |
| rule_packing.dfy | RulePacking | `filterRulesFromIDs` |
| sorted_ids.dfy | SortedIDs | the key collection and `sort.Strings` |
| rule_sync.dfy | RuleSync | `setupFilterRules` and the remote rule service |
| config.dfy | Config | the configuration datatypes and `TwitterIDToChannels` |
| dispatch.dfy | Dispatch | the per-message goroutine |
| monitor.dfy | Monitor | the start-up sequence of `runStream` and end-to-end facts |

Each loop of the source is a Dafny method with a `for` or `while` loop.
Most of these methods are proved equal to a specification function, a left
fold over the same input (`Pack`, `Merge`, `AppendAll`, `Planned`), and the
properties are proved as lemmas about that function. `SortedKeys`, `RuleSet`
and `BuildRequest` are specified directly by the properties of their result
instead: the loops of `SortedKeys` and `BuildRequest` run over Go maps in no
fixed order, and the result of `RuleSet` is a set. `Lookup` is Go's read
`r[k]` of a map of slices, the stored list or the nil (empty) slice.
`SendsTo`, one send per channel, is a sequence comprehension. A
Go string is a Dafny `string`, one character per byte, so `|s|` is Go's
`len(s)`.

## Model

| member | source | states |
|---|---|---|
| RulePacking.FilterRulesFromIDs | stream.go:22-42 | the loop with accumulators `r`, `cur` and `l` returns exactly the greedy packing `FilterRules`; `l` stays the total length of `cur` |
| RulePacking.RuleLenIsJoinLen | stream.go:28-29 | `l + len(s) + len(cur)*len(" OR ")` is the length `strings.Join(append(cur, s), " OR ")` would have |
| RulePacking.GroupsConcatenate | stream.go:26-40 | the groups, concatenated in order, are exactly the `from:` clauses of the input: nothing dropped, duplicated or reordered |
| RulePacking.GroupsBounded | stream.go:29-35 | every group joins to at most 512 bytes, unless it is a single over-long clause |
| RulePacking.GroupsGreedy | stream.go:29-34 | each group after the first is non-empty, and its first clause, appended to the previous group, would overflow 512 bytes: a group is closed only when it must be |
| RulePacking.EmptyGroups | stream.go:23-40 | no groups iff no IDs; only the first group can be empty, and it is exactly when the first clause alone exceeds 512 bytes, which makes the first rule value `""` |
| RulePacking.RulesWithinLimit | stream.go:29-40 | when every clause is at most 512 bytes, every rule value is non-empty and at most 512 bytes |
| RulePacking.InDecodeRules | stream.go:26-40 | an ID is read out of a list of rule values iff some single value names it |
| RulePacking.RoundTrip | stream.go:26-40 | splitting each rule value on `" OR "` and stripping `from:` gives back the ID list, when no ID holds a space |
| Text.Join | stream.go:31 | `strings.Join`: a non-empty join starts with its first part |
| Text.JoinLength | stream.go:31 | a join of n parts is their total length plus n - 1 separators |
| Text.SplitJoin | stream.go:31 | splitting undoes joining for a non-empty list of parts when no part holds the separator's first byte |
| SortedIDs.Less | stream.go:113 | Go's string `<`, bytewise: it never holds between equal strings, and a proper prefix sorts first |
| SortedIDs.SortedKeys | stream.go:109-113 | the list holds each key of the map exactly once, in strictly ascending Go string order |
| SortedIDs.SortedUnique | stream.go:110-113 | two strictly ascending lists with the same elements are equal, so the result does not depend on the map's iteration order |
| SortedIDs.InsertSorted | stream.go:113 | inserting a new element keeps a list strictly ascending and adds exactly that element |
| SortedIDs.LessTransitive | stream.go:113 | Go's string order is transitive |
| SortedIDs.LessTotal | stream.go:113 | two different strings are ordered one way or the other |
| RuleSync.RuleSet | stream.go:62-65 | the working set holds exactly the packed rule values |
| RuleSync.Partition | stream.go:71-78 | the IDs to delete are those of the records not kept, in list order; the values left over are the desired ones no record matched |
| RuleSync.UnneededIDs | stream.go:71-78 | a record's ID is deleted iff the record is not kept: its value is undesired, or an earlier record with that value was already kept |
| RuleSync.KeptValues | stream.go:72-77 | the kept records hold each desired value that was listed, once, and nothing else |
| RuleSync.BuildRequest | stream.go:86-89 | the request holds one untagged rule per leftover value and no other rule |
| RuleSync.DeleteLeavesKept | stream.go:79-84 | deleting the chosen IDs leaves exactly the kept records, in order |
| RuleSync.Converges | stream.go:72-94 | kept records plus the added rules hold each desired value exactly once and nothing else |
| RuleSync.NoChurn | stream.go:79-85 | a remote state holding only desired values, each once, needs no delete and keeps every record; when it holds every desired value, nothing is missing, so there is no add |
| RuleSync.Idempotent | stream.go:60-96 | after one successful reconciliation a second one with the same values deletes and adds nothing |
| RuleSync.DeletesAAddsC | stream.go:71-94 | with A and B installed and B and C desired, only A's ID is deleted and only C is added |
| RuleSync.RuleService.List | stream.go:67 | the call is logged; it returns the installed records or a failure |
| RuleSync.RuleService.Delete | stream.go:80 | the call is logged; on success exactly the listed IDs are gone; on failure nothing changes |
| RuleSync.RuleService.Add | stream.go:90 | the call is logged; on success the rules are appended with fresh consecutive IDs; on failure nothing changes |
| RuleSync.Reconcile | stream.go:67-95 | the calls issued and the final records for every combination of failures: a failed list stops before any change, a failed delete stops before any add, a delete only when something is unneeded, an add only when something is missing |
| RuleSync.ReconciledConverges | stream.go:72-95 | a reconciliation that succeeds leaves each desired value installed exactly once and nothing else |
| RuleSync.ConvergedStateUntouched | stream.go:79-95 | a service already in the desired state receives only the listing call |
| RuleSync.SetupFilterRules | stream.go:60-96 | packs the IDs and reconciles; on success the installed values are exactly the packed rule values, each once |
| Config.TwitterIDToChannels | config/config.go:53-87 | the nested loops return the fold `Merge` over the channels, or the first failing remote list |
| Config.ExcludedSet | config/config.go:68-71 | the loop builds the excluded set of the fold `ExcludedIDs` |
| Config.AppendEntries | config/config.go:73-77 | the loop appends the channel ID for exactly the accepted entries, in list order |
| Config.AppendUsers | config/config.go:80-82 | the loop appends the channel ID for every static user, in order |
| Config.AcceptedHolds | config/config.go:73-77 | an entry is taken iff its ID is non-empty and not excluded |
| Config.ExcludedIDsHold | config/config.go:68-71 | the excluded set holds exactly the IDs of the `Exclude` entries |
| Config.UserIDsHold | config/config.go:80-82 | the static users contribute their IDs, one per user, in order |
| Config.AddChannelLookup | config/config.go:57-82 | one channel's pass adds its ID to a key once per occurrence of the key among its accepted entries and static users |
| Config.MergeLookup | config/config.go:56-82 | each ID's list is, channel by channel in config order, the channel's ID once per occurrence of the ID among its accepted remote entries and then its static users; the keys are exactly the IDs that occur |
| Config.MergeNonEmpty | config/config.go:73-82 | every key's channel list is non-empty |
| Config.MergeFails | config/config.go:58-66 | the result is an error iff some channel with a URL has a failing list, and then it names the first such list; no partial map is returned |
| Config.StaticUserRouted | config/config.go:80-82 | every static user of a channel gets that channel's ID, with no exclusion applied |
| Config.RemoteEntryRouted | config/config.go:57-77 | a remote entry with a non-empty, non-excluded ID gets the channel's ID |
| Config.SkippedEntryNotRouted | config/config.go:74 | an empty or excluded remote ID that is not a static user gets nothing from that channel |
| Config.MergeAgree | config/config.go:57-66 | list outcomes that differ only at channels without a URL give the same result |
| Config.EmptyURLIgnoresList | config/config.go:57 | a channel with no URL fetches nothing: its list outcome does not affect the result |
| Config.AppendAllLookup | config/config.go:73-82 | appending for a sequence of IDs adds the channel ID to a key once per occurrence of it |
| Dispatch.ResolveUsername | stream.go:160-166 | the search loop with `break` returns `Username(users, authorID)`: the name of the first included user with the author's ID, else `"i"` |
| Dispatch.UsernameFirstMatch | stream.go:160-166 | the name is that of the first included user with the author's ID, else `"i"` |
| Dispatch.Permalink | stream.go:167 | the body is the text `"https://twitter.com/" + name + "/status/" + id`; the contract gives only its length, and the exact-text promise rests on the body and on PermalinkRoundTrip |
| Dispatch.PermalinkRoundTrip | stream.go:167 | the permalink reads back into its user name and tweet ID when the name holds no `/` |
| Dispatch.PermalinkInjective | stream.go:167 | when neither user name holds `/`, different (user name, tweet ID) pairs give different permalinks |
| Dispatch.PostToChannels | stream.go:168-172 | the send loop attempts every channel in order, whatever earlier sends returned, and records each outcome |
| Dispatch.ProcessMessage | stream.go:159-172 | the sends attempted are exactly the planned ones, tweet by tweet and channel by channel, whatever earlier sends returned; each attempt records its outcome |
| Dispatch.PlannedComplete | stream.go:168-172 | every channel mapped to a tweet's author is sent that tweet's permalink |
| Dispatch.PlannedSound | stream.go:159-172 | every send carries some tweet's permalink to a channel mapped to its author |
| Dispatch.PlannedLength | stream.go:168 | the number of sends is the sum of the authors' channel counts |
| Dispatch.UnmappedSilent | stream.go:168 | tweets by unmapped authors cause no sends |
| Monitor.Start | stream.go:105-118 | a failing account list stops start-up before any rule call; otherwise rule setup runs on the map's keys in strictly ascending order, the service's calls and records are those `Reconciled` gives for that ID list and the faults (so with no failing call setup succeeds), and start-up is ready with the map and the IDs iff setup succeeded, else stopped at the failing stage; when ready the installed values are the packed rules, each once |
| Monitor.TrackedAccounts | stream.go:109-116 | the packed rule values name exactly the map's keys, each once, in ascending order; and any record list whose values are the packed values, as a successful start-up leaves, names exactly the map's keys |
| Monitor.KeyOrderIrrelevant | stream.go:109-113 | any two sorted key lists of the same map are equal |
| Monitor.StaticUserTweetPosted | stream.go:159-172 | a tweet by a channel's static user is posted to that channel |

## Left out

- main.go is not part of this model: credentials, the warm-up HTTP endpoint,
  the Discord session and process start-up are all I/O.
- `config.FromFile`: reading the file and YAML decoding; the configuration is an input value.
- `http.Get` and JSON decoding of a remote account list are replaced by an
  input per channel: the entries' IDs in list order, or a failure. A fetch
  failure and a decode failure are the same outcome here.
- `appTwitterClient` and `stringify`: library wrappers.
- The remote filter service is a model object. Its three calls fail
  according to a `Faults` input. It assigns rule IDs as consecutive
  naturals, where Twitter's are opaque strings. It accepts every value.
- The stream-open retry loop and the `select` loop over Go channels are left
  out: they are timers and channel I/O. That loop returns on any closed
  channel or lost connection, and its 5-second ticker does nothing.
- The goroutine per stream message runs concurrently with the next one. The
  model processes one message sequentially. The chat service is an oracle
  over the attempt index, the channel and the text.
- A stream message whose `Includes` is absent is left out (Go would panic on it).
- Logging and the text of error messages are left out, including the missing
  argument of the format string at stream.go:69. Both are observable only in logs.
- Go map iteration order is modelled as an arbitrary choice (`:|`). That
  affects the order of the add request; sorting makes the tracked ID list
  independent of it.
- `sort.Strings` is modelled by insertion into a sorted list, which has the
  same result on a list without repeats.
- The rule-value split on `" OR "` is a reading aid; the source never parses rule values.
- Monitor.TrackedAccounts: it requires map keys without spaces, as RoundTrip does. Its ordered
  statement is about the packed values `FilterRules(ids)`; about the installed records it
  speaks only as a set, because `Start` ties the installed values to the packed ones as a set.
- RulePacking.RoundTrip: it requires IDs without spaces. A space inside an ID would
  be read as part of a separator. Twitter account IDs are decimal digits.
- The code has no retweet-phrased text, tagged rules, reconnection or periodic refresh; none is modelled.
