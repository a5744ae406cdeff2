/** Posting the tweets of one stream message (the goroutine body of
    stream.go:158-174): each tweet's author name is looked up among the
    message's included users, its permalink is formatted, and the link is
    sent to every chat channel mapped to the author, in order. A send's
    outcome comes from an oracle; a failure is logged and the loop goes on. */
module Dispatch {
  import opened Config

  datatype Tweet = Tweet(id: string, authorID: string)

  datatype User = User(id: string, userName: string)

  /** `t.Raw`: the tweets and the `Includes.Users` expansion. */
  datatype TweetMessage = TweetMessage(tweets: seq<Tweet>, users: seq<User>)

  /** A message to one chat channel. */
  datatype Send = Send(channel: string, text: string)

  /** A send that was attempted, and whether the chat service accepted it. */
  datatype Attempt = Attempt(channel: string, text: string, ok: bool)

  /** The name used when the author is not among the included users. */
  const DefaultName := "i"

  const Prefix := "https://twitter.com/"
  const Status := "/status/"

  /** The author's name: that of the first included user with the
      author's ID, else the default. */
  function Username(users: seq<User>, authorID: string): string
    decreases |users|
  {
    if |users| == 0 then DefaultName
    else if users[0].id == authorID then users[0].userName
    else Username(users[1..], authorID)
  }

  /** Position of the first included user with ID `authorID`. */
  predicate FirstWithID(users: seq<User>, authorID: string, i: nat)
  {
    i < |users| && users[i].id == authorID && forall j :: 0 <= j < i ==> users[j].id != authorID
  }

  lemma {:induction false} UsernameFirstMatch(users: seq<User>, authorID: string)
    ensures forall i: nat :: FirstWithID(users, authorID, i) ==> Username(users, authorID) == users[i].userName
    ensures (forall i :: 0 <= i < |users| ==> users[i].id != authorID) ==> Username(users, authorID) == DefaultName
    decreases |users|
  {
    if |users| > 0 {
      UsernameFirstMatch(users[1..], authorID);
      forall i: nat | FirstWithID(users, authorID, i)
        ensures Username(users, authorID) == users[i].userName
      {
        if i > 0 {
          assert users[0].id != authorID;
          assert FirstWithID(users[1..], authorID, i - 1);
        }
      }
      if forall i :: 0 <= i < |users| ==> users[i].id != authorID {
        assert users[0].id != authorID;
        assert forall i :: 0 <= i < |users[1..]| ==> users[1..][i].id != authorID;
      }
    }
  }

  /** The search loop with `break` of stream.go:160-166. */
  method ResolveUsername(users: seq<User>, authorID: string) returns (username: string)
    ensures username == Username(users, authorID)
  {
    username := DefaultName;
    var i := 0;
    while i < |users|
      invariant i <= |users|
      invariant Username(users, authorID) == Username(users[i..], authorID)
      invariant username == DefaultName
    {
      assert users[i..][1..] == users[i + 1..];
      if users[i].id == authorID {
        username := users[i].userName;
        break;
      }
      i := i + 1;
    }
  }

  /** The text posted for a tweet (stream.go:167). */
  function Permalink(username: string, tweetID: string): (text: string)
    ensures |text| == |Prefix| + |username| + |Status| + |tweetID|
  {
    Prefix + username + Status + tweetID
  }

  /** The first position of `c` in `s`, or `|s|` when it does not occur. */
  function IndexOf(s: string, c: char): (i: nat)
    ensures i <= |s| && (i < |s| ==> s[i] == c) && forall j :: 0 <= j < i ==> s[j] != c
    decreases |s|
  {
    if |s| == 0 then 0 else if s[0] == c then 0 else 1 + IndexOf(s[1..], c)
  }

  datatype Link = Link(username: string, tweetID: string)

  datatype Parsed = Parsed(link: Link) | NotALink

  /** Reads a permalink back into its user name and tweet ID. */
  function ParsePermalink(text: string): Parsed
  {
    if |text| < |Prefix| || text[..|Prefix|] != Prefix then NotALink
    else
      var rest := text[|Prefix|..];
      var i := IndexOf(rest, '/');
      var tail := rest[i..];
      if |tail| < |Status| || tail[..|Status|] != Status then NotALink
      else Parsed(Link(rest[..i], tail[|Status|..]))
  }

  /** A permalink determines its user name and tweet ID whenever the user
      name holds no '/', which Twitter user names never do. */
  lemma PermalinkRoundTrip(username: string, tweetID: string)
    requires '/' !in username
    ensures ParsePermalink(Permalink(username, tweetID)) == Parsed(Link(username, tweetID))
  {
    var text := Permalink(username, tweetID);
    assert text[..|Prefix|] == Prefix;
    var rest := text[|Prefix|..];
    assert rest == username + Status + tweetID;
    var i := IndexOf(rest, '/');
    assert rest[|username|] == '/';
    assert i == |username|;
    assert rest[i..] == Status + tweetID;
    assert rest[..i] == username;
  }

  lemma PermalinkInjective(u1: string, id1: string, u2: string, id2: string)
    requires '/' !in u1 && '/' !in u2
    requires Permalink(u1, id1) == Permalink(u2, id2)
    ensures u1 == u2 && id1 == id2
  {
    PermalinkRoundTrip(u1, id1);
    PermalinkRoundTrip(u2, id2);
  }

  /** The text posted for tweet `t` of message `msg`. */
  function TweetText(msg: TweetMessage, t: Tweet): string
  {
    Permalink(Username(msg.users, t.authorID), t.id)
  }

  /** One send of `text` to each channel, in order. */
  function SendsTo(chs: seq<string>, text: string): seq<Send>
  {
    seq(|chs|, j requires 0 <= j < |chs| => Send(chs[j], text))
  }

  /** The sends for the tweets `ts`, tweet by tweet, each to the author's
      channels in map order. */
  function Planned(msg: TweetMessage, ts: seq<Tweet>, idToChannels: map<string, seq<string>>): seq<Send>
    decreases |ts|
  {
    if |ts| == 0 then []
    else
      var n := |ts| - 1;
      Planned(msg, ts[..n], idToChannels) + SendsTo(Lookup(idToChannels, ts[n].authorID), TweetText(msg, ts[n]))
  }

  /** The sends an attempt log made, without their outcomes. */
  function Sent(attempts: seq<Attempt>): seq<Send>
  {
    seq(|attempts|, k requires 0 <= k < |attempts| => Send(attempts[k].channel, attempts[k].text))
  }

  lemma SentSnoc(attempts: seq<Attempt>, a: Attempt)
    ensures Sent(attempts + [a]) == Sent(attempts) + [Send(a.channel, a.text)]
  {
    assert Sent(attempts + [a])[|attempts|] == Send(a.channel, a.text);
  }

  /** Each attempt records what the oracle answered for it. */
  predicate Recorded(attempts: seq<Attempt>, send: (nat, string, string) -> bool)
  {
    forall k :: 0 <= k < |attempts| ==> attempts[k].ok == send(k, attempts[k].channel, attempts[k].text)
  }

  /** The send loop of stream.go:168-172: post `text` to each channel in
      turn; a failure is only logged, so the loop always goes on. */
  method PostToChannels(attempts0: seq<Attempt>, chs: seq<string>, text: string,
                        send: (nat, string, string) -> bool) returns (attempts: seq<Attempt>)
    requires Recorded(attempts0, send)
    ensures Sent(attempts) == Sent(attempts0) + SendsTo(chs, text)
    ensures Recorded(attempts, send)
  {
    attempts := attempts0;
    for j := 0 to |chs|
      invariant Sent(attempts) == Sent(attempts0) + SendsTo(chs[..j], text)
      invariant Recorded(attempts, send)
    {
      var ok := send(|attempts|, chs[j], text);
      SentSnoc(attempts, Attempt(chs[j], text, ok));
      assert SendsTo(chs[..j + 1], text) == SendsTo(chs[..j], text) + [Send(chs[j], text)];
      attempts := attempts + [Attempt(chs[j], text, ok)];
    }
    assert chs[..|chs|] == chs;
  }

  /** stream.go:159-172 for one message. `send(k, ch, text)` is the outcome
      of the k-th send of the message: whether posting `text` to channel
      `ch` succeeded. Every planned send is attempted whatever the outcomes
      of the earlier ones, and each attempt records the oracle's answer. */
  method ProcessMessage(msg: TweetMessage, idToChannels: map<string, seq<string>>,
                        send: (nat, string, string) -> bool) returns (attempts: seq<Attempt>)
    ensures Sent(attempts) == Planned(msg, msg.tweets, idToChannels)
    ensures Recorded(attempts, send)
  {
    attempts := [];
    for i := 0 to |msg.tweets|
      invariant Sent(attempts) == Planned(msg, msg.tweets[..i], idToChannels)
      invariant Recorded(attempts, send)
    {
      var tw := msg.tweets[i];
      var username := ResolveUsername(msg.users, tw.authorID);
      var text := Prefix + username + Status + tw.id;
      assert text == TweetText(msg, tw);
      attempts := PostToChannels(attempts, Lookup(idToChannels, tw.authorID), text, send);
      assert msg.tweets[..i + 1][..i] == msg.tweets[..i];
    }
    assert msg.tweets[..|msg.tweets|] == msg.tweets;
  }

  // ---------------------------------------------------------------------
  // What gets sent.

  /** Every channel mapped to a tweet's author receives the tweet's link. */
  lemma {:induction false} PlannedComplete(msg: TweetMessage, ts: seq<Tweet>, m: map<string, seq<string>>, i: nat, j: nat)
    requires i < |ts| && j < |Lookup(m, ts[i].authorID)|
    ensures Send(Lookup(m, ts[i].authorID)[j], TweetText(msg, ts[i])) in Planned(msg, ts, m)
    decreases |ts|
  {
    var n := |ts| - 1;
    var head := Planned(msg, ts[..n], m);
    var tail := SendsTo(Lookup(m, ts[n].authorID), TweetText(msg, ts[n]));
    assert Planned(msg, ts, m) == head + tail;
    if i < n {
      assert ts[..n][i] == ts[i];
      PlannedComplete(msg, ts[..n], m, i, j);
      assert Send(Lookup(m, ts[i].authorID)[j], TweetText(msg, ts[i])) in head;
    } else {
      assert (head + tail)[|head| + j] == tail[j];
    }
  }

  /** Every planned send carries a tweet's link to a channel mapped to that
      tweet's author. */
  lemma {:induction false} PlannedSound(msg: TweetMessage, ts: seq<Tweet>, m: map<string, seq<string>>, s: Send)
    requires s in Planned(msg, ts, m)
    ensures exists i :: 0 <= i < |ts| && s.channel in Lookup(m, ts[i].authorID) && s.text == TweetText(msg, ts[i])
    decreases |ts|
  {
    var n := |ts| - 1;
    var head := Planned(msg, ts[..n], m);
    var chs := Lookup(m, ts[n].authorID);
    var tail := SendsTo(chs, TweetText(msg, ts[n]));
    assert Planned(msg, ts, m) == head + tail;
    if s in head {
      PlannedSound(msg, ts[..n], m, s);
      var i :| 0 <= i < n && s.channel in Lookup(m, ts[..n][i].authorID) && s.text == TweetText(msg, ts[..n][i]);
      assert ts[..n][i] == ts[i];
    } else {
      var j :| 0 <= j < |tail| && tail[j] == s;
      assert s.channel == chs[j];
    }
  }

  /** A tweet's sends are as many as its author's channels. */
  lemma {:induction false} PlannedLength(msg: TweetMessage, ts: seq<Tweet>, m: map<string, seq<string>>)
    ensures |Planned(msg, ts, m)| == TotalChannels(ts, m)
    decreases |ts|
  {
    if |ts| > 0 {
      PlannedLength(msg, ts[..|ts| - 1], m);
    }
  }

  function TotalChannels(ts: seq<Tweet>, m: map<string, seq<string>>): nat
    decreases |ts|
  {
    if |ts| == 0 then 0 else TotalChannels(ts[..|ts| - 1], m) + |Lookup(m, ts[|ts| - 1].authorID)|
  }

  /** Tweets whose authors are not in the map cause no sends at all. */
  lemma {:induction false} UnmappedSilent(msg: TweetMessage, ts: seq<Tweet>, m: map<string, seq<string>>)
    requires forall i :: 0 <= i < |ts| ==> ts[i].authorID !in m
    ensures Planned(msg, ts, m) == []
    decreases |ts|
  {
    if |ts| > 0 {
      var n := |ts| - 1;
      assert forall i :: 0 <= i < n ==> ts[..n][i] == ts[i];
      UnmappedSilent(msg, ts[..n], m);
    }
  }
}
