/** The hub's methods as imperative code over its map and channels. */
module HubService {
  import opened Hub

  class HubObject {
    var online: map<UserId, ChanId>
    var chans: seq<Chan>

    constructor ()
      ensures online == map[] && chans == []
    {
      online, chans := map[], [];
    }

    /** Every online user has its own open channel. */
    ghost predicate Valid()
      reads this
    {
      forall u :: u in online ==> online[u] < |chans| && chans[online[u]].user == u && chans[online[u]].closes == 0
    }

    /** Connect: a new channel replaces the user's old one, which is closed. */
    method Connect(user: UserId) returns (ch: ChanId)
      requires Valid()
      modifies this
      ensures Valid() && ch == |old(chans)| && online == old(online)[user := ch]
      ensures |chans| == |old(chans)| + 1 && chans[ch] == Chan(user, [], [], 0)
      ensures forall i :: 0 <= i < |old(chans)| ==>
                chans[i] == if user in old(online) && i == old(online)[user] then Closed(old(chans)[i])
                            else old(chans)[i]
    {
      ch := |chans|;
      if user in online {
        chans := chans[online[user] := Closed(chans[online[user]])];
      }
      chans := chans + [Chan(user, [], [], 0)];
      online := online[user := ch];
    }

    /** Disconnect: the channel leaves the map and stays open. */
    method Disconnect(user: UserId)
      requires Valid()
      modifies this`online
      ensures Valid() && online == old(online) - {user}
    {
      online := online - {user};
    }

    /** One round of StartListener with nothing in between lookup and send: delivered, or dropped if full or offline. */
    method Deliver(user: UserId, msg: string) returns (delivered: bool)
      requires Valid()
      modifies this`chans
      ensures Valid()
      ensures delivered <==> user in online && |old(chans)[online[user]].buffer| < 10
      ensures !delivered ==> chans == old(chans)
      ensures delivered ==> |chans| == |old(chans)| && forall i :: 0 <= i < |chans| ==>
                chans[i] == if i != online[user] then old(chans)[i]
                            else old(chans)[i].(buffer := old(chans)[i].buffer + [msg])
    {
      if user !in online {
        return false;
      }
      var c := chans[online[user]];
      if |c.buffer| >= CAPACITY {
        return false;
      }
      chans := chans[online[user] := c.(buffer := c.buffer + [msg])];
      return true;
    }

    /** Close: every online channel is closed exactly once, every other one is left alone, and the map is emptied. */
    method Close()
      requires Valid()
      modifies this
      ensures Valid() && online == map[] && |chans| == |old(chans)|
      ensures forall i :: 0 <= i < |chans| ==>
                chans[i] == if i in Channels(old(online)) then Closed(old(chans)[i]) else old(chans)[i]
    {
      ghost var online0, chans0 := online, chans;
      while online != map[]
        invariant Valid() && Closing(online0, chans0, online, chans)
        decreases |online|
      {
        var user :| user in online;
        OneChannelLess(online, user, chans);
        ClosingStep(online0, chans0, online, chans, user);
        CloseOne(user);
      }
    }

    /** The body of Close's loop. */
    method CloseOne(user: UserId)
      requires Valid() && user in online
      modifies this
      ensures Valid() && online == old(online) - {user} && |chans| == |old(chans)|
      ensures chans == old(chans)[old(online)[user] := Closed(old(chans)[old(online)[user]])]
    {
      var ch := online[user];
      chans := chans[ch := Closed(chans[ch])];
      online := online - {user};
    }
  }

  ghost function Channels(online: map<UserId, ChanId>): set<ChanId> {
    set u | u in online :: online[u]
  }

  /** Part-way through Close: the channels that left the map are the ones closed so far. */
  ghost predicate Closing(online0: map<UserId, ChanId>, chans0: seq<Chan>, online: map<UserId, ChanId>,
                          chans: seq<Chan>) {
    && |chans| == |chans0| && Channels(online) <= Channels(online0)
    && forall i :: 0 <= i < |chans| ==>
         chans[i] == if i in Channels(online0) && i !in Channels(online) then Closed(chans0[i]) else chans0[i]
  }

  lemma ClosingStep(online0: map<UserId, ChanId>, chans0: seq<Chan>, online: map<UserId, ChanId>, chans: seq<Chan>,
                    user: UserId)
    requires Closing(online0, chans0, online, chans)
    requires user in online && forall u :: u in online ==> online[u] < |chans| && chans[online[u]].user == u
    ensures Closing(online0, chans0, online - {user}, chans[online[user] := Closed(chans[online[user]])])
  {
    OneChannelLess(online, user, chans);
  }

  lemma OneChannelLess(online: map<UserId, ChanId>, user: UserId, chans: seq<Chan>)
    requires user in online && forall u :: u in online ==> online[u] < |chans| && chans[online[u]].user == u
    ensures Channels(online - {user}) == Channels(online) - {online[user]} && online[user] in Channels(online)
    ensures |online - {user}| < |online|
  {
    assert (online - {user}).Keys == online.Keys - {user};
    forall u | u in online && u != user ensures online[u] != online[user] {
      assert chans[online[u]].user == u;
    }
    var rest := online - {user};
    forall c | c in Channels(online) && c != online[user] ensures c in Channels(rest) {
      var u :| u in online && online[u] == c;
      assert u in rest && rest[u] == c;
    }
    forall c | c in Channels(rest) ensures c in Channels(online) && c != online[user] {
      var u :| u in rest && rest[u] == c;
      assert u in online && online[u] == c;
    }
  }
}
