/** The subscriber list of a channel task: online users first, then users that never come online. */
module Subscribers {
  import opened Prelude
  import opened Ids

  /** `%07d` indices of offline subscribers start this far behind the online users. */
  const OFFLINE_GAP := 10000

  class ChannelTask {
    const prefix: string
    const count: nat
    const online: nat
    var subscribers: seq<string>
    var onlineSubscribers: seq<string>

    constructor (prefix: string, count: nat, online: nat)
      ensures this.prefix == prefix && this.count == count && this.online == online
      ensures subscribers == [] && onlineSubscribers == []
    {
      this.prefix, this.count, this.online := prefix, count, online;
      subscribers, onlineSubscribers := [], [];
    }

    /**
     `createSubscribers`, where `uids` are the users of the online task. The list is as long as asked for, or as
     its online part where that is longer; nobody is on it twice; and no offline subscriber is an online user.
     */
    method CreateSubscribers(uids: seq<string>)
      requires uids == Uids(prefix, 0, |uids|)
      modifies this
      ensures onlineSubscribers == uids[..Min(online, |uids|)]
      ensures subscribers == SubscriberList(prefix, uids, count, online)
      ensures |subscribers| == Max(count, Min(online, |uids|))
      ensures onlineSubscribers <= subscribers
      ensures forall k: nat :: |onlineSubscribers| <= k < |subscribers| ==> subscribers[k] == GenUid(prefix, |uids| + k + 10000)
      ensures Distinct(subscribers)
      ensures forall k :: |onlineSubscribers| <= k < |subscribers| ==> subscribers[k] !in uids
    {
      hide GenUid, SubscriberList;
      var list: seq<string> := [];
      if online <= |uids| {
        list := list + uids[..online];
      } else {
        list := list + uids[..|uids|];
      }
      onlineSubscribers := list;
      ghost var start := |list|;
      if |list| < count {
        for i := |list| to count
          invariant |list| == i
          invariant list == uids[..start] + Uids(prefix, |uids| + start + OFFLINE_GAP, |uids| + i + OFFLINE_GAP)
        {
          list := list + [GenUid(prefix, |uids| + i + OFFLINE_GAP)];
        }
      }
      subscribers := list;
      assert list == SubscriberList(prefix, uids, count, online) by {
        Listed(prefix, uids, count, online, list, start);
      }
      ListProperties(prefix, uids, count, online);
      ListContents(prefix, uids, count, online);
    }
  }

  function SubscriberList(prefix: string, uids: seq<string>, count: nat, online: nat): seq<string> {
    var start := Min(online, |uids|);
    uids[..start] + Uids(prefix, |uids| + start + OFFLINE_GAP, |uids| + count + OFFLINE_GAP)
  }

  lemma Listed(prefix: string, uids: seq<string>, count: nat, online: nat, list: seq<string>, start: nat)
    requires start == Min(online, |uids|)
    requires list == if start < count then uids[..start] + Uids(prefix, |uids| + start + OFFLINE_GAP, |uids| + count + OFFLINE_GAP)
                     else uids[..start]
    ensures list == SubscriberList(prefix, uids, count, online)
  {
    hide GenUid;
    assert uids[..start] + [] == uids[..start];
  }

  /** The list begins with the online users, and goes on with the indices behind the gap. */
  lemma ListContents(prefix: string, uids: seq<string>, count: nat, online: nat)
    ensures var s, start := SubscriberList(prefix, uids, count, online), if online <= |uids| then online else |uids|;
            && uids[..start] <= s
            && forall k: nat :: start <= k < |s| ==> s[k] == GenUid(prefix, |uids| + k + 10000)
  {
    hide *;
    BeginsOnline(prefix, uids, count, online);
    forall k: nat | (if online <= |uids| then online else |uids|) <= k < |SubscriberList(prefix, uids, count, online)|
      ensures SubscriberList(prefix, uids, count, online)[k] == GenUid(prefix, |uids| + k + 10000)
    {
      OfflineAt(prefix, uids, count, online, k);
    }
  }

  lemma BeginsOnline(prefix: string, uids: seq<string>, count: nat, online: nat)
    ensures uids[..if online <= |uids| then online else |uids|] <= SubscriberList(prefix, uids, count, online)
  {
    hide Uids;
  }

  lemma OfflineAt(prefix: string, uids: seq<string>, count: nat, online: nat, k: nat)
    requires (if online <= |uids| then online else |uids|) <= k < |SubscriberList(prefix, uids, count, online)|
    ensures SubscriberList(prefix, uids, count, online)[k] == GenUid(prefix, |uids| + k + 10000)
  {
    hide Uids, GenUid;
    var start := Min(online, |uids|);
    UidAt(prefix, |uids| + start + OFFLINE_GAP, |uids| + count + OFFLINE_GAP, k - start);
  }

  lemma UidAt(prefix: string, from: nat, to: nat, k: nat)
    requires k < |Uids(prefix, from, to)|
    ensures Uids(prefix, from, to)[k] == GenUid(prefix, from + k)
  {
    UidsAt(prefix, from, to);
    hide Uids, GenUid;
  }

  lemma ListProperties(prefix: string, uids: seq<string>, count: nat, online: nat)
    requires uids == Uids(prefix, 0, |uids|)
    ensures var s := SubscriberList(prefix, uids, count, online);
            && |s| == Max(count, Min(online, |uids|))
            && Distinct(s)
            && forall k :: Min(online, |uids|) <= k < |s| ==> s[k] !in uids
  {
    hide Uids, GenUid, Distinct;
    var s := SubscriberList(prefix, uids, count, online);
    var start := Min(online, |uids|);
    var first := |uids| + start + OFFLINE_GAP;
    var tail := Uids(prefix, first, |uids| + count + OFFLINE_GAP);
    UidsAt(prefix, first, |uids| + count + OFFLINE_GAP);
    assert s == uids[..start] + tail;
    hide SubscriberList;
    OnlineUids(prefix, uids);
    SplitAt(prefix, uids, tail, s, start, first);
    DistinctByIndex(prefix, uids, s, start, first);
  }

  lemma OnlineUids(prefix: string, uids: seq<string>)
    requires uids == Uids(prefix, 0, |uids|)
    ensures forall k :: 0 <= k < |uids| ==> uids[k] == GenUid(prefix, k)
  {
    UidsAt(prefix, 0, |uids|);
    hide Uids, GenUid;
  }

  lemma SplitAt(prefix: string, uids: seq<string>, tail: seq<string>, s: seq<string>, start: nat, first: nat)
    requires start <= |uids| && s == uids[..start] + tail
    requires forall k :: 0 <= k < |uids| ==> uids[k] == GenUid(prefix, k)
    requires forall k :: 0 <= k < |tail| ==> tail[k] == GenUid(prefix, first + k)
    ensures forall k :: 0 <= k < |s| ==> s[k] == GenUid(prefix, IndexAt(k, start, first))
  {
    hide GenUid;
    forall k | 0 <= k < |s| ensures s[k] == GenUid(prefix, IndexAt(k, start, first)) {
      if k >= start {
        assert s[k] == tail[k - start];
      }
    }
  }

  lemma DistinctByIndex(prefix: string, uids: seq<string>, s: seq<string>, start: nat, first: nat)
    requires start <= |uids| <= first
    requires forall k :: 0 <= k < |uids| ==> uids[k] == GenUid(prefix, k)
    requires forall k :: 0 <= k < |s| ==> s[k] == GenUid(prefix, IndexAt(k, start, first))
    ensures Distinct(s)
    ensures forall k :: start <= k < |s| ==> s[k] !in uids
  {
    hide GenUid;
    forall k | start <= k < |s| ensures s[k] !in uids {
      if s[k] in uids {
        var i :| 0 <= i < |uids| && uids[i] == s[k];
        GenUidInjective(prefix, i, IndexAt(k, start, first));
      }
    }
    forall i, j | 0 <= i < j < |s| ensures s[i] != s[j] {
      if s[i] == s[j] {
        GenUidInjective(prefix, IndexAt(i, start, first), IndexAt(j, start, first));
      }
    }
  }

  /** The user index behind position `k`: online users keep theirs, offline ones start at `first`. */
  function IndexAt(k: nat, start: nat, first: nat): nat { if k < start then k else first + k - start }
}
