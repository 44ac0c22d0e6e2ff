/** The two lease stores as the code updates them, and the socket consumer that publishes snapshots. */
module PresenceStore {
  import opened Ids
  import opened MemberText
  import opened Presence

  /** Leases in a dictionary of the process. */
  class MemoryLayer {
    var leases: Leases

    constructor ()
      ensures leases == map[] && Named(leases)
    {
      leases := map[];
    }

    method UserIds() returns (users: set<nat>)
      requires Named(leases)
      ensures users == Users(leases)
    {
      users := {};
      var left := leases.Keys;
      while left != {}
        invariant left <= leases.Keys
        invariant users == set k | k in leases && k !in left :: Owner(k)
      {
        var k :| k in left;
        OwnerText(k);
        left := left - {k};
        users := users + {Number(BeforeColon(k))};
      }
    }

    method Prune(now: int)
      modifies this
      ensures leases == Unexpired(old(leases), now)
    {
      var expired := set k | k in leases && leases[k] <= now;
      while expired != {}
        invariant expired == set k | k in leases && leases[k] <= now
        invariant leases.Keys <= old(leases).Keys && forall k :: k in leases ==> leases[k] == old(leases)[k]
        invariant forall k :: k in old(leases) && now < old(leases)[k] ==> k in leases
        decreases expired
      {
        var k :| k in expired;
        leases := leases - {k};
        expired := expired - {k};
      }
      forall k | k in leases ensures now < leases[k] {
        assert k !in expired;
      }
    }

    method Update(user: nat, channel: string, connected: bool, now: int) returns (s: Snapshot)
      requires Named(leases)
      modifies this
      ensures leases == Renewed(old(leases), Member(user, channel), connected, now) && Named(leases)
      ensures s == Report(old(leases), Member(user, channel), connected, now)
      ensures var name := Decimal(user) + ":" + channel;
              && (name in leases <==> connected) && (connected ==> leases[name] == now + 90_000_000)
              && (forall k :: k != name ==> (k in leases <==> k in old(leases) && now < old(leases)[k]))
              && (forall k :: k != name && k in leases ==> leases[k] == old(leases)[k])
      ensures s.revision == now
    {
      var member := Member(user, channel);
      var before := UserIds();
      Prune(now);
      if connected {
        leases := leases[member := now + LEASE];
      } else {
        leases := leases - {member};
      }
      var after := UserIds();
      s := Snapshot(Sorted(after), before != after, now);
    }
  }

  /** Leases in one sorted set under one expiring key. */
  class RedisLayer {
    var scores: Leases
    var keyExpiresAt: int

    constructor ()
      ensures scores == map[] && keyExpiresAt == 0 && Named(scores)
    {
      scores, keyExpiresAt := map[], 0;
    }

    ghost function State(): Shared
      reads this
    {
      Shared(scores, keyExpiresAt)
    }

    /** The sorted, duplicate-free user texts, whatever order the members are listed in. */
    method UserTexts() returns (result: seq<string>)
      requires Named(scores)
      ensures Lists(result, Users(scores))
    {
      result := [];
      var left := scores.Keys;
      while left != {}
        invariant left <= scores.Keys
        invariant Lists(result, set k | k in scores && k !in left :: Owner(k))
      {
        var k :| k in left;
        OwnerText(k);
        ghost var seen := set k | k in scores && k !in left :: Owner(k);
        left := left - {k};
        assert (set k | k in scores && k !in left :: Owner(k)) == seen + {Owner(k)};
        var user := MatchedUser(k);
        if user.Some? && user.value !in result {
          result := InsertText(result, user.value);
        }
      }
      assert Users(scores) == set k | k in scores && k !in left :: Owner(k);
    }

    method Update(user: nat, channel: string, connected: bool, now: int) returns (s: Snapshot)
      requires Named(scores)
      modifies this
      ensures State() == SharedUpdate(old(State()), Beat(user, channel, connected, now)) && Named(scores)
      ensures s == Report(old(State()).Found(now), Member(user, channel), connected, now)
      ensures keyExpiresAt == if s.userIds != [] then now + 180_000_000 else old(keyExpiresAt)
    {
      if scores != map[] && keyExpiresAt < now {
        scores := map[];
      }
      assert Named(scores);
      ghost var found := scores;
      hide Lists, Named, Users, Renewed, Member;
      var member := Member(user, channel);
      var before := UserTexts();
      ApplyLease(user, channel, connected, now);
      var after := UserTexts();
      NoTexts(after, Users(scores));
      if |after| > 0 {
        keyExpiresAt := now + 2 * LEASE;
      }
      JoinedListsCompare(before, Users(found), after, Users(scores));
      var ids := ReadIds(after, Users(scores));
      s := Snapshot(Sorted(ids), Join(before) != Join(after), now);
    }

    /** Removes the expired members, then adds, renews or removes one. */
    method ApplyLease(user: nat, channel: string, connected: bool, now: int)
      requires Named(scores)
      modifies `scores
      ensures scores == Renewed(old(scores), Member(user, channel), connected, now) && Named(scores)
      ensures var name := Decimal(user) + ":" + channel;
              && (name in scores <==> connected) && (connected ==> scores[name] == now + 90_000_000)
              && (forall k :: k != name ==> (k in scores <==> k in old(scores) && now < old(scores)[k]))
    {
      var member := Member(user, channel);
      scores := map k | k in scores && now < scores[k] :: scores[k];
      if connected {
        scores := scores[member := now + LEASE];
      } else {
        scores := scores - {member};
      }
    }

    method ReadIds(texts: seq<string>, ghost users: set<nat>) returns (ids: set<nat>)
      requires Lists(texts, users)
      ensures ids == users
    {
      ids := {};
      for i := 0 to |texts|
        invariant forall u :: u in ids <==> u in users && Decimal(u) in texts[..i]
      {
        assert texts[..i + 1] == texts[..i] + [texts[i]];
        assert texts[i] in texts;
        ghost var v :| v in users && texts[i] == Decimal(v);
        NumberOfDecimal(v);
        forall u | Decimal(u) == texts[i] ensures u == v {
          DecimalInjective(u, v);
        }
        ids := ids + {Number(texts[i])};
      }
      assert texts[..|texts|] == texts;
      assert forall u :: u in users ==> Decimal(u) in texts;
    }
  }

  lemma NoTexts(list: seq<string>, users: set<nat>)
    requires Lists(list, users)
    ensures list == [] <==> users == {}
  {
    if list != [] {
      assert list[0] in list;
    }
    forall u | u in users ensures list != [] {
      assert Decimal(u) in list;
    }
  }

  /** One socket of one user, publishing to everyone through the layer it shares with all other sockets. */
  class Socket {
    const user: nat
    const channel: string
    var joined: bool

    constructor (user: nat, channel: string)
      ensures this.user == user && this.channel == channel && !joined
    {
      this.user, this.channel, joined := user, channel, false;
    }

    /** Sends the snapshot to the presence group when forced or changed. */
    method UpdatePresence(hub: Hub, connected: bool, force: bool, now: int)
      requires Named(hub.layer.leases)
      modifies hub`published, hub.layer
      ensures Named(hub.layer.leases)
      ensures hub.layer.leases == Renewed(old(hub.layer.leases), Member(user, channel), connected, now)
      ensures var r := Report(old(hub.layer.leases), Member(user, channel), connected, now);
              hub.published == if force || r.changed then r.userIds else old(hub.published)
    {
      var s := hub.layer.Update(user, channel, connected, now);
      if !force && !s.changed {
        return;
      }
      hub.published := s.userIds;
    }

    /** An unauthenticated or inactive user is refused before any lease exists. */
    method Connect(hub: Hub, active: bool, now: int)
      requires hub.Valid()
      modifies this, hub, hub.layer
      ensures hub.Valid()
      ensures !active ==> joined == old(joined) && hub.Run() == old(hub.Run())
      ensures active ==> joined && hub.Run() == old(hub.Run()) + [Beat(user, channel, true, now)]
    {
      if !active {
        return;
      }
      joined := true;
      hide Store, Published, Report, Renewed;
      hub.Advance(Beat(user, channel, true, now));
      UpdatePresence(hub, true, true, now);
    }

    /** A ping renews the lease unless the user has been deactivated. */
    method Ping(hub: Hub, active: bool, now: int)
      requires hub.Valid()
      modifies this, hub, hub.layer
      ensures hub.Valid() && joined == old(joined)
      ensures hub.Run() == old(hub.Run()) + if active then [Beat(user, channel, true, now)] else []
    {
      if !active {
        return;
      }
      hide Store, Published, Report, Renewed;
      hub.Advance(Beat(user, channel, true, now));
      UpdatePresence(hub, true, true, now);
    }

    method Disconnect(hub: Hub, now: int)
      requires hub.Valid()
      modifies this, hub, hub.layer
      ensures hub.Valid() && joined == old(joined)
      ensures hub.Run() == old(hub.Run()) + if joined then [Beat(user, channel, false, now)] else []
    {
      if joined {
        hide Store, Published, Report, Renewed;
        hub.Advance(Beat(user, channel, false, now));
        UpdatePresence(hub, false, false, now);
      }
    }
  }

  /** The layer, the last list every client received, and the updates made so far. */
  class Hub {
    const layer: MemoryLayer
    var published: seq<nat>
    ghost var run: seq<Beat>

    ghost function Run(): seq<Beat>
      reads this
    {
      run
    }

    /** Every client was last told exactly the users that are stored. */
    ghost predicate Valid()
      reads this, layer
    {
      && layer.leases == Store(run) && Named(layer.leases)
      && published == Published(run) == Sorted(Users(layer.leases))
    }

    constructor ()
      ensures Valid() && Run() == [] && fresh(layer)
    {
      layer := new MemoryLayer();
      published, run := [], [];
      new;
      BroadcastAgrees([]);
    }

    /** Records that an update is about to happen. */
    ghost method Advance(b: Beat)
      requires Valid()
      modifies this
      ensures run == old(run) + [b] && published == old(published)
      ensures Store(run) == Renewed(layer.leases, b.Name(), b.connected, b.at)
      ensures Published(run) == NextPublished(published, layer.leases, b) == Sorted(Users(Store(run)))
    {
      run := run + [b];
      assert run[..|run| - 1] == old(run);
      BroadcastAgrees(run);
    }
  }
}
