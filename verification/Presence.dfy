/** Expiring connection leases: what one update does, and what every run of updates leads to. */
module Presence {
  import opened Ids
  import opened MemberText

  /** Instants are microseconds; a lease lasts ninety seconds. */
  const LEASE := 90_000_000

  /** Expiry instant of every connection, by stored connection name. */
  type Leases = map<string, int>

  const EMPTY: Leases := map[]

  datatype Snapshot = Snapshot(userIds: seq<nat>, changed: bool, revision: int)

  ghost predicate Named(m: Leases) { forall k :: k in m ==> IsMember(k) }

  function Users(m: Leases): set<nat> { set k | k in m :: Owner(k) }

  function Unexpired(m: Leases, now: int): Leases { map k | k in m && now < m[k] :: m[k] }

  /** Expired leases go first; then the connection is renewed or removed. */
  function Renewed(m: Leases, member: string, connected: bool, now: int): Leases {
    if connected then Unexpired(m, now)[member := now + LEASE] else Unexpired(m, now) - {member}
  }

  function Report(m: Leases, member: string, connected: bool, now: int): Snapshot {
    var after := Users(Renewed(m, member, connected, now));
    Snapshot(Sorted(after), Users(m) != after, now)
  }

  // ---------- user lists as text ----------

  /** The texts of exactly these users, sorted, without duplicates. */
  ghost predicate Lists(list: seq<string>, users: set<nat>) {
    Ascending(list) && forall x :: x in list <==> exists u :: u in users && x == Decimal(u)
  }

  /** Comparing joined lists of user texts is comparing sets of users. */
  lemma JoinedListsCompare(xs: seq<string>, a: set<nat>, ys: seq<string>, b: set<nat>)
    requires Lists(xs, a) && Lists(ys, b)
    ensures Join(xs) == Join(ys) <==> a == b
  {
    forall x | x in xs ensures Plain(x) { var u :| u in a && x == Decimal(u); DigitsPlain(x); }
    forall y | y in ys ensures Plain(y) { var u :| u in b && y == Decimal(u); DigitsPlain(y); }
    if Join(xs) == Join(ys) {
      JoinInjective(xs, ys);
      SameUsers(xs, a, b);
      SameUsers(xs, b, a);
    }
    if a == b {
      AscendingUnique(xs, ys);
    }
  }

  lemma SameUsers(list: seq<string>, a: set<nat>, b: set<nat>)
    requires Lists(list, a) && Lists(list, b)
    ensures a <= b
  {
    forall u | u in a ensures u in b {
      assert Decimal(u) in list;
      var v :| v in b && Decimal(u) == Decimal(v);
      DecimalInjective(u, v);
    }
  }

  // ---------- runs ----------

  /** One update of the store: a connection renews its lease, or leaves. */
  datatype Beat = Beat(user: nat, channel: string, connected: bool, at: int) {
    function Name(): string { Member(user, channel) }
  }

  predicate Ordered(run: seq<Beat>) {
    forall i, j :: 0 <= i < j < |run| ==> run[i].at <= run[j].at
  }

  /** The in-memory store after a run of updates. */
  function Store(run: seq<Beat>): Leases {
    if run == [] then map[]
    else
      var b := run[|run| - 1];
      Renewed(Store(run[..|run| - 1]), b.Name(), b.connected, b.at)
  }

  /** The last update that concerns a connection. */
  function LastBeat(run: seq<Beat>, name: string): Option<Beat> {
    if run == [] then None
    else
      var b := run[|run| - 1];
      if b.Name() == name then Some(b) else LastBeat(run[..|run| - 1], name)
  }

  /** The connection's last update was a renewal less than ninety seconds before the given instant. */
  predicate Alive(run: seq<Beat>, name: string, now: int) {
    var b := LastBeat(run, name);
    b.Some? && b.value.connected && now < b.value.at + 90_000_000
  }

  /** Right after any update, a connection is in the store exactly if its own last update was a renewal less
      than ninety seconds ago, whatever the other connections did. */
  lemma {:induction false} StoreIsAlive(run: seq<Beat>, name: string)
    requires Ordered(run) && run != []
    ensures name in Store(run) <==> Alive(run, name, run[|run| - 1].at)
    ensures name in Store(run) ==> Store(run)[name] == LastBeat(run, name).value.at + 90_000_000
  {
    var before, b := run[..|run| - 1], run[|run| - 1];
    assert LastBeat(run, name) == if b.Name() == name then Some(b) else LastBeat(before, name);
    assert name != b.Name() ==> (name in Store(run) <==> name in Store(before) && b.at < Store(before)[name]);
    if before == [] {
      assert Store(before) == map[] && LastBeat(before, name) == None;
    } else {
      StoreIsAlive(before, name);
      assert before[|before| - 1] == run[|run| - 2] && run[|run| - 2].at <= b.at;
    }
  }

  /** A user is listed after an update exactly while one of their connections is alive. */
  lemma ListedWhileAlive(run: seq<Beat>, user: nat)
    requires Ordered(run) && run != []
    ensures user in Users(Store(run))
       <==> exists c :: Alive(run, Member(user, c), run[|run| - 1].at)
  {
    var now := run[|run| - 1].at;
    StoreNamed(run);
    forall c ensures Member(user, c) in Store(run) <==> Alive(run, Member(user, c), now) {
      StoreIsAlive(run, Member(user, c));
      OwnerOfMember(user, c);
    }
    if user in Users(Store(run)) {
      var k :| k in Store(run) && Owner(k) == user;
      var u, c :| k == Member(u, c);
      OwnerOfMember(u, c);
      assert Alive(run, Member(user, c), now);
    }
    if exists c :: Alive(run, Member(user, c), now) {
      var c :| Alive(run, Member(user, c), now);
      OwnerOfMember(user, c);
      assert Member(user, c) in Store(run);
    }
  }

  lemma {:induction false} StoreNamed(run: seq<Beat>)
    ensures Named(Store(run))
  {
    if run != [] {
      StoreNamed(run[..|run| - 1]);
      var b := run[|run| - 1];
      assert b.Name() == Member(b.user, b.channel);
    }
  }

  // ---------- on the updates themselves ----------

  /** Update i renewed this user's channel, and no later update concerns it. */
  predicate LatestRenewal(run: seq<Beat>, user: nat, channel: string, i: nat) {
    && i < |run| && run[i].user == user && run[i].channel == channel && run[i].connected
    && forall l :: i < l < |run| ==> run[l].user != user || run[l].channel != channel
  }

  lemma {:induction false} LastBeatAt(run: seq<Beat>, user: nat, channel: string) returns (i: nat)
    requires LastBeat(run, Member(user, channel)).Some?
    ensures i < |run| && run[i].user == user && run[i].channel == channel
    ensures LastBeat(run, Member(user, channel)) == Some(run[i])
    ensures forall l :: i < l < |run| ==> run[l].user != user || run[l].channel != channel
  {
    var b := run[|run| - 1];
    if b.Name() == Member(user, channel) {
      MemberInjective(b.user, b.channel, user, channel);
      i := |run| - 1;
    } else {
      i := LastBeatAt(run[..|run| - 1], user, channel);
    }
  }

  /** A connection's latest renewal is its last update. */
  lemma LatestIsLast(run: seq<Beat>, user: nat, channel: string, i: nat)
    requires LatestRenewal(run, user, channel, i)
    ensures LastBeat(run, Member(user, channel)) == Some(run[i])
  {
    var name := Member(user, channel);
    hide Member, LastBeat;
    forall l | i < l < |run| ensures run[l].Name() != name {
      if run[l].Name() == name { MemberInjective(run[l].user, run[l].channel, user, channel); }
    }
    assert LastOwn(run, name, i, |run|);
    LastOwnBeat(run, name, i, |run|);
    assert run[..|run|] == run;
  }

  /** After any update a connection, that is one channel of one user, is stored under its text exactly if a renewal
      of it less than ninety seconds ago was followed by no other update of it. */
  lemma StoredExactly(run: seq<Beat>, user: nat, channel: string)
    requires Ordered(run) && run != []
    ensures Decimal(user) + ":" + channel in Store(run) <==>
            exists i: nat :: LatestRenewal(run, user, channel, i) && run[|run| - 1].at < run[i].at + 90_000_000
  {
    var name := Member(user, channel);
    assert name == Decimal(user) + ":" + channel;
    hide Member, Store, LastBeat;
    StoreIsAlive(run, name);
    if name in Store(run) {
      var i := LastBeatAt(run, user, channel);
      assert LatestRenewal(run, user, channel, i);
    }
    if i: nat :| LatestRenewal(run, user, channel, i) && run[|run| - 1].at < run[i].at + 90_000_000 {
      LatestIsLast(run, user, channel, i);
    }
  }

  /** Some channel of the user was renewed less than ninety seconds ago and has not been updated since. */
  ghost predicate Online(run: seq<Beat>, user: nat) {
    exists c: string, i: nat :: LatestRenewal(run, user, c, i) && run[|run| - 1].at < run[i].at + 90_000_000
  }

  lemma UsersOnline(run: seq<Beat>, user: nat)
    requires Ordered(run)
    ensures user in Users(Store(run)) <==> Online(run, user)
  {
    StoreNamed(run);
    if user in Users(Store(run)) {
      var k :| k in Store(run) && Owner(k) == user;
      var u, c :| k == Member(u, c);
      OwnerOfMember(u, c);
      hide Store;
      StoredExactly(run, user, c);
    }
    if Online(run, user) {
      hide Store;
      var c: string, i: nat :| LatestRenewal(run, user, c, i) && run[|run| - 1].at < run[i].at + 90_000_000;
      StoredExactly(run, user, c);
      OwnerOfMember(user, c);
      assert Member(user, c) in Store(run);
    }
  }

  /** What an update of either store answers: the users online now, ascending; whether anyone came or went since the
      update before, unless the shared key has expired; and the instant as revision. */
  lemma SnapshotExactly(run: seq<Beat>, b: Beat)
    requires Ordered(run + [b])
    ensures var memory := Report(Store(run), b.Name(), b.connected, b.at);
            var shared := Report(SharedStore(run).Found(b.at), b.Name(), b.connected, b.at);
            && memory.revision == shared.revision == b.at && shared.userIds == memory.userIds
            && (forall i, j :: 0 <= i < j < |memory.userIds| ==> memory.userIds[i] < memory.userIds[j])
            && (forall u :: u in memory.userIds <==> Online(run + [b], u))
            && (memory.changed <==> exists u :: Online(run, u) != Online(run + [b], u))
            && (run == [] || b.at <= run[|run| - 1].at + 180_000_000 ==> shared.changed == memory.changed)
  {
    OrderedPrefix(run, b);
    assert (run + [b])[..|run|] == run;
    assert Store(run + [b]) == Renewed(Store(run), b.Name(), b.connected, b.at);
    hide Renewed, Store, SharedStore, Online;
    ReportsAgree(run, b);
    StoresAgree(run);
    forall u ensures u in Users(Store(run)) <==> Online(run, u) { UsersOnline(run, u); }
    forall u ensures u in Users(Store(run + [b])) <==> Online(run + [b], u) { UsersOnline(run + [b], u); }
    EmptyStores();
  }

  lemma OrderedPrefix(run: seq<Beat>, b: Beat)
    requires Ordered(run + [b])
    ensures Ordered(run)
  {
    forall i, j | 0 <= i < j < |run| ensures run[i].at <= run[j].at {
      assert (run + [b])[i].at <= (run + [b])[j].at;
    }
  }

  lemma EmptyStores()
    ensures Store([]) == map[] && SharedStore([]) == Shared(map[], 0)
  {
  }

  /** The shared key outlives the last update that leaves users by exactly three minutes. */
  lemma KeyGoneExactly(run: seq<Beat>, now: int)
    requires Ordered(run) && Store(run) != map[]
    ensures SharedStore(run).Found(now) == map[] <==> run[|run| - 1].at + 180_000_000 < now
  {
    StoresAgree(run);
  }

  /** Beat j is the connection's own last one before position n. */
  predicate LastOwn(run: seq<Beat>, name: string, j: nat, n: nat) {
    j < n <= |run| && run[j].Name() == name && forall l :: j < l < n ==> run[l].Name() != name
  }

  lemma {:induction false} LastOwnBeat(run: seq<Beat>, name: string, j: nat, n: nat)
    requires LastOwn(run, name, j, n)
    ensures LastBeat(run[..n], name) == Some(run[j])
    decreases n - j
  {
    assert run[..n][..n - 1] == run[..n - 1];
    if j < n - 1 {
      LastOwnBeat(run, name, j, n - 1);
    }
  }

  lemma {:induction false} LastOwnFrom(run: seq<Beat>, name: string, i: nat, n: nat) returns (j: nat)
    requires i < n <= |run| && run[i].Name() == name
    ensures i <= j && LastOwn(run, name, j, n)
    decreases n - i
  {
    if run[n - 1].Name() == name {
      j := n - 1;
    } else {
      j := LastOwnFrom(run, name, i, n - 1);
    }
  }

  lemma {:induction false} NextOwnUpTo(run: seq<Beat>, name: string, n: nat, k: nat) returns (l: nat)
    requires n <= k < |run| && run[k].Name() == name
    ensures n <= l <= k && run[l].Name() == name && forall x :: n <= x < l ==> run[x].Name() != name
    decreases k - n
  {
    if run[n].Name() == name {
      l := n;
    } else {
      l := NextOwnUpTo(run, name, n + 1, k);
    }
  }

  /** From its beat i to its beat k the connection only renews, each time less than ninety seconds after its
      previous own beat. */
  predicate Steady(run: seq<Beat>, name: string, i: nat, k: nat) {
    && i <= k < |run| && run[i].Name() == name && run[k].Name() == name
    && (forall j :: i <= j <= k && run[j].Name() == name ==> run[j].connected)
    && (forall j, l :: i <= j < l <= k && run[l].Name() == name && LastOwn(run, name, j, l) ==>
          run[l].at - run[j].at < 90_000_000)
  }

  /** A connection that renews at gaps under ninety seconds is in every snapshot from its first to its last such
      renewal, whoever takes the snapshots. */
  lemma SteadyConnectionStays(run: seq<Beat>, name: string, i: nat, k: nat)
    requires Ordered(run) && Steady(run, name, i, k)
    ensures forall n :: i < n <= k + 1 ==> name in Store(run[..n])
  {
    hide Store, LastBeat, Member;
    forall n | i < n <= k + 1 ensures name in Store(run[..n]) {
      var j := LastOwnFrom(run, name, i, n);
      LastOwnBeat(run, name, j, n);
      if j < n - 1 {
        var l := NextOwnUpTo(run, name, n, k);
        assert LastOwn(run, name, j, l);
        assert run[n - 1].at <= run[l].at < run[j].at + 90_000_000;
      }
      assert Ordered(run[..n]) && run[..n][|run[..n]| - 1] == run[n - 1];
      StoreIsAlive(run[..n], name);
    }
  }

  /** Some steady connection of the user spans the n-th snapshot. */
  ghost predicate Covered(run: seq<Beat>, user: nat, n: nat) {
    exists c: string, i: nat, k: nat :: Steady(run, Member(user, c), i, k) && i < n <= k + 1
  }

  /** A user stays listed through any stretch of snapshots each of which some steady connection of theirs covers,
      even when they pass from one connection to another. */
  lemma UserStaysListed(run: seq<Beat>, user: nat, lo: nat, hi: nat)
    requires Ordered(run) && hi <= |run|
    requires forall n :: lo < n <= hi ==> Covered(run, user, n)
    ensures forall n :: lo < n <= hi ==> user in Users(Store(run[..n]))
  {
    forall n | lo < n <= hi ensures user in Users(Store(run[..n])) {
      assert Covered(run, user, n);
      var c: string, i: nat, k: nat :| Steady(run, Member(user, c), i, k) && i < n <= k + 1;
      SteadyConnectionStays(run, Member(user, c), i, k);
      OwnerOfMember(user, c);
      assert Member(user, c) in Store(run[..n]);
    }
  }

  /** A connection that stops after its beat j is in exactly the later snapshots taken less than ninety seconds
      after that beat, and in none at all if that beat was its departure. */
  lemma SilentConnectionGoes(run: seq<Beat>, name: string, j: nat)
    requires Ordered(run) && LastOwn(run, name, j, |run|)
    ensures forall n :: j < n <= |run| ==>
              (name in Store(run[..n]) <==> run[j].connected && run[n - 1].at - run[j].at < 90_000_000)
  {
    forall n | j < n <= |run|
      ensures name in Store(run[..n]) <==> run[j].connected && run[n - 1].at - run[j].at < 90_000_000
    {
      LastOwnBeat(run, name, j, n);
      assert Ordered(run[..n]) && run[..n][|run[..n]| - 1] == run[n - 1];
      StoreIsAlive(run[..n], name);
    }
  }

  // ---------- the shared sorted set ----------

  /** The sorted set and the instant its whole key expires. */
  datatype Shared = Shared(scores: Leases, keyExpiresAt: int) {
    predicate Gone(now: int) { scores != map[] && keyExpiresAt < now }

    /** What a script sees: nothing once the whole key has expired. */
    function Found(now: int): Leases { if Gone(now) then map[] else scores }
  }

  function SharedUpdate(s: Shared, b: Beat): Shared {
    var after := Renewed(s.Found(b.at), b.Name(), b.connected, b.at);
    Shared(after, if Users(after) != {} then b.at + 2 * LEASE else s.keyExpiresAt)
  }

  function SharedStore(run: seq<Beat>): Shared {
    if run == [] then Shared(map[], 0)
    else SharedUpdate(SharedStore(run[..|run| - 1]), run[|run| - 1])
  }

  /** The whole-key expiry never removes a live lease: both stores hold the same leases after every update. */
  lemma {:induction false} StoresAgree(run: seq<Beat>)
    requires Ordered(run)
    ensures SharedStore(run).scores == Store(run)
    ensures run != [] && Store(run) != map[] ==>
              && SharedStore(run).keyExpiresAt == run[|run| - 1].at + 180_000_000
              && forall k :: k in Store(run) ==> Store(run)[k] <= run[|run| - 1].at + 90_000_000
  {
    if run != [] {
      var before, b := run[..|run| - 1], run[|run| - 1];
      StoresAgree(before);
      StoreNamed(run);
      var s := SharedStore(before);
      if s.Gone(b.at) {
        assert before != [];
        assert Unexpired(s.scores, b.at) == map[] == Unexpired(map[], b.at);
      }
      if Store(run) != map[] {
        var k :| k in Store(run);
        assert Owner(k) in Users(Store(run));
      }
    }
  }

  /** The two stores report the same users; the changed flags agree unless the whole key had expired, and then
      they agree only if the update brings back someone, and not just the one user still remembered in memory. */
  lemma ReportsAgree(run: seq<Beat>, b: Beat)
    requires Ordered(run + [b])
    ensures var s, m := SharedStore(run), Store(run);
            var shared, memory := Report(s.Found(b.at), b.Name(), b.connected, b.at),
                                  Report(m, b.Name(), b.connected, b.at);
            && shared.userIds == memory.userIds && shared.revision == memory.revision
            && (shared.changed == memory.changed <==>
                  !s.Gone(b.at) || (b.connected && Users(m) != {b.user}))
  {
    OrderedPrefix(run, b);
    StoresAgree(run);
    if SharedStore(run).Gone(b.at) {
      assert run != [] && (run + [b])[|run| - 1].at <= (run + [b])[|run|].at;
      AllExpired(Store(run), b);
    }
  }

  /** The flags do differ: a user connects, the whole key expires, and the same user connects again. The
      dictionary still remembers them and reports no change, the shared store reports one. */
  lemma FlagsDiffer(user: nat, channel: string, at: int)
    ensures var run, b := [Beat(user, channel, true, at)], Beat(user, channel, true, at + 2 * LEASE + 1);
            Ordered(run + [b])
            && Report(SharedStore(run).Found(b.at), b.Name(), true, b.at).changed
            && !Report(Store(run), b.Name(), true, b.at).changed
  {
    hide Renewed, Users, Store, SharedStore;
    var first, b := Beat(user, channel, true, at), Beat(user, channel, true, at + 2 * LEASE + 1);
    FirstConnection(first);
    assert first.Name() in Store([first]);
    AllExpired(Store([first]), b);
  }

  /** Both stores after one connection. */
  lemma FirstConnection(b: Beat)
    requires b.connected
    ensures Store([b]) == map[b.Name() := b.at + LEASE] && Users(Store([b])) == {b.user}
    ensures SharedStore([b]) == Shared(Store([b]), b.at + 2 * LEASE)
  {
    var m := map[b.Name() := b.at + LEASE];
    OwnerOfMember(b.user, b.channel);
    assert [b][..0] == [];
    assert Renewed(EMPTY, b.Name(), true, b.at) == m && b.Name() in m;
    assert Users(m) == {b.user};
    assert Store([b][..0]) == EMPTY && SharedStore([b][..0]) == Shared(EMPTY, 0);
  }

  /** An update of a store whose leases have all expired leaves at most the updated connection. */
  lemma AllExpired(m: Leases, b: Beat)
    requires m != map[] && forall k :: k in m ==> m[k] <= b.at
    ensures Renewed(m, b.Name(), b.connected, b.at) == Renewed(EMPTY, b.Name(), b.connected, b.at)
    ensures Users(m) != {} && Users(EMPTY) == {}
    ensures Users(Renewed(EMPTY, b.Name(), b.connected, b.at)) == if b.connected then {b.user} else {}
  {
    OwnerOfMember(b.user, b.channel);
    assert Unexpired(m, b.at) == EMPTY == Unexpired(EMPTY, b.at);
    var k :| k in m;
    assert Owner(k) in Users(m);
    assert Renewed(EMPTY, b.Name(), b.connected, b.at)
        == if b.connected then map[b.Name() := b.at + LEASE] else EMPTY;
    assert b.Name() in map[b.Name() := b.at + LEASE];
  }

  // ---------- broadcasts ----------

  /** Connecting and pinging always broadcast the snapshot, leaving only when the users changed. */
  function NextPublished(published: seq<nat>, m: Leases, b: Beat): seq<nat> {
    var r := Report(m, b.Name(), b.connected, b.at);
    if b.connected || r.changed then r.userIds else published
  }

  function Published(run: seq<Beat>): seq<nat> {
    if run == [] then []
    else NextPublished(Published(run[..|run| - 1]), Store(run[..|run| - 1]), run[|run| - 1])
  }

  /** With the in-memory store the last broadcast list is always the stored users, although unchanged
      snapshots are not sent. */
  lemma {:induction false} BroadcastAgrees(run: seq<Beat>)
    ensures Published(run) == Sorted(Users(Store(run)))
  {
    if run != [] {
      BroadcastAgrees(run[..|run| - 1]);
    } else {
      assert Users(map[]) == {};
    }
  }

  function SharedPublished(run: seq<Beat>): seq<nat> {
    if run == [] then []
    else
      NextPublished(SharedPublished(run[..|run| - 1]),
                    SharedStore(run[..|run| - 1]).Found(run[|run| - 1].at), run[|run| - 1])
  }

  /** A connection left after the whole key had expired, and nobody connected or pinged since. */
  predicate Silenced(run: seq<Beat>) {
    run != [] && !run[|run| - 1].connected
    && (SharedStore(run[..|run| - 1]).Gone(run[|run| - 1].at) || Silenced(run[..|run| - 1]))
  }

  /** With the shared store the last broadcast list is the stored users exactly unless a connection left after
      the whole key had expired and nobody connected or pinged since; then the store is empty but the last
      broadcast still names users. */
  lemma {:induction false} SharedBroadcastAgrees(run: seq<Beat>)
    requires Ordered(run)
    ensures SharedPublished(run) == Sorted(Users(SharedStore(run).scores)) <==> !Silenced(run)
    ensures Silenced(run) ==> SharedStore(run).scores == map[] && SharedPublished(run) != []
  {
    if run == [] {
      assert Users(map[]) == {};
    } else {
      var before, b := run[..|run| - 1], run[|run| - 1];
      SharedBroadcastAgrees(before);
      var s := SharedStore(before);
      var found := s.Found(b.at);
      assert Users(map[]) == {} && Unexpired(map[], b.at) == map[] && EMPTY - {b.Name()} == EMPTY;
      if !b.connected && s.Gone(b.at) {
        var k :| k in s.scores;
        assert Owner(k) in Users(s.scores);
        assert Owner(k) in Sorted(Users(s.scores));
        assert !Silenced(before);
      }
    }
  }

  /** Such a run: one user connects, and their connection is closed more than three minutes later. */
  lemma SilencedRunExists(user: nat, channel: string, at: int)
    ensures var run := [Beat(user, channel, true, at), Beat(user, channel, false, at + 2 * LEASE + 1)];
            Ordered(run) && Silenced(run) && SharedStore(run).scores == map[] && SharedPublished(run) == [user]
  {
    var first := Beat(user, channel, true, at);
    var run := [first, Beat(user, channel, false, at + 2 * LEASE + 1)];
    assert run[..1] == [first] && [first][..0] == [];
    FirstConnection(first);
    assert {user} - {user} == {} && Sorted({user} - {user}) == [] && Sorted({user}) == [user];
    SharedBroadcastAgrees([first]);
    SharedBroadcastAgrees(run);
  }
}
