/** The single leased slot for model inference, taken over only after its lease has run out. */
module InferenceLease {
  import opened Ids

  /** The stored row. */
  datatype Row = Row(owner: Option<nat>, expiresAt: Option<int>)

  predicate Available(r: Row, now: int) {
    r.owner == None || (r.expiresAt.Some? && r.expiresAt.value < now)
  }

  /** The row, and each worker that acquired it and has not released it, with the expiry it was granted. */
  datatype State = State(row: Row, holders: map<nat, int>)

  datatype Event = Acquire(worker: nat, at: int) | Release(worker: nat, at: int)

  /** Worker ids are fresh for every request; a worker that did not acquire the row never releases it. */
  function Step(s: State, e: Event, lifetime: nat): State {
    match e
    case Acquire(w, at) =>
      if w in s.holders || !Available(s.row, at) then s
      else State(Row(Some(w), Some(at + lifetime)), s.holders[w := at + lifetime])
    case Release(w, at) =>
      if w !in s.holders then s
      else State(if s.row.owner == Some(w) then Row(None, None) else s.row, s.holders - {w})
  }

  const IDLE := State(Row(None, None), map[])

  function Run(run: seq<Event>, lifetime: nat): State {
    if run == [] then IDLE else Step(Run(run[..|run| - 1], lifetime), run[|run| - 1], lifetime)
  }

  predicate Ordered(run: seq<Event>) {
    forall i, j :: 0 <= i < j < |run| ==> run[i].at <= run[j].at
  }

  /** A holder is either the recorded owner with its own expiry, or its lease had run out by now. */
  ghost predicate Coherent(s: State, now: int) {
    && (forall w :: w in s.holders ==> s.row == Row(Some(w), Some(s.holders[w])) || s.holders[w] < now)
    && (s.row.owner.Some? ==> s.row.owner.value in s.holders && s.row.expiresAt == Some(s.holders[s.row.owner.value]))
  }

  lemma {:induction false} RunCoherent(run: seq<Event>, lifetime: nat, now: int)
    requires Ordered(run) && forall i :: 0 <= i < |run| ==> run[i].at <= now
    ensures Coherent(Run(run, lifetime), now)
  {
    if run != [] {
      RunCoherent(run[..|run| - 1], lifetime, run[|run| - 1].at);
    }
  }

  /** In every interleaving, a worker whose lease has not run out is the recorded owner, so no two workers hold
      an unexpired lease. */
  lemma OneUnexpiredHolder(run: seq<Event>, lifetime: nat, a: nat, b: nat, now: int)
    requires Ordered(run) && forall i :: 0 <= i < |run| ==> run[i].at <= now
    ensures var s := Run(run, lifetime);
            && (a in s.holders && now <= s.holders[a] ==> s.row == Row(Some(a), Some(s.holders[a])))
            && (a in s.holders && b in s.holders && now <= s.holders[a] && now <= s.holders[b] ==> a == b)
  {
    RunCoherent(run, lifetime, now);
  }

  /** From the moment a worker acquires the row until it releases it or its lease runs out, the row records
      that worker and its expiry, whatever all others do: in particular a worker whose lease was taken over
      cannot release its successor's. */
  lemma {:induction false} HeldUntilReleased(run: seq<Event>, i: nat, w: nat, lifetime: nat)
    requires Ordered(run) && i < |run| && run[i].Acquire? && run[i].worker == w
    requires w !in Run(run[..i], lifetime).holders && w in Run(run[..i + 1], lifetime).holders
    requires forall j :: i < j < |run| ==> run[j] != Release(w, run[j].at) && run[j].at <= run[i].at + lifetime
    ensures var s := Run(run, lifetime);
            s.row == Row(Some(w), Some(run[i].at + lifetime)) && w in s.holders
  {
    var before, e := run[..|run| - 1], run[|run| - 1];
    if i == |run| - 1 {
      assert run[..i + 1] == run && run[..i] == before;
    } else {
      assert before[..i] == run[..i] && before[..i + 1] == run[..i + 1];
      HeldUntilReleased(before, i, w, lifetime);
      assert Run(run, lifetime) == Step(Run(before, lifetime), e, lifetime);
      hide Run;
      assert run[|run| - 1] != Release(w, run[|run| - 1].at) && e.at <= run[i].at + lifetime;
    }
  }

  /** The slot is never stuck: a request for it, whatever happened before, succeeds exactly when nobody holds an
      unexpired lease. */
  lemma AcquiredWhenFree(run: seq<Event>, lifetime: nat, w: nat, at: int)
    requires Ordered(run) && forall i :: 0 <= i < |run| ==> run[i].at <= at
    requires w !in Run(run, lifetime).holders
    ensures var s := Run(run, lifetime);
            Step(s, Acquire(w, at), lifetime).row.owner == Some(w)
            <==> forall x :: x in s.holders ==> s.holders[x] < at
  {
    var s := Run(run, lifetime);
    RunCoherent(run, lifetime, at);
    if s.row.owner.Some? {
      assert s.row.owner.value in s.holders;
    }
  }

  /** The model's timeout is configured in seconds. */
  function Lifetime(timeout: nat): nat { (2 * timeout + 60) * 1_000_000 }

  class LeaseRow {
    var owner: Option<nat>
    var expiresAt: Option<int>
    ghost var holders: map<nat, int>

    ghost function Now(): State
      reads this
    {
      State(Row(owner, expiresAt), holders)
    }

    constructor ()
      ensures Now() == IDLE
    {
      owner, expiresAt, holders := None, None, map[];
    }

    /** One conditional update: it matches the row only while nobody owns it or the owner's lease ran out. The lease
        lasts twice the model's timeout, given in seconds, and a minute. */
    method TryAcquire(worker: nat, timeout: nat, now: int) returns (acquired: bool)
      requires worker !in holders
      modifies this
      ensures Now() == Step(old(Now()), Acquire(worker, now), Lifetime(timeout))
      ensures acquired == (worker in holders)
      ensures acquired <==> old(owner).None? || (old(expiresAt).Some? && old(expiresAt).value < now)
      ensures acquired ==> owner == Some(worker) && expiresAt == Some(now + 2_000_000 * timeout + 60_000_000)
      ensures !acquired ==> owner == old(owner) && expiresAt == old(expiresAt)
    {
      var lifetime := Lifetime(timeout);
      acquired := owner == None || (expiresAt.Some? && expiresAt.value < now);
      if acquired {
        owner, expiresAt := Some(worker), Some(now + lifetime);
        holders := holders[worker := now + lifetime];
      }
    }

    /** The final release matches the row only by its owner. */
    method Finish(worker: nat, acquired: bool, timeout: nat, now: int)
      requires acquired == (worker in holders)
      modifies this
      ensures Now() == Step(old(Now()), Release(worker, now), Lifetime(timeout))
      ensures if acquired && old(owner) == Some(worker) then owner.None? && expiresAt.None?
              else owner == old(owner) && expiresAt == old(expiresAt)
    {
      if acquired {
        if owner == Some(worker) {
          owner, expiresAt := None, None;
        }
        holders := holders - {worker};
      }
    }
  }
}
