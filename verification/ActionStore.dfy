/** Proposed changes as the confirmation endpoint stores, replays and consumes them. */
module ActionStore {
  import opened Ids
  import opened Confirmation

  class ActionDesk {
    var world: World
    var actions: map<nat, Pending>
    var audit: seq<Audit>

    ghost function Now(): State
      reads this
    {
      State(world, actions, audit)
    }

    constructor ()
      ensures Now() == State(World(map[], map[], 0), map[], []) && Sound(Now())
    {
      world, actions, audit := World(map[], map[], 0), map[], [];
    }

    method CountOpen(user: nat, now: int) returns (n: nat)
      ensures n == |OpenActions(Now(), user, now)|
    {
      var left := actions.Keys;
      var found: set<nat> := {};
      while left != {}
        invariant left <= actions.Keys
        invariant found == set i | i in actions && i !in left && i in OpenActions(Now(), user, now)
      {
        var i :| i in left;
        left := left - {i};
        if actions[i].user == user && actions[i].consumedAt == None && now < actions[i].expiresAt {
          found := found + {i};
        }
      }
      assert found == OpenActions(Now(), user, now);
      n := |found|;
    }

    method PrepareAction(id: nat, user: nat, t: Target, op: Operation, changes: Changes, v: Verdict, now: int)
      returns (refused: Option<Refusal>)
      requires Sound(Now()) && id !in actions
      modifies this
      ensures refused == PrepareRefusal(old(Now()), user, t, op, changes, v, now)
      ensures Now() == Step(old(Now()), Prepare(id, user, t, op, changes, v, now)) && Sound(Now())
    {
      StepSound(Now(), Prepare(id, user, t, op, changes, v, now));
      hide Sound, Print, Frozen, WellFormed, OpenActions;
      var seal := Print(world, t);
      if seal == None {
        return Some(NotFound);
      }
      if !v.permitted {
        return Some(Denied);
      }
      if Frozen(world, t) {
        return Some(ActionRejected);
      }
      if !WellFormed(t, op, changes) || (op == Update && !v.valid) {
        return Some(InvalidArguments);
      }
      var open := CountOpen(user, now);
      if open >= PENDING_LIMIT {
        return Some(ContextLimit);
      }
      actions := actions[id := Pending(user, t, op, changes, seal.value, now + PENDING_LIFETIME, None)];
      refused := None;
    }

    /** Refusals leave everything unchanged; a confirmation runs the edit, consumes the action and writes one
        audit row in one transaction. */
    method ConfirmAction(user: nat, id: nat, v: Verdict, now: int, later: int, stamp: nat)
      returns (refused: Option<Refusal>)
      requires Sound(Now()) && now <= later && world.stamp < stamp
      modifies this
      ensures refused == ConfirmRefusal(old(Now()), user, id, v, now, later)
      ensures Now() == Step(old(Now()), Confirm(user, id, v, now, later, stamp)) && Sound(Now())
    {
      StepSound(Now(), Confirm(user, id, v, now, later, stamp));
      hide Sound, Frozen, Native;
      if id !in actions || actions[id].user != user {
        return Some(NotFound);
      }
      var a := actions[id];
      if a.consumedAt.Some? || a.expiresAt <= now {
        return Some(ContextExpired);
      }
      var seal := Print(world, a.target);
      if seal == None || seal.value != a.seal {
        return Some(ContextExpired);
      }
      if !v.permitted {
        return Some(Denied);
      }
      if Frozen(world, a.target) {
        return Some(ActionRejected);
      }
      if a.expiresAt <= later {
        return Some(ContextExpired);
      }
      if a.operation == Update && !v.valid {
        return Some(InvalidArguments);
      }
      if !v.accepted {
        return Some(ActionRejected);
      }
      world := Native(world, a.target, a.operation, a.changes, stamp);
      actions := actions[id := a.(consumedAt := Some(later))];
      audit := audit + [Audit(user, a.target, a.operation, id)];
      refused := None;
    }
  }
}
