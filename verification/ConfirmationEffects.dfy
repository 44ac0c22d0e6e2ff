/** What proposing and confirming leave in the stored rows, and each refusal in exactly its case. */
module ConfirmationEffects {
  import opened Ids
  import opened Confirmation

  predicate RecordStored(w: World, t: Target) {
    match t
    case OfProject(p) => p in w.projects
    case OfCard(c) => c in w.cards && w.cards[c].project in w.projects
  }

  predicate RecordArchived(w: World, t: Target)
    requires RecordStored(w, t)
  {
    match t
    case OfProject(p) => w.projects[p].archived
    case OfCard(c) => w.cards[c].archived || w.projects[w.cards[c].project].archived
  }

  /** An update proposes values for some of the columns that may be proposed; an archive proposes none. */
  predicate Proposable(t: Target, op: Operation, changes: Changes) {
    match (op, t)
    case (Archive, _) => changes == map[]
    case (Update, OfProject(_)) =>
      changes != map[] && changes.Keys <= {"name", "description", "priority", "start_date", "target_end_date"}
    case (Update, OfCard(_)) =>
      changes != map[] && changes.Keys <= {"title", "description", "priority", "due_date", "blocked_reason"}
  }

  /** The columns hold the proposed values where there are any, and what they held before elsewhere. */
  ghost predicate ColumnsEdited(was: Columns, now: Columns, changes: Changes) {
    forall k :: Value(now, k) == if k in changes then changes[k] else Value(was, k)
  }

  /** The edit of one record: an update sets or clears the proposed columns, an archive archives the record and the
      unarchived cards of a project; written rows carry the stamp and no other row is touched. */
  ghost predicate RecordEdited(w: World, r: World, t: Target, op: Operation, changes: Changes, n: nat) {
    r.stamp == n &&
    match (op, t)
    case (Update, OfProject(p)) =>
      && p in w.projects && p in r.projects && r.cards == w.cards
      && r.projects == w.projects[p := w.projects[p].(columns := r.projects[p].columns, updatedAt := n)]
      && ColumnsEdited(w.projects[p].columns, r.projects[p].columns, changes)
    case (Update, OfCard(c)) =>
      && c in w.cards && c in r.cards && r.projects == w.projects
      && r.cards == w.cards[c := w.cards[c].(columns := r.cards[c].columns, updatedAt := n)]
      && ColumnsEdited(w.cards[c].columns, r.cards[c].columns, changes)
    case (Archive, OfProject(p)) =>
      && p in w.projects && r.cards.Keys == w.cards.Keys
      && r.projects == w.projects[p := w.projects[p].(archived := true, updatedAt := n)]
      && (forall c :: c in w.cards ==>
            r.cards[c] == if w.cards[c].project == p && !w.cards[c].archived
                          then w.cards[c].(archived := true, updatedAt := n) else w.cards[c])
    case (Archive, OfCard(c)) =>
      && c in w.cards && r.projects == w.projects
      && r.cards == w.cards[c := w.cards[c].(archived := true, updatedAt := n)]
  }

  lemma NativeEdit(w: World, t: Target, op: Operation, changes: Changes, n: nat)
    requires RecordStored(w, t)
    ensures RecordEdited(w, Native(w, t, op, changes, n), t, op, changes, n)
  {
  }

  /** Confirming takes effect exactly when the action exists, is the user's, is not consumed, is in time at both looks
      at the clock, its seal is the record's present one, the record is not archived, the user is permitted, and the
      edit is accepted with valid values. Then the record is edited, the action consumed and one audit row written,
      together; otherwise nothing changes at all. */
  lemma ConfirmExactly(s: State, user: nat, id: nat, v: Verdict, now: int, later: int, stamp: nat)
    ensures var r := Step(s, Confirm(user, id, v, now, later, stamp));
            if && id in s.actions && s.actions[id].user == user && s.actions[id].consumedAt.None?
               && now < s.actions[id].expiresAt && later < s.actions[id].expiresAt
               && RecordStored(s.world, s.actions[id].target)
               && Print(s.world, s.actions[id].target) == Some(s.actions[id].seal)
               && !RecordArchived(s.world, s.actions[id].target)
               && v.permitted && v.accepted && (s.actions[id].operation == Update ==> v.valid)
            then
              var a := s.actions[id];
              && RecordEdited(s.world, r.world, a.target, a.operation, a.changes, stamp)
              && r.actions == s.actions[id := a.(consumedAt := Some(later))]
              && |r.audit| == |s.audit| + 1 && r.audit[..|s.audit|] == s.audit
              && var row := r.audit[|s.audit|];
                 row.user == user && row.target == a.target && row.operation == a.operation && row.action == id
            else r == s
  {
    if id in s.actions && RecordStored(s.world, s.actions[id].target) {
      var a := s.actions[id];
      NativeEdit(s.world, a.target, a.operation, a.changes, stamp);
      FrozenIsArchived(s.world, a.target);
    }
    if id in s.actions { PrintOfStored(s.world, s.actions[id].target); }
    hide Native, Print, Frozen, RecordEdited, RecordArchived, RecordStored;
  }

  lemma PrintOfStored(w: World, t: Target)
    ensures Print(w, t).Some? <==> RecordStored(w, t)
  {
  }

  lemma FrozenIsArchived(w: World, t: Target)
    requires RecordStored(w, t)
    ensures Frozen(w, t) <==> RecordArchived(w, t)
  {
  }

  lemma ProposableForms(t: Target, op: Operation, changes: Changes)
    ensures WellFormed(t, op, changes) <==> Proposable(t, op, changes)
  {
  }

  /** A proposal is stored exactly when the record is, the user is permitted, the record is not archived, the change
      is well formed with valid values, and fewer than twenty actions of the user are open. It is then sealed on the
      record's present state and lapses after five minutes. */
  lemma PrepareExactly(s: State, id: nat, user: nat, t: Target, op: Operation, changes: Changes, v: Verdict, now: int)
    ensures var r := Step(s, Prepare(id, user, t, op, changes, v, now));
            var open := set i | && i in s.actions && s.actions[i].user == user && s.actions[i].consumedAt.None?
                                && now < s.actions[i].expiresAt;
            if && RecordStored(s.world, t) && v.permitted && !RecordArchived(s.world, t)
               && Proposable(t, op, changes) && (op == Update ==> v.valid) && |open| < 20
            then
              && r.world == s.world && r.audit == s.audit && r.actions.Keys == s.actions.Keys + {id}
              && (forall i :: i in s.actions && i != id ==> r.actions[i] == s.actions[i])
              && var a := r.actions[id];
                 && a.user == user && a.target == t && a.operation == op && a.changes == changes
                 && a.consumedAt.None? && a.expiresAt == now + 300_000_000 && Print(s.world, t) == Some(a.seal)
            else r == s
  {
    PrintOfStored(s.world, t);
    if RecordStored(s.world, t) { FrozenIsArchived(s.world, t); }
    ProposableForms(t, op, changes);
    assert OpenActions(s, user, now) == set i | && i in s.actions && s.actions[i].user == user
                                               && s.actions[i].consumedAt.None? && now < s.actions[i].expiresAt;
    hide Print, Frozen, WellFormed, Proposable, RecordArchived, RecordStored, OpenActions;
  }

  /** Each refusal of a proposal in exactly its case. */
  lemma PrepareAnswers(s: State, user: nat, t: Target, op: Operation, changes: Changes, v: Verdict, now: int)
    ensures var x := PrepareRefusal(s, user, t, op, changes, v, now);
            var open := set i | && i in s.actions && s.actions[i].user == user && s.actions[i].consumedAt.None?
                                && now < s.actions[i].expiresAt;
            && (x == Some(NotFound) <==> !RecordStored(s.world, t))
            && (x == Some(Denied) <==> RecordStored(s.world, t) && !v.permitted)
            && (x == Some(ActionRejected) <==> RecordStored(s.world, t) && v.permitted && RecordArchived(s.world, t))
            && (x == Some(InvalidArguments) <==>
                  && RecordStored(s.world, t) && v.permitted && !RecordArchived(s.world, t)
                  && !(Proposable(t, op, changes) && (op == Update ==> v.valid)))
            && (x == Some(ContextLimit) <==>
                  && RecordStored(s.world, t) && v.permitted && !RecordArchived(s.world, t)
                  && Proposable(t, op, changes) && (op == Update ==> v.valid) && 20 <= |open|)
            && x != Some(ContextExpired)
  {
    PrintOfStored(s.world, t);
    if RecordStored(s.world, t) { FrozenIsArchived(s.world, t); }
    ProposableForms(t, op, changes);
    assert OpenActions(s, user, now) == set i | && i in s.actions && s.actions[i].user == user
                                               && s.actions[i].consumedAt.None? && now < s.actions[i].expiresAt;
    hide Print, Frozen, WellFormed, Proposable, RecordArchived, RecordStored, OpenActions;
  }

  /** The user's own action, open at an instant and sealed on the record's present state. */
  predicate Current(s: State, user: nat, id: nat, now: int) {
    && id in s.actions && s.actions[id].user == user && s.actions[id].consumedAt.None?
    && now < s.actions[id].expiresAt && RecordStored(s.world, s.actions[id].target)
    && Print(s.world, s.actions[id].target) == Some(s.actions[id].seal)
  }

  /** Each refusal of a confirmation in exactly its case. */
  lemma ConfirmAnswers(s: State, user: nat, id: nat, v: Verdict, now: int, later: int)
    ensures var x := ConfirmRefusal(s, user, id, v, now, later);
            && (x == Some(NotFound) <==> id !in s.actions || s.actions[id].user != user)
            && (x == Some(ContextExpired) <==>
                  && id in s.actions && s.actions[id].user == user
                  && (!Current(s, user, id, now)
                      || (v.permitted && !RecordArchived(s.world, s.actions[id].target)
                          && s.actions[id].expiresAt <= later)))
            && (x == Some(Denied) <==> Current(s, user, id, now) && !v.permitted)
            && (x == Some(InvalidArguments) <==>
                  && Current(s, user, id, now) && v.permitted && !RecordArchived(s.world, s.actions[id].target)
                  && later < s.actions[id].expiresAt && s.actions[id].operation == Update && !v.valid)
            && (x == Some(ActionRejected) <==>
                  && Current(s, user, id, now) && v.permitted
                  && (RecordArchived(s.world, s.actions[id].target)
                      || (later < s.actions[id].expiresAt && (s.actions[id].operation == Update ==> v.valid)
                          && !v.accepted)))
            && x != Some(ContextLimit)
  {
    if id in s.actions {
      var t := s.actions[id].target;
      PrintOfStored(s.world, t);
      if RecordStored(s.world, t) { FrozenIsArchived(s.world, t); }
    }
    hide Print, Frozen, RecordArchived, RecordStored;
  }

  /** Each answer to a replayed proposal in exactly its case. */
  lemma ReplayAnswers(s: State, user: nat, id: nat, v: Verdict, now: int)
    ensures var x := ReplayOf(s, user, id, v, now);
            var mine := id in s.actions && s.actions[id].user == user;
            && (x == Completed <==> mine && s.actions[id].consumedAt.Some?)
            && (x == Lapsed <==> !mine || (s.actions[id].consumedAt.None? && s.actions[id].expiresAt <= now))
            && (x.Shown? <==>
                  Current(s, user, id, now) && v.permitted && !RecordArchived(s.world, s.actions[id].target))
            && (x.Shown? ==> x.action == s.actions[id])
  {
    if id in s.actions {
      var t := s.actions[id].target;
      PrintOfStored(s.world, t);
      if RecordStored(s.world, t) { FrozenIsArchived(s.world, t); }
    }
    hide Print, Frozen, RecordArchived, RecordStored;
  }

  // ---------- what runs may contain ----------

  /** No stamp goes back, and a row that was not there, or whose stamp moved past all earlier saves, is new. */
  ghost predicate StampsGoOn(w: World, r: World) {
    && w.stamp <= r.stamp
    && (forall p :: p in r.projects ==>
          && r.projects[p].updatedAt <= r.stamp
          && (w.stamp < r.projects[p].updatedAt
              || (p in w.projects && w.projects[p].updatedAt <= r.projects[p].updatedAt)))
    && (forall c :: c in r.cards ==>
          && r.cards[c].updatedAt <= r.stamp
          && (w.stamp < r.cards[c].updatedAt || (c in w.cards && w.cards[c].updatedAt <= r.cards[c].updatedAt)))
  }

  /** Runs are as free as they can be: any unused id, any confirmation that reads the clock in order and saves later
      than all saves before it, and any other change of the records under which stamps go on. */
  lemma PossibleExactly(s: State, e: Event)
    ensures Possible(s, e) <==>
            match e
            case Prepare(id, _, _, _, _, _, _) => id !in s.actions
            case Confirm(_, _, _, now, later, stamp) => now <= later && s.world.stamp < stamp
            case Elsewhere(r, _) => StampsGoOn(s.world, r)
  {
    match e
    case Elsewhere(r, _) =>
      if Edits(s.world, r) {
        forall p | p in r.projects ensures SavedAt(r, OfProject(p)) == Some(r.projects[p].updatedAt) {
          assert SavedAt(r, OfProject(p)).Some?;
        }
        forall c | c in r.cards ensures SavedAt(r, OfCard(c)) == Some(r.cards[c].updatedAt) {
          assert SavedAt(r, OfCard(c)).Some?;
        }
      }
    case _ =>
  }
}
