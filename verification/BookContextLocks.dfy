/** The edit lock over whole runs: who may take it from whom, and what lies between two writers. */
module BookContextLocks {
  import opened Options
  import opened BookContext
  import opened BookContextSafety

  /** Call `i` is a successful section write of `user`. */
  ghost predicate Writes(t: Run, i: nat, id: string, user: string)
    requires IsRun(t)
  {
    i < |t.ops| && t.ops[i].UpdateSection? && t.ops[i].id == id && t.ops[i].user == user
    && ReplyTo(t.states[i], t.ops[i]).Ok?
  }

  /** Call `i` is a successful lock call of `user` at time `now`. */
  ghost predicate Locks(t: Run, i: nat, id: string, user: string, now: int)
    requires IsRun(t)
  {
    i < |t.ops| && t.ops[i] == Lock(id, user, now) && ReplyTo(t.states[i], t.ops[i]).Ok?
  }

  /** From state `i` to state `j` the lock is continuously held by `user` with lock time `at`. */
  ghost predicate HeldSince(t: Run, i: nat, j: nat, id: string, user: string, at: int)
    requires IsRun(t)
  {
    i <= j < |t.states| &&
    forall q :: i <= q <= j ==>
      id in t.states[q].docs && t.states[q].docs[id].lockedBy == Some(user) && t.states[q].docs[id].lockedAt == Some(at)
  }

  /** A document's lock is as it was, or free. */
  predicate LockKeptOrFreed(before: Store, after: Store, id: string) {
    || Holder(after, id) == None
    || (Holder(after, id) == Holder(before, id) && after.docs[id].lockedAt == before.docs[id].lockedAt)
  }

  lemma {:induction false} InsertsKeepLocks(s: Store, op: Op, id: string)
    requires Inserts(op)
    ensures LockKeptOrFreed(s, After(s, op), id)
  {}

  lemma {:induction false} EditsKeepLocks(s: Store, op: Op, id: string)
    requires op.UpdateSection? || op.Translate?
    ensures LockKeptOrFreed(s, After(s, op), id)
  {}

  lemma {:induction false} ReviewKeepsLocks(s: Store, op: Op, id: string)
    requires op.Approve? || op.RequestRevision?
    ensures LockKeptOrFreed(s, After(s, op), id)
  {}

  lemma {:induction false} OthersKeepLocks(s: Store, op: Op, id: string)
    requires op.SetActive? || op.Unlock? || op.FinishGeneration? || op.CancelGeneration? || op.DeleteUser?
    ensures LockKeptOrFreed(s, After(s, op), id)
  {}

  lemma {:induction false} OnlyLockTakes(s: Store, op: Op, id: string)
    requires !(op.Lock? && op.id == id && ReplyTo(s, op).Ok?)
    ensures LockKeptOrFreed(s, After(s, op), id)
  {
    if Inserts(op) { InsertsKeepLocks(s, op, id); }
    else if op.UpdateSection? || op.Translate? { EditsKeepLocks(s, op, id); }
    else if op.Approve? || op.RequestRevision? { ReviewKeepsLocks(s, op, id); }
    else if !op.Lock? { OthersKeepLocks(s, op, id); }
  }

  /** In one call a lock appears or changes hands only by the new holder's own lock call. */
  lemma {:induction false} HolderChangesByLock(s: Store, op: Op, id: string, user: string)
    requires Sound(s)
    requires Holder(After(s, op), id) == Some(user)
    requires Holder(s, id) != Some(user)
    ensures op.Lock? && op.id == id && op.user == user && ReplyTo(s, op).Ok?
    ensures Holder(s, id) == None || op.now - s.docs[id].lockedAt.value > FOUR_HOURS
  {
    if !(op.Lock? && op.id == id && ReplyTo(s, op).Ok?) { OnlyLockTakes(s, op, id); }
    assert SoundDoc(s.docs[id]);
  }

  /** While the holder stays, the lock time moves only by the holder's own lock call. */
  lemma {:induction false} LockTimeMovesByLock(s: Store, op: Op, id: string, user: string)
    requires Holder(s, id) == Some(user) && Holder(After(s, op), id) == Some(user)
    requires s.docs[id].lockedAt != After(s, op).docs[id].lockedAt
    ensures op.Lock? && op.id == id && op.user == user && ReplyTo(s, op).Ok?
  {
    if !(op.Lock? && op.id == id && ReplyTo(s, op).Ok?) { OnlyLockTakes(s, op, id); }
  }

  // ---- Releases ----------------------------------------------------------------------------

  /** The call is an approval that completes the quorum. */
  ghost predicate CompletesQuorum(s: Store, op: Op, id: string) {
    && op.Approve? && op.id == id && id in s.docs && Capable(op.roles) != []
    && Quorum(s.docs[id].approvals + [Approval(op.user, Capable(op.roles)[0], Capable(op.roles), op.locale)])
  }

  /** The calls that free a held lock without giving it to anyone else. */
  ghost predicate Releases(s: Store, op: Op, id: string, holder: string) {
    && ReplyTo(s, op).Ok?
    && (|| (op.Unlock? && op.id == id && (op.user == holder || op.isAdmin))
        || CompletesQuorum(s, op, id)
        || ((op.SetActive? || op.RequestRevision?) && op.id == id)
        || (op.StartGeneration? && op.id == id && id in s.docs && !HasContent(s.docs[id]))
        || (op.DeleteUser? && op.user == holder))
  }

  lemma {:induction false} InsertReleases(s: Store, op: Op, id: string, holder: string)
    requires Inserts(op) && Holder(s, id) == Some(holder)
    ensures Holder(After(s, op), id) == None <==> Releases(s, op, id, holder)
  {}

  lemma {:induction false} ApproveReleases(s: Store, op: Op, id: string, holder: string)
    requires op.Approve? && Holder(s, id) == Some(holder)
    ensures Holder(After(s, op), id) == None <==> Releases(s, op, id, holder)
  {}

  lemma {:induction false} EditReleases(s: Store, op: Op, id: string, holder: string)
    requires op.UpdateSection? || op.Translate? || op.FinishGeneration? || op.Lock?
    requires Holder(s, id) == Some(holder)
    ensures Holder(After(s, op), id) != None && !Releases(s, op, id, holder)
  {}

  lemma {:induction false} OtherReleases(s: Store, op: Op, id: string, holder: string)
    requires op.SetActive? || op.RequestRevision? || op.Unlock? || op.DeleteUser?
    requires Holder(s, id) == Some(holder)
    ensures Holder(After(s, op), id) == None <==> Releases(s, op, id, holder)
  {}

  /** A held lock becomes free by exactly those calls. */
  lemma {:induction false} FreedIff(s: Store, op: Op, id: string, holder: string)
    requires Sound(s) && Holder(s, id) == Some(holder)
    ensures Holder(After(s, op), id) == None <==> Releases(s, op, id, holder)
  {
    assert SoundDoc(s.docs[id]);
    if Inserts(op) { InsertReleases(s, op, id, holder); }
    else if op.Approve? { ApproveReleases(s, op, id, holder); }
    else if op.SetActive? || op.RequestRevision? || op.Unlock? || op.DeleteUser? { OtherReleases(s, op, id, holder); }
    else if !op.CancelGeneration? { EditReleases(s, op, id, holder); }
  }

  // ---- Over whole runs ---------------------------------------------------------------------

  lemma {:induction false} LockLeavesHolder(s: Store, id: string, user: string, now: int)
    requires ReplyTo(s, Lock(id, user, now)).Ok?
    ensures Holder(After(s, Lock(id, user, now)), id) == Some(user)
    ensures After(s, Lock(id, user, now)).docs[id].lockedAt == Some(now)
  {}

  /** Whoever holds the lock took or renewed it at the recorded time and has held it ever since. */
  lemma {:induction false} HolderLocked(t: Run, n: nat, id: string, user: string) returns (i: nat)
    requires IsRun(t) && n < |t.states| && Holder(t.states[n], id) == Some(user)
    ensures i < n && t.states[n].docs[id].lockedAt.Some?
    ensures Locks(t, i, id, user, t.states[n].docs[id].lockedAt.value)
    ensures HeldSince(t, i + 1, n, id, user, t.states[n].docs[id].lockedAt.value)
  {
    assert n > 0;
    var s, op := t.states[n - 1], t.ops[n - 1];
    assert t.states[n] == After(s, op);
    RunIsSound(t, n - 1);
    if Holder(s, id) != Some(user) {
      HolderChangesByLock(s, op, id, user);
      LockLeavesHolder(s, id, user, op.now);
      i := n - 1;
    } else if s.docs[id].lockedAt != t.states[n].docs[id].lockedAt {
      LockTimeMovesByLock(s, op, id, user);
      LockLeavesHolder(s, id, user, op.now);
      i := n - 1;
    } else {
      i := HolderLocked(t, n - 1, id, user);
    }
  }

  /** Call `m` takes the document from `user` more than four hours after the user's last lock call. */
  ghost predicate TakesOver(t: Run, m: nat, id: string, user: string)
    requires IsRun(t)
  {
    && m < |t.ops| && t.ops[m].Lock? && t.ops[m].id == id
    && (exists p: nat, at: int :: p < m && Locks(t, p, id, user, at) && HeldSince(t, p + 1, m, id, user, at)
         && t.ops[m].now - at > FOUR_HOURS)
  }

  /**
    The lock passes directly from one user to another only more than four hours after the last lock
    call of the one who loses it.
  */
  lemma {:induction false} TakeoverNeedsTimeout(t: Run, n: nat, id: string, user: string, next: string)
    requires IsRun(t) && n < |t.ops| && user != next
    requires Holder(t.states[n], id) == Some(user) && Holder(t.states[n + 1], id) == Some(next)
    ensures TakesOver(t, n, id, user) && Locks(t, n, id, next, t.ops[n].now)
  {
    var i := HolderLocked(t, n, id, user);
    RunIsSound(t, n);
    HolderChangesByLock(t.states[n], t.ops[n], id, next);
  }

  lemma {:induction false} WriterHolds(s: Store, op: Op)
    requires op.UpdateSection? && ReplyTo(s, op).Ok?
    ensures Holder(s, op.id) == Some(op.user) && Holder(After(s, op), op.id) == Some(op.user)
  {}

  /** The first call after `i` that ends `user`'s hold. */
  lemma {:induction false} FirstLoss(t: Run, i: nat, j: nat, id: string, user: string) returns (m: nat)
    requires IsRun(t) && i <= j < |t.states|
    requires Holder(t.states[i], id) == Some(user) && Holder(t.states[j], id) != Some(user)
    ensures i <= m < j
    ensures Holder(t.states[m], id) == Some(user) && Holder(t.states[m + 1], id) != Some(user)
  {
    m := i;
    while Holder(t.states[m + 1], id) == Some(user)
      invariant i <= m < j && Holder(t.states[m], id) == Some(user)
      decreases j - m
    {
      m := m + 1;
    }
  }

  /**
    Between successful writes by two different users the first writer's hold ends, by a release or
    by a takeover after the timeout, and afterwards the second writer locks the document.
  */
  lemma {:induction false} WritersHandOver(t: Run, i: nat, j: nat, id: string, u: string, v: string)
    returns (m: nat, k: nat)
    requires IsRun(t) && i < j && u != v
    requires Writes(t, i, id, u) && Writes(t, j, id, v)
    ensures i < m <= k < j
    ensures Holder(t.states[m], id) == Some(u) && Holder(t.states[m + 1], id) != Some(u)
    ensures Releases(t.states[m], t.ops[m], id, u) || TakesOver(t, m, id, u)
    ensures exists at :: Locks(t, k, id, v, at) && HeldSince(t, k + 1, j, id, v, at)
  {
    WriterHolds(t.states[i], t.ops[i]);
    WriterHolds(t.states[j], t.ops[j]);
    m := FirstLoss(t, i + 1, j, id, u);
    k := HolderLocked(t, j, id, v);
    if k < m { assert false; }
    if Holder(t.states[m + 1], id) == None {
      RunIsSound(t, m);
      FreedIff(t.states[m], t.ops[m], id, u);
    } else {
      TakeoverNeedsTimeout(t, m, id, u, Holder(t.states[m + 1], id).value);
    }
  }
}
