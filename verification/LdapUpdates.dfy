/** `applyUpdatesDeduped` and `updateUserGroups`: raw membership edits are merged into one
    batch per user, cancelled against each other, and sent to Keycloak as single requests
    that complete in any order and may fail one by one. */
module LdapUpdates {

  datatype Update = Update(userId: string, add: seq<string>, remove: seq<string>)
  datatype Edit = Edit(add: set<string>, remove: set<string>)

  type Pair = (string, string)  // (user id, group id)
  type Memberships = set<Pair>

  datatype Request = Put(pair: Pair) | Delete(pair: Pair)

  /** ---- the raw list, applied one by one ---- */

  function Pairs(user: string, groups: seq<string>): set<Pair> {
    set g | g in groups :: (user, g)
  }

  function ApplyRaw(k: Memberships, updates: seq<Update>): Memberships {
    if updates == [] then k
    else
      var u := updates[|updates| - 1];
      ApplyRaw(k, updates[..|updates| - 1]) + Pairs(u.userId, u.add) - Pairs(u.userId, u.remove)
  }

  ghost predicate Added(updates: seq<Update>, p: Pair) {
    exists i :: 0 <= i < |updates| && updates[i].userId == p.0 && p.1 in updates[i].add
  }

  ghost predicate Removed(updates: seq<Update>, p: Pair) {
    exists i :: 0 <= i < |updates| && updates[i].userId == p.0 && p.1 in updates[i].remove
  }

  /** ---- the merged batches ---- */

  function EntryOf(byUser: map<string, Edit>, user: string): Edit {
    if user in byUser then byUser[user] else Edit({}, {})
  }

  function MergeOne(byUser: map<string, Edit>, u: Update): map<string, Edit> {
    var entry := EntryOf(byUser, u.userId);
    byUser[u.userId := Edit(entry.add + (set g | g in u.add), entry.remove + (set g | g in u.remove))]
  }

  function Merge(updates: seq<Update>): map<string, Edit> {
    if updates == [] then map[]
    else MergeOne(Merge(updates[..|updates| - 1]), updates[|updates| - 1])
  }

  function Dedupe(e: Edit): Edit {
    Edit(e.add - e.remove, e.remove - e.add)
  }

  function Batches(updates: seq<Update>): map<string, Edit> {
    var merged := Merge(updates);
    map u | u in merged :: Dedupe(merged[u])
  }

  ghost predicate InBatches(batches: map<string, Edit>, r: Request) {
    var e := EntryOf(batches, r.pair.0);
    match r
    case Put(p) => p.1 in e.add
    case Delete(p) => p.1 in e.remove
  }

  /** A user's additions are all sent; the removals only follow when none of them failed. */
  ghost predicate Issued(batches: map<string, Edit>, fails: Request -> bool, r: Request) {
    InBatches(batches, r) &&
    (r.Delete? ==> forall g :: InBatches(batches, Put((r.pair.0, g))) ==> !fails(Put((r.pair.0, g))))
  }

  function NoFailure(r: Request): bool { false }

  function Apply(k: Memberships, r: Request): Memberships {
    match r
    case Put(p) => k + {p}
    case Delete(p) => k - {p}
  }

  /** Keycloak after the requests `sent`, in that order, when those that `fails` names fail. */
  ghost function ApplyAll(k: Memberships, sent: seq<Request>, fails: Request -> bool): Memberships {
    if sent == [] then k
    else
      var before := ApplyAll(k, sent[..|sent| - 1], fails);
      if fails(sent[|sent| - 1]) then before else Apply(before, sent[|sent| - 1])
  }

  /** `sent` is a completion order, with repetitions or not, of the requests issued. */
  ghost predicate CompletionOrder(batches: map<string, Edit>, fails: Request -> bool, sent: seq<Request>) {
    forall r :: r in sent <==> Issued(batches, fails, r)
  }

  lemma {:induction false} MergeMeaning(updates: seq<Update>, p: Pair)
    ensures p.1 in EntryOf(Merge(updates), p.0).add <==> Added(updates, p)
    ensures p.1 in EntryOf(Merge(updates), p.0).remove <==> Removed(updates, p)
  {
    if updates != [] {
      var front, last := updates[..|updates| - 1], updates[|updates| - 1];
      MergeMeaning(front, p);
      assert Added(updates, p) <==> Added(front, p) || (last.userId == p.0 && p.1 in last.add) by {
        if Added(front, p) {
          var i :| 0 <= i < |front| && front[i].userId == p.0 && p.1 in front[i].add;
          assert updates[i] == front[i];
        }
      }
      assert Removed(updates, p) <==> Removed(front, p) || (last.userId == p.0 && p.1 in last.remove) by {
        if Removed(front, p) {
          var i :| 0 <= i < |front| && front[i].userId == p.0 && p.1 in front[i].remove;
          assert updates[i] == front[i];
        }
      }
    }
  }

  /** A batch keeps what is only added or only removed: a group on both lists is dropped from
      both, so no request contradicts another. */
  lemma BatchMeaning(updates: seq<Update>, p: Pair)
    ensures InBatches(Batches(updates), Put(p)) <==> Added(updates, p) && !Removed(updates, p)
    ensures InBatches(Batches(updates), Delete(p)) <==> Removed(updates, p) && !Added(updates, p)
  {
    MergeMeaning(updates, p);
  }

  /** Some group that a user is only added to cannot be joined. */
  ghost predicate AdditionFails(updates: seq<Update>, fails: Request -> bool, user: string) {
    exists g :: Added(updates, (user, g)) && !Removed(updates, (user, g)) && fails(Put((user, g)))
  }

  /** A user's additions are all requested; the removals are, exactly if all of them succeed. */
  lemma IssuedMeaning(updates: seq<Update>, fails: Request -> bool, p: Pair)
    ensures Issued(Batches(updates), fails, Put(p)) <==> Added(updates, p) && !Removed(updates, p)
    ensures Issued(Batches(updates), fails, Delete(p)) <==>
      Removed(updates, p) && !Added(updates, p) && !AdditionFails(updates, fails, p.0)
  {
    BatchMeaning(updates, p);
    forall g: string {
      BatchMeaning(updates, (p.0, g));
    }
  }

  /** When no pair is both put and deleted, the order of completion does not matter. */
  lemma {:induction false} OrderIndependent(k: Memberships, sent: seq<Request>, fails: Request -> bool, p: Pair)
    requires !(Put(p) in sent && Delete(p) in sent)
    ensures p in ApplyAll(k, sent, fails) <==>
      (Put(p) in sent && !fails(Put(p))) || (p in k && !(Delete(p) in sent && !fails(Delete(p))))
  {
    if sent != [] {
      var front, last := sent[..|sent| - 1], sent[|sent| - 1];
      assert sent == front + [last];
      OrderIndependent(k, front, fails, p);
    }
  }

  /** The memberships after the batches, for every completion order and every set of
      failing requests. */
  lemma AppliedMeaning(k: Memberships, updates: seq<Update>, fails: Request -> bool, sent: seq<Request>, p: Pair)
    requires CompletionOrder(Batches(updates), fails, sent)
    ensures p in ApplyAll(k, sent, fails) <==>
      if Added(updates, p) && !Removed(updates, p) then p in k || !fails(Put(p))
      else if Removed(updates, p) && !Added(updates, p) then
        p in k && (fails(Delete(p)) || AdditionFails(updates, fails, p.0))
      else p in k
  {
    IssuedMeaning(updates, fails, p);
    OrderIndependent(k, sent, fails, p);
  }

  ghost predicate NoConflict(updates: seq<Update>) {
    forall p :: !(Added(updates, p) && Removed(updates, p))
  }

  lemma {:induction false} RawMeaning(k: Memberships, updates: seq<Update>, p: Pair)
    ensures Added(updates, p) && !Removed(updates, p) ==> p in ApplyRaw(k, updates)
    ensures Removed(updates, p) && !Added(updates, p) ==> p !in ApplyRaw(k, updates)
    ensures !Added(updates, p) && !Removed(updates, p) ==> (p in ApplyRaw(k, updates) <==> p in k)
    ensures Added(updates, p) || Removed(updates, p) ==> (p in ApplyRaw(k, updates) <==> p in ApplyRaw({}, updates))
  {
    if updates != [] {
      var front, last := updates[..|updates| - 1], updates[|updates| - 1];
      RawMeaning(k, front, p);
      assert Added(updates, p) <==> Added(front, p) || (last.userId == p.0 && p.1 in last.add) by {
        assert forall i :: 0 <= i < |front| ==> updates[i] == front[i];
      }
      assert Removed(updates, p) <==> Removed(front, p) || (last.userId == p.0 && p.1 in last.remove) by {
        assert forall i :: 0 <= i < |front| ==> updates[i] == front[i];
      }
    }
  }

  /** Merging preserves the meaning of the raw list for all memberships to start from
      exactly when no pair is both added and removed. */
  lemma MergedEqualsRawIffNoConflict(updates: seq<Update>, sent: seq<Request>)
    requires CompletionOrder(Batches(updates), NoFailure, sent)
    ensures NoConflict(updates) <==> forall k :: ApplyAll(k, sent, NoFailure) == ApplyRaw(k, updates)
  {
    if NoConflict(updates) {
      forall k ensures ApplyAll(k, sent, NoFailure) == ApplyRaw(k, updates) {
        MergedEqualsRaw(k, updates, sent);
      }
    } else {
      var p :| Added(updates, p) && Removed(updates, p);
      var k := if p in ApplyRaw({}, updates) then {} else {p};
      RawMeaning(k, updates, p);
      AppliedMeaning(k, updates, NoFailure, sent, p);
      assert ApplyAll(k, sent, NoFailure) != ApplyRaw(k, updates);
    }
  }

  lemma MergedEqualsRaw(k: Memberships, updates: seq<Update>, sent: seq<Request>)
    requires NoConflict(updates) && CompletionOrder(Batches(updates), NoFailure, sent)
    ensures ApplyAll(k, sent, NoFailure) == ApplyRaw(k, updates)
  {
    forall p ensures p in ApplyAll(k, sent, NoFailure) <==> p in ApplyRaw(k, updates) {
      RawMeaning(k, updates, p);
      BatchMeaning(updates, p);
      AppliedMeaning(k, updates, NoFailure, sent, p);
    }
  }

  /** `dedupeAddRemove` on the two mutable sets of one user. */
  class EditSets {
    var add: set<string>
    var remove: set<string>

    constructor (e: Edit)
      ensures add == e.add && remove == e.remove
    {
      add, remove := e.add, e.remove;
    }

    method DedupeAddRemove()
      modifies this
      ensures Edit(add, remove) == Dedupe(old(Edit(add, remove)))
    {
      ghost var seen: set<string> := {};
      var rest := add;
      while rest != {}
        invariant rest + seen == old(add) && rest !! seen
        invariant add == rest + (seen - old(remove))
        invariant remove == old(remove) - seen
        decreases rest
      {
        var gid :| gid in rest;
        rest, seen := rest - {gid}, seen + {gid};
        if gid in remove {
          add := add - {gid};
          remove := remove - {gid};
        }
      }
    }
  }

  /** The first loop of `applyUpdatesDeduped`. */
  method MergeByUser(updates: seq<Update>) returns (byUser: map<string, Edit>)
    ensures byUser == Merge(updates)
  {
    byUser := map[];
    for i := 0 to |updates|
      invariant byUser == Merge(updates[..i])
    {
      var u := updates[i];
      assert updates[..i + 1][..i] == updates[..i];
      var add, remove := EntryOf(byUser, u.userId).add, EntryOf(byUser, u.userId).remove;
      for j := 0 to |u.add|
        invariant add == EntryOf(byUser, u.userId).add + (set g | g in u.add[..j])
      {
        add := add + {u.add[j]};
      }
      for j := 0 to |u.remove|
        invariant remove == EntryOf(byUser, u.userId).remove + (set g | g in u.remove[..j])
      {
        remove := remove + {u.remove[j]};
      }
      assert u.add[..|u.add|] == u.add && u.remove[..|u.remove|] == u.remove;
      byUser := byUser[u.userId := Edit(add, remove)];
    }
    assert updates[..|updates|] == updates;
  }

  /** The requests `applyUpdatesDeduped` sends: per user a deduplicated batch. */
  method PrepareBatches(updates: seq<Update>) returns (batches: map<string, Edit>)
    ensures batches == Batches(updates)
  {
    var byUser := MergeByUser(updates);
    batches := map[];
    var users := byUser.Keys;
    while users != {}
      invariant users <= byUser.Keys
      invariant batches == map u | u in byUser.Keys - users :: Dedupe(byUser[u])
      decreases users
    {
      var userId :| userId in users;
      var sets := new EditSets(byUser[userId]);
      sets.DedupeAddRemove();
      batches := batches[userId := Edit(sets.add, sets.remove)];
      users := users - {userId};
    }
  }

  /** The memberships Keycloak holds, changed by one request at a time. */
  class Keycloak {
    var memberships: Memberships

    constructor (memberships: Memberships)
      ensures this.memberships == memberships
    {
      this.memberships := memberships;
    }

    /** One request; `ok` is false when it fails and changes nothing. */
    method Send(r: Request, fails: Request -> bool) returns (ok: bool)
      modifies this
      ensures ok == !fails(r)
      ensures memberships == if ok then Apply(old(memberships), r) else old(memberships)
    {
      ok := !fails(r);
      if ok {
        match r {
          case Put(pair) => memberships := memberships + {pair};
          case Delete(pair) => memberships := memberships - {pair};
        }
      }
    }

    /** All requests of one kind for one user: every one is sent, failures are collected. */
    method SendAll(userId: string, groups: set<string>, put: bool, fails: Request -> bool, ghost before: Memberships, ghost sofar: seq<Request>)
      returns (allOk: bool, ghost sent: seq<Request>)
      requires memberships == ApplyAll(before, sofar, fails)
      modifies this
      ensures memberships == ApplyAll(before, sent, fails)
      ensures forall r :: r in sent <==> r in sofar || (r.pair.0 == userId && r.Put? == put && r.pair.1 in groups)
      ensures allOk <==> forall g :: g in groups ==> !fails(if put then Put((userId, g)) else Delete((userId, g)))
    {
      allOk, sent := true, sofar;
      var rest := groups;
      while rest != {}
        invariant rest <= groups
        invariant memberships == ApplyAll(before, sent, fails)
        invariant forall r :: r in sent <==> r in sofar || (r.pair.0 == userId && r.Put? == put && r.pair.1 in groups - rest)
        invariant allOk <==> forall g :: g in groups - rest ==> !fails(if put then Put((userId, g)) else Delete((userId, g)))
        decreases rest
      {
        var g :| g in rest;
        var r := if put then Put((userId, g)) else Delete((userId, g));
        var ok := Send(r, fails);
        assert (sent + [r])[..|sent|] == sent;
        sent := sent + [r];
        rest := rest - {g};
        allOk := allOk && ok;
      }
    }

    /** `applyUpdatesDeduped` with the `updateUserGroups` of every user. */
    method ApplyUpdatesDeduped(updates: seq<Update>, fails: Request -> bool) returns (ghost sent: seq<Request>)
      modifies this
      ensures CompletionOrder(Batches(updates), fails, sent)
      ensures memberships == ApplyAll(old(memberships), sent, fails)
    {
      var batches := PrepareBatches(updates);
      sent := [];
      var users := batches.Keys;
      while users != {}
        invariant users <= batches.Keys
        invariant memberships == ApplyAll(old(memberships), sent, fails)
        invariant forall r :: r in sent <==> r.pair.0 in batches.Keys - users && Issued(batches, fails, r)
        decreases users
      {
        var userId :| userId in users;
        var e := batches[userId];
        ghost var sofar := sent;
        var allOk;
        allOk, sent := SendAll(userId, e.add, true, fails, old(memberships), sent);
        if allOk {
          allOk, sent := SendAll(userId, e.remove, false, fails, old(memberships), sent);
        }
        users := users - {userId};
        forall r ensures r in sent <==> r.pair.0 in batches.Keys - users && Issued(batches, fails, r) {
          if r.pair.0 == userId {
            assert r == if r.Put? then Put((userId, r.pair.1)) else Delete((userId, r.pair.1));
            assert forall g :: InBatches(batches, Put((userId, g))) <==> g in e.add;
          }
        }
      }
    }
  }
}
