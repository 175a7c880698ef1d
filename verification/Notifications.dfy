/** The notification store: one collection of notifications and one of recipient rows.
    Creation in batches, rollback, upsert by source, recipient synchronisation, the delete
    paths, expiry and the clean-up job. */
module Notifications {
  import opened Types

  datatype Status = Pending | Sent | Failed

  /** `content` stands for the title, texts and data that an update replaces together. */
  datatype Notification = Notification(
    kind: string,
    sourceType: Option<string>,
    sourceId: Option<string>,
    createdBy: string,
    content: string,
    lastPushSentAt: Option<int>)

  datatype Row = Row(id: nat, read: bool, status: Status)

  /** Rows are found by notification and username, as their unique index has it. */
  type Key = (nat, string)

  /** Ids are never used twice. */
  datatype Store = Store(notifications: map<nat, Notification>, rows: map<Key, Row>, nextId: nat)

  const BULK_INSERT_BATCH_SIZE: nat := 500
  const SAME_SOURCE_PUSH_DEBOUNCE_MINUTES: int := 30

  /** ---- invariants ---- */

  predicate SameSource(a: Notification, b: Notification) {
    a.sourceId.Some? && a.sourceId == b.sourceId && a.sourceType == b.sourceType
  }

  /** At most one notification per source. */
  ghost predicate OnePerSource(s: Store) {
    forall a, b :: a in s.notifications && b in s.notifications && SameSource(s.notifications[a], s.notifications[b]) ==> a == b
  }

  ghost predicate FreshIds(s: Store) {
    && (forall n :: n in s.notifications ==> n < s.nextId)
    && (forall k :: k in s.rows ==> k.0 < s.nextId && s.rows[k].id < s.nextId)
  }

  /** No row without its notification. */
  ghost predicate NoDangling(s: Store) {
    forall k :: k in s.rows ==> k.0 in s.notifications
  }

  ghost predicate Inv(s: Store) {
    OnePerSource(s) && FreshIds(s) && NoDangling(s)
  }

  function SetOf(users: seq<string>): set<string> {
    set u | u in users
  }

  /** ---- batches ---- */

  function Batches(users: seq<string>): seq<seq<string>>
    decreases |users|
  {
    if users == [] then []
    else if |users| <= BULK_INSERT_BATCH_SIZE then [users]
    else [users[..BULK_INSERT_BATCH_SIZE]] + Batches(users[BULK_INSERT_BATCH_SIZE..])
  }

  function Concat(batches: seq<seq<string>>): seq<string> {
    if batches == [] then [] else batches[0] + Concat(batches[1..])
  }

  /** Every username is in exactly one batch, in order; no batch is empty or too large, and
      only the last one may be short. */
  lemma {:induction false} BatchesPartition(users: seq<string>)
    ensures Concat(Batches(users)) == users
    ensures forall i :: 0 <= i < |Batches(users)| ==> 0 < |Batches(users)[i]| <= BULK_INSERT_BATCH_SIZE
    ensures forall i :: 0 <= i < |Batches(users)| - 1 ==> |Batches(users)[i]| == BULK_INSERT_BATCH_SIZE
    decreases |users|
  {
    if |users| > BULK_INSERT_BATCH_SIZE {
      var rest := users[BULK_INSERT_BATCH_SIZE..];
      BatchesPartition(rest);
      assert ([users[..BULK_INSERT_BATCH_SIZE]] + Batches(rest))[1..] == Batches(rest);
    } else if users != [] {
      assert Concat([users]) == users + Concat([users][1..]);
    }
  }

  /** ---- rows ---- */

  /** One document of an unordered `insertMany`: the unique index refuses a second row. */
  function InsertRow(s: Store, n: nat, user: string): Store {
    if (n, user) in s.rows then s
    else s.(rows := s.rows[(n, user) := Row(s.nextId, false, Pending)], nextId := s.nextId + 1)
  }

  /** What the database does to the inserts of one call.  `refused` are the positions, in the
      list of documents, of those that are not written, for whatever reason but the unique
      index; `broken` are the inserts that end in another error than a bulk write error. */
  datatype Trouble = Trouble(refused: set<nat>, broken: set<nat>)

  /** The list begins at position `at`. */
  function InsertRows(s: Store, n: nat, users: seq<string>, refused: set<nat>, at: nat): Store
    decreases |users|
  {
    if users == [] then s
    else InsertRows(if at in refused then s else InsertRow(s, n, users[0]), n, users[1..], refused, at + 1)
  }

  function InsertedCount(s: Store, n: nat, users: seq<string>, refused: set<nat>, at: nat): (k: nat)
    ensures k <= |users|
    decreases |users|
  {
    if users == [] then 0
    else if at in refused then InsertedCount(s, n, users[1..], refused, at + 1)
    else (if (n, users[0]) in s.rows then 0 else 1) + InsertedCount(InsertRow(s, n, users[0]), n, users[1..], refused, at + 1)
  }

  /** Some document of the user is not refused. */
  ghost predicate IsWritten(users: seq<string>, refused: set<nat>, at: nat, user: string) {
    exists i :: 0 <= i < |users| && users[i] == user && at + i !in refused
  }

  lemma FirstOrLater(users: seq<string>, refused: set<nat>, at: nat, user: string)
    requires users != []
    ensures IsWritten(users, refused, at, user) <==>
      (users[0] == user && at !in refused) || IsWritten(users[1..], refused, at + 1, user)
  {
    if i :| 0 <= i < |users| && users[i] == user && at + i !in refused {
      assert i > 0 ==> users[1..][i - 1] == user && at + 1 + (i - 1) !in refused;
    }
    if i :| 0 <= i < |users[1..]| && users[1..][i] == user && at + 1 + i !in refused {
      assert users[i + 1] == user && at + (i + 1) !in refused;
    }
  }

  /** `t` is `s` with unread rows of `n` for `users` who had none. */
  ghost predicate Extended(s: Store, t: Store, n: nat, users: set<string>) {
    && t.notifications == s.notifications && t.nextId >= s.nextId
    && (forall k :: k in s.rows ==> k in t.rows && t.rows[k] == s.rows[k])
    && (forall k :: k in t.rows && k !in s.rows ==>
         k.0 == n && k.1 in users && t.rows[k].id < t.nextId && !t.rows[k].read && t.rows[k].status == Pending)
  }

  /** Exactly the users with a document that is not refused have rows afterwards. */
  lemma {:induction false} InsertRowsMeaning(s: Store, n: nat, users: seq<string>, refused: set<nat>, at: nat)
    ensures Extended(s, InsertRows(s, n, users, refused, at), n, SetOf(users))
    ensures forall u :: (n, u) in InsertRows(s, n, users, refused, at).rows <==> (n, u) in s.rows || IsWritten(users, refused, at, u)
    decreases |users|
  {
    if users != [] {
      var mid := if at in refused then s else InsertRow(s, n, users[0]);
      InsertRowsMeaning(mid, n, users[1..], refused, at + 1);
      forall u ensures IsWritten(users, refused, at, u) <==>
        (users[0] == u && at !in refused) || IsWritten(users[1..], refused, at + 1, u)
      {
        FirstOrLater(users, refused, at, u);
      }
      assert forall u :: u in users <==> u == users[0] || u in users[1..];
    }
  }

  /** `createUserNotifications`, batch by batch. */
  datatype BulkResult = BulkResult(inserted: nat, failed: nat)

  function CreateRows(s: Store, n: nat, batches: seq<seq<string>>, refused: set<nat>, at: nat): Store
    decreases |batches|
  {
    if batches == [] then s
    else CreateRows(InsertRows(s, n, batches[0], refused, at), n, batches[1..], refused, at + |batches[0]|)
  }

  /** An insert that breaks counts as failed as a whole, whatever it has written. */
  function BulkCount(s: Store, n: nat, batches: seq<seq<string>>, trouble: Trouble, index: nat, at: nat): BulkResult
    decreases |batches|
  {
    if batches == [] then BulkResult(0, 0)
    else
      var k := if index in trouble.broken then 0 else InsertedCount(s, n, batches[0], trouble.refused, at);
      var rest := BulkCount(InsertRows(s, n, batches[0], trouble.refused, at), n, batches[1..], trouble, index + 1, at + |batches[0]|);
      BulkResult(k + rest.inserted, (|batches[0]| - k) + rest.failed)
  }

  /** Every username is accounted for. */
  lemma {:induction false} InsertedPlusFailed(s: Store, n: nat, batches: seq<seq<string>>, trouble: Trouble, index: nat, at: nat)
    ensures var r := BulkCount(s, n, batches, trouble, index, at); r.inserted + r.failed == |Concat(batches)|
    decreases |batches|
  {
    if batches != [] {
      InsertedPlusFailed(InsertRows(s, n, batches[0], trouble.refused, at), n, batches[1..], trouble, index + 1, at + |batches[0]|);
    }
  }

  lemma {:induction false} InsertRowsAppend(s: Store, n: nat, a: seq<string>, b: seq<string>, refused: set<nat>, at: nat)
    ensures InsertRows(s, n, a + b, refused, at) == InsertRows(InsertRows(s, n, a, refused, at), n, b, refused, at + |a|)
    decreases |a|
  {
    if a == [] {
      assert a + b == b;
    } else {
      assert (a + b)[1..] == a[1..] + b;
      InsertRowsAppend(if at in refused then s else InsertRow(s, n, a[0]), n, a[1..], b, refused, at + 1);
    }
  }

  /** For the rows it makes no difference how the list is cut into batches. */
  lemma {:induction false} BatchesInsertTheList(s: Store, n: nat, batches: seq<seq<string>>, refused: set<nat>, at: nat)
    ensures CreateRows(s, n, batches, refused, at) == InsertRows(s, n, Concat(batches), refused, at)
    decreases |batches|
  {
    if batches != [] {
      InsertRowsAppend(s, n, batches[0], Concat(batches[1..]), refused, at);
      BatchesInsertTheList(InsertRows(s, n, batches[0], refused, at), n, batches[1..], refused, at + |batches[0]|);
    }
  }

  lemma {:induction false} InsertedAppend(s: Store, n: nat, a: seq<string>, b: seq<string>, refused: set<nat>, at: nat)
    ensures InsertedCount(s, n, a + b, refused, at) ==
      InsertedCount(s, n, a, refused, at) + InsertedCount(InsertRows(s, n, a, refused, at), n, b, refused, at + |a|)
    decreases |a|
  {
    if a == [] {
      assert a + b == b;
    } else {
      assert (a + b)[1..] == a[1..] + b;
      InsertedAppend(if at in refused then s else InsertRow(s, n, a[0]), n, a[1..], b, refused, at + 1);
    }
  }

  lemma {:induction false} BatchesCountTheList(s: Store, n: nat, batches: seq<seq<string>>, refused: set<nat>, index: nat, at: nat)
    ensures BulkCount(s, n, batches, Trouble(refused, {}), index, at).inserted == InsertedCount(s, n, Concat(batches), refused, at)
    decreases |batches|
  {
    if batches != [] {
      InsertedAppend(s, n, batches[0], Concat(batches[1..]), refused, at);
      BatchesCountTheList(InsertRows(s, n, batches[0], refused, at), n, batches[1..], refused, index + 1, at + |batches[0]|);
    }
  }

  lemma {:induction false} AllInsertedIff(s: Store, n: nat, users: seq<string>, refused: set<nat>, at: nat)
    requires forall i, j :: 0 <= i < j < |users| ==> users[i] != users[j]
    requires forall u :: u in users ==> (n, u) !in s.rows
    ensures InsertedCount(s, n, users, refused, at) == |users| <==> forall u :: u in users ==> IsWritten(users, refused, at, u)
    decreases |users|
  {
    if users != [] {
      var mid := if at in refused then s else InsertRow(s, n, users[0]);
      assert forall u :: u in users[1..] ==> u != users[0];
      AllInsertedIff(mid, n, users[1..], refused, at + 1);
      forall u | u in users ensures IsWritten(users, refused, at, u) <==>
        if u == users[0] then at !in refused else IsWritten(users[1..], refused, at + 1, u)
      {
        FirstOrLater(users, refused, at, u);
      }
      assert forall u :: u in users <==> u == users[0] || u in users[1..];
      assert users[0] in users;
    }
  }

  /** What is refused shows up in the count of failures, which is only logged: for different
      users, a new notification and no broken insert, the count is nought exactly when every
      user has a document that is not refused. */
  lemma FailuresAreCounted(s: Store, n: nat, users: seq<string>, refused: set<nat>)
    requires forall i, j :: 0 <= i < j < |users| ==> users[i] != users[j]
    requires forall u :: u in users ==> (n, u) !in s.rows
    ensures BulkCount(s, n, Batches(users), Trouble(refused, {}), 0, 0).failed == 0 <==>
      forall u :: u in users ==> IsWritten(users, refused, 0, u)
  {
    BatchesPartition(users);
    InsertedPlusFailed(s, n, Batches(users), Trouble(refused, {}), 0, 0);
    BatchesCountTheList(s, n, Batches(users), refused, 0, 0);
    AllInsertedIff(s, n, users, refused, 0);
  }

  /** ---- notifyUsernames ---- */

  /** What the push queue and the writes after it do. */
  datatype Push = SendFails | StampFails | StatusFails(now: int) | Pushed(now: int)

  datatype Outcome = Done | Threw

  function Stamp(s: Store, n: nat, now: int): Store {
    if n in s.notifications
    then s.(notifications := s.notifications[n := s.notifications[n].(lastPushSentAt := Some(now))]) else s
  }

  function SetStatus(s: Store, n: nat, users: set<string>, status: Status): Store {
    s.(rows := map k | k in s.rows :: if k.0 == n && k.1 in users then s.rows[k].(status := status) else s.rows[k])
  }

  /** The rows of some notifications. */
  function DeleteRowsOf(s: Store, ids: set<nat>): Store {
    s.(rows := map k | k in s.rows && k.0 !in ids :: s.rows[k])
  }

  function DeleteNotifications(s: Store, ids: set<nat>): Store {
    s.(notifications := s.notifications - ids)
  }

  predicate Refused(s: Store, n: Notification) {
    exists a :: a in s.notifications && SameSource(s.notifications[a], n)
  }

  function CreateWithRows(s: Store, users: seq<string>, n: Notification, refused: set<nat>): Store {
    var id := s.nextId;
    CreateRows(s.(notifications := s.notifications[id := n], nextId := id + 1), id, Batches(users), refused, 0)
  }

  function Rollback(s: Store, id: nat): Store {
    DeleteRowsOf(DeleteNotifications(s, {id}), {id})
  }

  function Notify(s: Store, users: seq<string>, dto: Option<Notification>, skipPush: bool, push: Push, trouble: Trouble): (Store, Outcome) {
    match dto
    case None => (s, if !skipPush && push.SendFails? then Threw else Done)
    case Some(n) =>
      if Refused(s, n) then (s, Threw)
      else
        var id, created := s.nextId, CreateWithRows(s, users, n, trouble.refused);
        if skipPush then (created, Done)
        else
          match push
          case SendFails => (Rollback(created, id), Threw)
          case StampFails => (Rollback(created, id), Threw)
          case StatusFails(now) => (Rollback(Stamp(created, id, now), id), Threw)
          case Pushed(now) => (SetStatus(Stamp(created, id, now), id, SetOf(users), Sent), Done)
  }

  lemma CreateWithRowsMeaning(s: Store, users: seq<string>, n: Notification, refused: set<nat>)
    requires FreshIds(s)
    ensures var (id, t) := (s.nextId, CreateWithRows(s, users, n, refused));
      && t.notifications == s.notifications[id := n] && t.nextId > s.nextId
      && (forall k :: k in s.rows ==> k in t.rows && t.rows[k] == s.rows[k])
      && (forall k :: k in t.rows && k !in s.rows ==>
           k.0 == id && k.1 in users && t.rows[k].id < t.nextId && !t.rows[k].read && t.rows[k].status == Pending)
      && (forall u :: (id, u) in t.rows <==> IsWritten(users, refused, 0, u))
  {
    var id := s.nextId;
    var made := s.(notifications := s.notifications[id := n], nextId := id + 1);
    BatchesPartition(users);
    BatchesInsertTheList(made, id, Batches(users), refused, 0);
    InsertRowsMeaning(made, id, users, refused, 0);
  }

  /** All or nothing: when `notifyUsernames` throws, at whatever point, and the deletes of its
      rollback succeed, both collections are as before. */
  lemma NotifyIsAllOrNothing(s: Store, users: seq<string>, dto: Option<Notification>, skipPush: bool, push: Push, trouble: Trouble)
    requires FreshIds(s)
    ensures var (t, outcome) := Notify(s, users, dto, skipPush, push, trouble);
      outcome.Threw? ==> t.notifications == s.notifications && t.rows == s.rows
  {
    if dto.Some? && !Refused(s, dto.value) {
      var id, created := s.nextId, CreateWithRows(s, users, dto.value, trouble.refused);
      CreateWithRowsMeaning(s, users, dto.value, trouble.refused);
      RollbackUndoes(s, created, id);
      if push.StatusFails? {
        RollbackUndoes(s, Stamp(created, id, push.now), id);
      }
    }
  }

  lemma RollbackUndoes(s: Store, created: Store, id: nat)
    requires FreshIds(s) && id == s.nextId
    requires created.notifications.Keys == s.notifications.Keys + {id}
    requires forall a :: a in s.notifications ==> created.notifications[a] == s.notifications[a]
    requires forall k :: k in s.rows ==> k in created.rows && created.rows[k] == s.rows[k]
    requires forall k :: k in created.rows && k !in s.rows ==> k.0 == id
    ensures Rollback(created, id).notifications == s.notifications && Rollback(created, id).rows == s.rows
  {
  }

  /** Exactly when it throws: the source is taken, or a push that is not skipped does not come to
      its end; without a notification to create, when the push is not sent. */
  lemma NotifyThrowsIff(s: Store, users: seq<string>, dto: Option<Notification>, skipPush: bool, push: Push, trouble: Trouble)
    ensures Notify(s, users, dto, skipPush, push, trouble).1 == Threw <==>
      if dto.Some? then IsTaken(s, dto.value) || (!skipPush && !push.Pushed?) else !skipPush && push.SendFails?
  {
  }

  /** A notification of the same source, which is not missing, is stored. */
  ghost predicate IsTaken(s: Store, n: Notification) {
    exists a :: a in s.notifications && n.sourceId.Some? && s.notifications[a].sourceId == n.sourceId &&
      s.notifications[a].sourceType == n.sourceType
  }

  /** What a creation that reports success has stored: the notification as given, stamped if it
      was pushed, and its rows, sent if it was pushed; nothing else has changed. */
  lemma NotifyStores(s: Store, users: seq<string>, n: Notification, skipPush: bool, push: Push, trouble: Trouble)
    requires FreshIds(s)
    ensures var (id, (t, outcome)) := (s.nextId, Notify(s, users, Some(n), skipPush, push, trouble));
      outcome.Done? ==>
        && t.notifications == s.notifications[id := if skipPush then n else n.(lastPushSentAt := Some(push.now))]
        && (forall k :: k in t.rows && k.0 == id ==> !t.rows[k].read && t.rows[k].status == if skipPush then Pending else Sent)
        && OtherRowsSame(s, t, id)
  {
    if !Refused(s, n) {
      CreateWithRowsMeaning(s, users, n, trouble.refused);
    }
  }

  /** Without a notification to create, nothing is stored. */
  lemma PushAloneStoresNothing(s: Store, users: seq<string>, skipPush: bool, push: Push, trouble: Trouble)
    ensures Notify(s, users, None, skipPush, push, trouble).0 == s
  {
  }

  /** Every user has a document that is not refused. */
  ghost predicate EveryoneIsWritten(users: seq<string>, refused: set<nat>) {
    forall u :: u in users ==> IsWritten(users, refused, 0, u)
  }

  /** A creation that reports success leaves exactly the users with a document that was not
      refused as recipients, all unread: exactly the given users if and only if every one of
      them has one. */
  lemma NotifyLeavesExactlyTheUsers(s: Store, users: seq<string>, n: Notification, skipPush: bool, push: Push, trouble: Trouble)
    requires FreshIds(s)
    ensures var (t, outcome) := Notify(s, users, Some(n), skipPush, push, trouble);
      outcome.Done? ==>
        && s.nextId in t.notifications && OtherRowsSame(s, t, s.nextId)
        && (forall u :: (s.nextId, u) in t.rows <==> IsWritten(users, trouble.refused, 0, u))
        && (ExactlyUnread(t, s.nextId, users) <==> EveryoneIsWritten(users, trouble.refused))
  {
    if !Refused(s, n) {
      CreateWithRowsMeaning(s, users, n, trouble.refused);
    }
  }

  /** So a refused document goes unreported: the call ends well without a row for its user. */
  lemma RefusedRecipientIsNotReported(n: Notification)
    requires HasSource(n)
    ensures var (t, outcome) := Upsert(Store(map[], map[], 0), None, ["u"], n, true, SendFails, 0, Trouble({0}, {}));
      outcome.Done? && 0 in t.notifications && (0, "u") !in t.rows
  {
    NotifyLeavesExactlyTheUsers(Store(map[], map[], 0), ["u"], n, true, SendFails, Trouble({0}, {}));
    assert !IsWritten(["u"], {0}, 0, "u");
  }

  /** The recipients of `n` are the users given, and none has read it. */
  ghost predicate ExactlyUnread(s: Store, n: nat, users: seq<string>) {
    && (forall u :: (n, u) in s.rows <==> u in users)
    && (forall k :: k in s.rows && k.0 == n ==> !s.rows[k].read)
  }

  /** The rows of all other notifications are the same. */
  ghost predicate OtherRowsSame(s: Store, t: Store, n: nat) {
    forall k: Key :: k.0 != n ==> (k in s.rows <==> k in t.rows) && (k in s.rows ==> t.rows[k] == s.rows[k])
  }

  /** ---- upsertNotificationForSource ---- */

  predicate ShouldSendPush(n: Notification, now: int) {
    n.lastPushSentAt.None? || now - n.lastPushSentAt.value >= SAME_SOURCE_PUSH_DEBOUNCE_MINUTES * 60 * 1000
  }

  function NotIn(users: seq<string>, s: Store, n: nat): (r: seq<string>)
    ensures forall u :: u in r <==> u in users && (n, u) !in s.rows
  {
    if users == [] then [] else (if (n, users[0]) in s.rows then [] else [users[0]]) + NotIn(users[1..], s, n)
  }

  function RemoveOthers(s: Store, n: nat, users: seq<string>): Store {
    s.(rows := map k | k in s.rows && (k.0 == n ==> k.1 in users) :: s.rows[k])
  }

  function ResetRead(s: Store, n: nat, users: set<string>): Store {
    s.(rows := map k | k in s.rows ::
      if k.0 == n && k.1 in users then s.rows[k].(read := false, status := Pending) else s.rows[k])
  }

  /** `syncUserNotifications`: remove, insert, reset.  A bulk write error is only logged; another
      error ends the call, whatever the insert has written. */
  function SyncRows(s: Store, n: nat, users: seq<string>, trouble: Trouble): (Store, Outcome) {
    var toAdd := NotIn(users, s, n);
    var toReset := set u | u in users && (n, u) in s.rows;
    var inserted := InsertRows(RemoveOthers(s, n, users), n, toAdd, trouble.refused, 0);
    if toAdd != [] && 0 in trouble.broken then (inserted, Threw) else (ResetRead(inserted, n, toReset), Done)
  }

  /** The user had a row, or has a document that is not refused. */
  ghost predicate HasRowOrIsWritten(s: Store, n: nat, users: seq<string>, refused: set<nat>, user: string) {
    (n, user) in s.rows || IsWritten(NotIn(users, s, n), refused, 0, user)
  }

  /** A synchronisation that reports success leaves, of the given users, exactly those as
      recipients who had a row or whose document was not refused, all unread, and touches no
      other notification's rows. */
  lemma SyncLeavesExactlyTheUsers(s: Store, n: nat, users: seq<string>, trouble: Trouble)
    ensures var (t, outcome) := SyncRows(s, n, users, trouble);
      && t.notifications == s.notifications && t.nextId >= s.nextId && OtherRowsSame(s, t, n)
      && (forall k :: k in t.rows ==> k in s.rows || (k.0 == n && t.rows[k].id < t.nextId))
      && (forall k :: k in t.rows && k in s.rows ==> t.rows[k].id == s.rows[k].id)
      && (outcome.Done? ==>
           && (forall u :: (n, u) in t.rows <==> u in users && HasRowOrIsWritten(s, n, users, trouble.refused, u))
           && (ExactlyUnread(t, n, users) <==> forall u :: u in users ==> HasRowOrIsWritten(s, n, users, trouble.refused, u)))
  {
    hide IsWritten, SyncRows, HasRowOrIsWritten, OtherRowsSame;
    SyncKeeps(s, n, users, trouble);
    SyncedRecipients(s, n, users, trouble);
    SyncedIsUnread(s, n, users, trouble);
  }

  lemma SyncKeeps(s: Store, n: nat, users: seq<string>, trouble: Trouble)
    ensures var t := SyncRows(s, n, users, trouble).0;
      && t.notifications == s.notifications && t.nextId >= s.nextId && OtherRowsSame(s, t, n)
      && (forall k :: k in t.rows ==> k in s.rows || (k.0 == n && t.rows[k].id < t.nextId))
      && (forall k :: k in t.rows && k in s.rows ==> t.rows[k].id == s.rows[k].id)
  {
    hide IsWritten;
    InsertRowsMeaning(RemoveOthers(s, n, users), n, NotIn(users, s, n), trouble.refused, 0);
  }

  lemma SyncedRecipients(s: Store, n: nat, users: seq<string>, trouble: Trouble)
    ensures forall u :: (n, u) in SyncRows(s, n, users, trouble).0.rows <==>
      u in users && HasRowOrIsWritten(s, n, users, trouble.refused, u)
  {
    hide IsWritten;
    var toAdd, removed := NotIn(users, s, n), RemoveOthers(s, n, users);
    var inserted := InsertRows(removed, n, toAdd, trouble.refused, 0);
    InsertRowsMeaning(removed, n, toAdd, trouble.refused, 0);
    forall u ensures (n, u) in inserted.rows <==> u in users && HasRowOrIsWritten(s, n, users, trouble.refused, u) {
      WrittenIsListed(toAdd, trouble.refused, u);
      assert (n, u) in removed.rows <==> (n, u) in s.rows && u in users;
    }
  }

  lemma WrittenIsListed(users: seq<string>, refused: set<nat>, user: string)
    ensures IsWritten(users, refused, 0, user) ==> user in users
  {
  }

  lemma SyncedIsUnread(s: Store, n: nat, users: seq<string>, trouble: Trouble)
    ensures var (t, outcome) := SyncRows(s, n, users, trouble);
      outcome.Done? ==> forall k :: k in t.rows && k.0 == n ==> !t.rows[k].read
  {
    hide IsWritten;
    InsertRowsMeaning(RemoveOthers(s, n, users), n, NotIn(users, s, n), trouble.refused, 0);
  }

  /** `updateExistingNotification` */
  function UpdateExisting(s: Store, n: nat, users: seq<string>, dto: Notification, skipPush: bool, push: Push, now: int, trouble: Trouble): (Store, Outcome)
    requires n in s.notifications
  {
    var existing := s.notifications[n];
    var (synced, outcome) := SyncRows(s.(notifications := s.notifications[n := existing.(content := dto.content)]), n, users, trouble);
    if outcome.Threw? || skipPush || !ShouldSendPush(existing, now) then (synced, outcome)
    else
      match push
      case SendFails => (synced, Threw)
      case StampFails => (synced, Threw)
      case StatusFails(at) => (Stamp(synced, n, at), Threw)
      case Pushed(at) => (SetStatus(Stamp(synced, n, at), n, SetOf(users), Sent), Done)
  }

  predicate HasSource(n: Notification) {
    n.sourceType.Some? && n.sourceType.value != "" && n.sourceId.Some? && n.sourceId.value != ""
  }

  /** `found` is what `findNotificationBySource` returns. */
  predicate FoundBySource(s: Store, n: Notification, found: Option<nat>) {
    match found
    case Some(a) => a in s.notifications && SameSource(s.notifications[a], n)
    case None => !Refused(s, n)
  }

  function Upsert(s: Store, found: Option<nat>, users: seq<string>, dto: Notification, skipPush: bool, push: Push, now: int, trouble: Trouble): (Store, Outcome)
    requires FoundBySource(s, dto, found)
  {
    if HasSource(dto) && found.Some? then UpdateExisting(s, found.value, users, dto, skipPush, push, now, trouble)
    else Notify(s, users, Some(dto), skipPush, push, trouble)
  }

  lemma UpdateLeavesExactlyTheUsers(s: Store, n: nat, users: seq<string>, dto: Notification, skipPush: bool, push: Push, now: int, trouble: Trouble)
    requires n in s.notifications
    ensures var (t, outcome) := UpdateExisting(s, n, users, dto, skipPush, push, now, trouble);
      outcome.Done? ==>
        && n in t.notifications && SameAfterUpdate(s.notifications[n], dto, t.notifications[n])
        && t.notifications.Keys == s.notifications.Keys
        && (forall a :: a in s.notifications && a != n ==> t.notifications[a] == s.notifications[a])
        && (ExactlyUnread(t, n, users) <==> forall u :: u in users ==> HasRowOrIsWritten(s, n, users, trouble.refused, u))
        && OtherRowsSame(s, t, n)
  {
    hide ExactlyUnread, HasRowOrIsWritten, SyncRows, OtherRowsSame;
    var mid := s.(notifications := s.notifications[n := s.notifications[n].(content := dto.content)]);
    SyncLeavesExactlyTheUsers(mid, n, users, trouble);
    forall u ensures HasRowOrIsWritten(s, n, users, trouble.refused, u) <==> HasRowOrIsWritten(mid, n, users, trouble.refused, u) {
      SameHasRow(s, mid, n, users, trouble.refused, u);
    }
    var synced, t := SyncRows(mid, n, users, trouble).0, UpdateExisting(s, n, users, dto, skipPush, push, now, trouble).0;
    if push.Pushed? {
      SentIsUnread(synced, Stamp(synced, n, push.now), n, users);
    }
    SameOthers(s, mid, synced, n);
  }

  lemma SameHasRow(s: Store, t: Store, n: nat, users: seq<string>, refused: set<nat>, user: string)
    requires s.rows == t.rows
    ensures HasRowOrIsWritten(s, n, users, refused, user) <==> HasRowOrIsWritten(t, n, users, refused, user)
  {
    SameNotIn(users, s, t, n);
  }

  lemma SameOthers(s: Store, mid: Store, synced: Store, n: nat)
    requires s.rows == mid.rows && OtherRowsSame(mid, synced, n)
    ensures OtherRowsSame(s, synced, n)
  {
  }

  /** Marking the rows of `n` as sent changes neither who has them nor whether they are read. */
  lemma SentIsUnread(s: Store, stamped: Store, n: nat, users: seq<string>)
    requires stamped.rows == s.rows
    ensures ExactlyUnread(SetStatus(stamped, n, SetOf(users), Sent), n, users) <==> ExactlyUnread(s, n, users)
    ensures forall t :: OtherRowsSame(t, s, n) ==> OtherRowsSame(t, SetStatus(stamped, n, SetOf(users), Sent), n)
  {
    SameRowsUnread(s, SetStatus(stamped, n, SetOf(users), Sent), n, users);
  }

  lemma SameRowsUnread(s: Store, t: Store, n: nat, users: seq<string>)
    requires (forall k :: k in t.rows <==> k in s.rows) && (forall k :: k in t.rows ==> t.rows[k].read == s.rows[k].read)
    ensures ExactlyUnread(t, n, users) <==> ExactlyUnread(s, n, users)
  {
  }

  lemma {:induction false} SameNotIn(users: seq<string>, s: Store, t: Store, n: nat)
    requires s.rows == t.rows
    ensures NotIn(users, s, n) == NotIn(users, t, n)
  {
    if users != [] {
      SameNotIn(users[1..], s, t, n);
    }
  }

  /** Only the content, and perhaps the time of the last push, are new. */
  ghost predicate SameAfterUpdate(existing: Notification, dto: Notification, updated: Notification) {
    updated == existing.(content := dto.content, lastPushSentAt := updated.lastPushSentAt)
  }

  /** Of its insert an update reports exactly the errors that are not bulk write errors. */
  lemma UpdateThrowsIffBroken(s: Store, n: nat, users: seq<string>, dto: Notification, push: Push, now: int, trouble: Trouble)
    requires n in s.notifications
    ensures UpdateExisting(s, n, users, dto, true, push, now, trouble).1 == Threw <==>
      0 in trouble.broken && exists u :: u in users && (n, u) !in s.rows
  {
    var mid := s.(notifications := s.notifications[n := s.notifications[n].(content := dto.content)]);
    var toAdd := NotIn(users, mid, n);
    assert toAdd != [] ==> toAdd[0] in toAdd;
    if u :| u in users && (n, u) !in s.rows {
      assert u in toAdd;
    }
  }

  /** A push is due: none was sent, or the last one was sent thirty minutes ago or earlier. */
  ghost predicate IsDue(n: Notification, now: int) {
    n.lastPushSentAt.Some? ==> n.lastPushSentAt.value + 1800000 <= now
  }

  /** Exactly when an update throws: its insert breaks, or a push that is due and not skipped does
      not come to its end.  A push that is not due is not tried. */
  lemma UpdateThrowsIff(s: Store, n: nat, users: seq<string>, dto: Notification, skipPush: bool, push: Push, now: int, trouble: Trouble)
    requires n in s.notifications
    ensures UpdateExisting(s, n, users, dto, skipPush, push, now, trouble).1 == Threw <==>
      || (0 in trouble.broken && exists u :: u in users && (n, u) !in s.rows)
      || (!skipPush && IsDue(s.notifications[n], now) && !push.Pushed?)
  {
    UpdateThrowsIffBroken(s, n, users, dto, push, now, trouble);
    var mid := s.(notifications := s.notifications[n := s.notifications[n].(content := dto.content)]);
    assert UpdateExisting(s, n, users, dto, true, push, now, trouble).1 == SyncRows(mid, n, users, trouble).1;
  }

  /** What an update that reports success has stored: the new content, and nothing else of the
      notification but the stamp of a push that was due; its rows are all sent then, and all
      pending otherwise. */
  lemma UpdateStores(s: Store, n: nat, users: seq<string>, dto: Notification, skipPush: bool, push: Push, now: int, trouble: Trouble)
    requires n in s.notifications
    ensures var (t, outcome) := UpdateExisting(s, n, users, dto, skipPush, push, now, trouble);
      outcome.Done? ==>
        var pushed := !skipPush && IsDue(s.notifications[n], now);
        && t.notifications == s.notifications[n := s.notifications[n].(
             content := dto.content, lastPushSentAt := if pushed then Some(push.now) else s.notifications[n].lastPushSentAt)]
        && (forall k :: k in t.rows && k.0 == n ==> !t.rows[k].read && t.rows[k].status == if pushed then Sent else Pending)
        && OtherRowsSame(s, t, n)
  {
    hide InsertRows, IsWritten, NotIn;
    var mid := s.(notifications := s.notifications[n := s.notifications[n].(content := dto.content)]);
    SyncedArePending(mid, n, users, trouble);
    SyncKeeps(mid, n, users, trouble);
    var synced := SyncRows(mid, n, users, trouble).0;
    assert OtherRowsSame(s, synced, n);
    if push.Pushed? && SyncRows(mid, n, users, trouble).1.Done? {
      PushedRows(synced, n, users, push.now);
    }
  }

  /** A notification with a source type and a source id, both not empty, that is found is
      brought up to date, and none is added; every other one that is stored is a new one. */
  lemma UpsertStoresOne(s: Store, found: Option<nat>, users: seq<string>, dto: Notification, skipPush: bool, push: Push, now: int, trouble: Trouble)
    requires FreshIds(s) && FoundBySource(s, dto, found)
    ensures var (t, outcome) := Upsert(s, found, users, dto, skipPush, push, now, trouble);
      if found.Some? && dto.sourceType !in {None, Some("")} && dto.sourceId !in {None, Some("")}
      then t.notifications.Keys == s.notifications.Keys && (outcome.Done? ==> t.notifications[found.value].content == dto.content)
      else
        && (outcome.Done? ==> t.notifications.Keys == s.notifications.Keys + {s.nextId} && s.nextId !in s.notifications)
        && (outcome.Threw? ==> t.notifications == s.notifications)
  {
    if found.Some? && HasSource(dto) {
      UpdateStores(s, found.value, users, dto, skipPush, push, now, trouble);
      UpdateKeepsKeys(s, found.value, users, dto, skipPush, push, now, trouble);
    } else {
      NotifyStores(s, users, dto, skipPush, push, trouble);
      NotifyIsAllOrNothing(s, users, Some(dto), skipPush, push, trouble);
    }
  }

  lemma UpdateKeepsKeys(s: Store, n: nat, users: seq<string>, dto: Notification, skipPush: bool, push: Push, now: int, trouble: Trouble)
    requires n in s.notifications
    ensures UpdateExisting(s, n, users, dto, skipPush, push, now, trouble).0.notifications.Keys == s.notifications.Keys
  {
    hide InsertRows, NotIn, ResetRead;
    var mid := s.(notifications := s.notifications[n := s.notifications[n].(content := dto.content)]);
    SyncKeeps(mid, n, users, trouble);
  }

  lemma SyncedArePending(s: Store, n: nat, users: seq<string>, trouble: Trouble)
    ensures var (t, outcome) := SyncRows(s, n, users, trouble);
      outcome.Done? ==> forall k :: k in t.rows && k.0 == n ==> k.1 in users && !t.rows[k].read && t.rows[k].status == Pending
  {
    hide IsWritten;
    InsertRowsMeaning(RemoveOthers(s, n, users), n, NotIn(users, s, n), trouble.refused, 0);
  }

  lemma PushedRows(s: Store, n: nat, users: seq<string>, now: int)
    requires forall k :: k in s.rows && k.0 == n ==> k.1 in users && !s.rows[k].read
    ensures var t := SetStatus(Stamp(s, n, now), n, SetOf(users), Sent);
      && (forall k :: k in t.rows && k.0 == n ==> !t.rows[k].read && t.rows[k].status == Sent)
      && OtherRowsSame(s, t, n)
  {
  }

  /** So an update, too, can end well without a row for one of its users. */
  lemma RefusedUpdateIsNotReported(n: Notification)
    requires HasSource(n)
    ensures var s := Store(map[0 := n], map[], 1);
      && Inv(s) && FoundBySource(s, n, Some(0))
      && var (t, outcome) := Upsert(s, Some(0), ["u"], n, true, SendFails, 0, Trouble({0}, {}));
         outcome.Done? && (0, "u") !in t.rows
  {
    var s := Store(map[0 := n], map[], 1);
    SyncLeavesExactlyTheUsers(s, 0, ["u"], Trouble({0}, {}));
    var mid := s.(notifications := s.notifications[0 := s.notifications[0].(content := n.content)]);
    assert mid == s by { assert mid.notifications == s.notifications; }
    assert NotIn(["u"], s, 0) == ["u"] by { assert ["u"][1..] == []; }
    assert !IsWritten(["u"], {0}, 0, "u");
  }

  /** Every user has a row or a document that is not refused. */
  ghost predicate NobodyRefused(s: Store, found: Option<nat>, users: seq<string>, refused: set<nat>) {
    if found.Some? then forall u :: u in users ==> HasRowOrIsWritten(s, found.value, users, refused, u)
    else EveryoneIsWritten(users, refused)
  }

  /** After an upsert for a source that reports success there is exactly one notification of
      that source, and it has the new content.  Its recipients are exactly the given users, all
      unread, if and only if every user had a row or a document that was not refused. */
  lemma UpsertLeavesExactlyTheUsers(s: Store, found: Option<nat>, users: seq<string>, dto: Notification, skipPush: bool, push: Push, now: int, trouble: Trouble)
    requires OnePerSource(s) && FreshIds(s) && HasSource(dto) && FoundBySource(s, dto, found)
    ensures var (t, outcome) := Upsert(s, found, users, dto, skipPush, push, now, trouble);
      outcome.Done? ==>
        var n := if found.Some? then found.value else s.nextId;
        && n in t.notifications && SameSource(t.notifications[n], dto) && t.notifications[n].content == dto.content
        && (forall a :: a in t.notifications && SameSource(t.notifications[a], dto) ==> a == n)
        && (ExactlyUnread(t, n, users) <==> NobodyRefused(s, found, users, trouble.refused)) && OtherRowsSame(s, t, n)
        && (forall a :: a in s.notifications && a != n ==> a in t.notifications && t.notifications[a] == s.notifications[a])
  {
    hide ExactlyUnread, EveryoneIsWritten, HasRowOrIsWritten;
    if found.Some? {
      UpdateLeavesExactlyTheUsers(s, found.value, users, dto, skipPush, push, now, trouble);
    } else {
      NotifyLeavesExactlyTheUsers(s, users, dto, skipPush, push, trouble);
      CreateWithRowsMeaning(s, users, dto, trouble.refused);
    }
  }

  /** ---- the delete paths ---- */

  predicate HasRows(s: Store, n: nat) {
    exists k :: k in s.rows && k.0 == n
  }

  /** `cleanupOrphanedNotifications` */
  function CleanupOrphaned(s: Store, ids: set<nat>): Store {
    DeleteNotifications(s, set n | n in ids && !HasRows(s, n))
  }

  function DeleteRows(s: Store, keys: set<Key>): Store {
    s.(rows := s.rows - keys)
  }

  function NotificationsOf(keys: set<Key>): set<nat> {
    set k | k in keys :: k.0
  }

  datatype Filter = All | SentByUser | OfKind(kind: string)

  /** The rows a user deletes at once; one kind is found through the notifications. */
  function Selected(s: Store, user: string, filter: Filter): set<Key> {
    match filter
    case All => set k | k in s.rows && k.1 == user
    case OfKind(kind) => set k | k in s.rows && k.1 == user && k.0 in s.notifications && s.notifications[k.0].kind == kind
    case SentByUser => {}
  }

  function SentBy(s: Store, user: string): set<nat> {
    set n | n in s.notifications && s.notifications[n].createdBy == user
  }

  /** Rows first, then the notifications of those rows that nobody has any more. */
  function DeleteForUser(s: Store, keys: set<Key>): Store {
    CleanupOrphaned(DeleteRows(s, keys), NotificationsOf(keys))
  }

  function DeleteWhole(s: Store, ids: set<nat>): Store {
    DeleteNotifications(DeleteRowsOf(s, ids), ids)
  }

  function DeleteAll(s: Store, user: string, filter: Filter): Store {
    if filter.SentByUser? then DeleteWhole(s, SentBy(s, user)) else DeleteForUser(s, Selected(s, user, filter))
  }

  function ElementsOf<T>(o: Option<T>): set<T> {
    if o.Some? then {o.value} else {}
  }

  /** `found` is the row that `findOne` returns for a row id and a user. */
  predicate FoundRow(s: Store, id: nat, user: string, found: Option<Key>) {
    match found
    case Some(k) => k in s.rows && k.1 == user && s.rows[k].id == id
    case None => forall k :: k in s.rows && k.1 == user ==> s.rows[k].id != id
  }

  /** `found` is what `findOne` returns for a source id alone. */
  predicate FoundBySourceId(s: Store, sourceId: string, found: Option<nat>) {
    match found
    case Some(n) => n in s.notifications && s.notifications[n].sourceId == Some(sourceId)
    case None => forall n :: n in s.notifications ==> s.notifications[n].sourceId != Some(sourceId)
  }

  ghost predicate SourceIdIsUnique(s: Store, sourceId: string) {
    forall a, b :: (
      a in s.notifications && b in s.notifications &&
      s.notifications[a].sourceId == Some(sourceId) && s.notifications[b].sourceId == Some(sourceId)) ==> a == b
  }

  /** A user-side delete takes exactly the chosen rows, and removes a notification exactly
      when its last recipient goes. */
  lemma UserDeleteRemovesWithTheLastRecipient(s: Store, keys: set<Key>, n: nat)
    requires keys <= s.rows.Keys
    ensures var t := DeleteForUser(s, keys);
      && t.rows == s.rows - keys
      && (n in s.notifications ==> (n !in t.notifications <==> HasRows(s, n) && !HasRows(t, n)))
      && (n in t.notifications ==> n in s.notifications && t.notifications[n] == s.notifications[n])
  {
    var mid := DeleteRows(s, keys);
    assert HasRows(DeleteForUser(s, keys), n) == HasRows(mid, n);
    if n in NotificationsOf(keys) {
      var k :| k in keys && k.0 == n;
      assert k in s.rows;
    } else {
      assert forall k :: k in s.rows && k.0 == n ==> k in mid.rows;
      assert forall k :: k in mid.rows ==> k in s.rows;
    }
  }

  /** Deleting by source id takes one notification and its rows; none with that id is left
      exactly when there was at most one.  Two source types may share a source id, and then
      one stays. */
  lemma CascadeRemovesAllIffUnique(s: Store, sourceId: string, found: Option<nat>)
    requires FoundBySourceId(s, sourceId, found)
    ensures var t := DeleteWhole(s, ElementsOf(found));
      && t.notifications.Keys == s.notifications.Keys - ElementsOf(found)
      && (forall k :: k in t.rows <==> k in s.rows && k.0 !in ElementsOf(found))
      && (FoundBySourceId(t, sourceId, None) <==> SourceIdIsUnique(s, sourceId))
  {
    var t := DeleteWhole(s, ElementsOf(found));
    if found.Some? && SourceIdIsUnique(s, sourceId) {
      forall n | n in t.notifications
        ensures t.notifications[n].sourceId != Some(sourceId)
      {
        assert n in s.notifications && n != found.value;
      }
    } else if found.Some? {
      var a, b :| && a in s.notifications && b in s.notifications && a != b
                  && s.notifications[a].sourceId == Some(sourceId) && s.notifications[b].sourceId == Some(sourceId);
      assert a in t.notifications || b in t.notifications;
    }
  }

  lemma CascadeCanLeaveOne(one: Notification, other: Notification)
    requires one.sourceId == other.sourceId && one.sourceId.Some? && one.sourceType != other.sourceType
    ensures var s := Store(map[0 := one, 1 := other], map[], 2);
      && Inv(s) && FoundBySourceId(s, one.sourceId.value, Some(0))
      && !FoundBySourceId(DeleteWhole(s, {0}), one.sourceId.value, None)
  {
    var t := DeleteWhole(Store(map[0 := one, 1 := other], map[], 2), {0});
    assert 1 in t.notifications;
  }

  /** ---- reading, expiry and the nightly job ---- */

  function MarkRead(s: Store, id: nat, user: string): Store {
    s.(rows := map k | k in s.rows :: if k.1 == user && s.rows[k].id == id then s.rows[k].(read := true) else s.rows[k])
  }

  function Unread(s: Store, user: string): set<Key> {
    set k | k in s.rows && k.1 == user && !s.rows[k].read
  }

  function MarkAllRead(s: Store, user: string): Store {
    s.(rows := map k | k in s.rows :: if k.1 == user then s.rows[k].(read := true) else s.rows[k])
  }

  function Dangling(s: Store): set<Key> {
    set k | k in s.rows && k.0 !in s.notifications
  }

  /** `cleanupOrphanedUserNotifications` */
  function Cron(s: Store): Store {
    DeleteRows(s, Dangling(s))
  }

  /** ---- runs ---- */

  /** `Expire` is the store's own removal of outdated notifications; it knows no rows. */
  datatype Op =
    | NotifyUsernames(users: seq<string>, dto: Option<Notification>, skipPush: bool, push: Push, trouble: Trouble)
    | UpsertForSource(users: seq<string>, source: Notification, skipPush: bool, push: Push, now: int, trouble: Trouble, hit: Option<nat>)
    | MarkAsRead(id: nat, user: string)
    | MarkAllAsRead(user: string)
    | DeleteUserNotification(id: nat, user: string, row: Option<Key>)
    | DeleteSentNotification(n: nat, user: string)
    | DeleteAllUserNotifications(user: string, filter: Filter)
    | CascadeDelete(sourceId: string, found: Option<nat>)
    | CleanupRows
    | Expire(ids: set<nat>)

  /** What a look-up inside the operation may return. */
  predicate Enabled(s: Store, op: Op) {
    match op
    case UpsertForSource(_, source, _, _, _, _, found) => FoundBySource(s, source, found)
    case DeleteUserNotification(id, user, row) => FoundRow(s, id, user, row)
    case CascadeDelete(sourceId, found) => FoundBySourceId(s, sourceId, found)
    case _ => true
  }

  function Apply(s: Store, op: Op): Store
    requires Enabled(s, op)
  {
    match op
    case NotifyUsernames(users, dto, skipPush, push, trouble) => Notify(s, users, dto, skipPush, push, trouble).0
    case UpsertForSource(users, source, skipPush, push, now, trouble, found) =>
      Upsert(s, found, users, source, skipPush, push, now, trouble).0
    case MarkAsRead(id, user) => MarkRead(s, id, user)
    case MarkAllAsRead(user) => MarkAllRead(s, user)
    case DeleteUserNotification(_, _, row) => DeleteForUser(s, ElementsOf(row))
    case DeleteSentNotification(n, user) => if n in SentBy(s, user) then DeleteWhole(s, {n}) else s
    case DeleteAllUserNotifications(user, filter) => DeleteAll(s, user, filter)
    case CascadeDelete(_, found) => DeleteWhole(s, ElementsOf(found))
    case CleanupRows => Cron(s)
    case Expire(ids) => DeleteNotifications(s, ids)
  }

  /** A sent notification goes, with the rows of everybody, exactly for the user who created it;
      for anybody else nothing changes. */
  lemma OnlyTheCreatorDeletes(s: Store, n: nat, user: string)
    ensures var (t, own) := (Apply(s, DeleteSentNotification(n, user)), n in s.notifications && s.notifications[n].createdBy == user);
      && t.notifications == (if own then s.notifications - {n} else s.notifications)
      && (forall k :: k in t.rows <==> k in s.rows && !(own && k.0 == n))
      && (forall k :: k in t.rows ==> t.rows[k] == s.rows[k])
  {
  }

  /** Every request can be answered: each look-up has a result. */
  lemma EveryLookUpHasAResult(s: Store, dto: Notification, id: nat, user: string, sourceId: string)
    ensures exists found :: FoundBySource(s, dto, found)
    ensures exists row :: FoundRow(s, id, user, row)
    ensures exists found :: FoundBySourceId(s, sourceId, found)
    ensures forall op: Op :: !op.UpsertForSource? && !op.DeleteUserNotification? && !op.CascadeDelete? ==> Enabled(s, op)
    ensures forall row :: FoundRow(s, id, user, row) ==> Enabled(s, DeleteUserNotification(id, user, row))
    ensures forall found :: FoundBySourceId(s, sourceId, found) ==> Enabled(s, CascadeDelete(sourceId, found))
  {
    var found: Option<nat> := if a :| a in s.notifications && SameSource(s.notifications[a], dto) then Some(a) else None;
    assert FoundBySource(s, dto, found);
    var row: Option<Key> := if k :| k in s.rows && k.1 == user && s.rows[k].id == id then Some(k) else None;
    assert FoundRow(s, id, user, row);
    var first: Option<nat> := if n :| n in s.notifications && s.notifications[n].sourceId == Some(sourceId) then Some(n) else None;
    assert FoundBySourceId(s, sourceId, first);
  }

  ghost predicate CanRun(s: Store, ops: seq<Op>)
    decreases |ops|
  {
    ops != [] ==> Enabled(s, ops[0]) && CanRun(Apply(s, ops[0]), ops[1..])
  }

  ghost function Run(s: Store, ops: seq<Op>): Store
    requires CanRun(s, ops)
    decreases |ops|
  {
    if ops == [] then s else Run(Apply(s, ops[0]), ops[1..])
  }

  /** ---- the debounce ---- */

  /** The operation stamps the notification: it updates it, gets past its insert, and a push is
      due and sent. */
  ghost predicate Stamps(s: Store, op: Op, n: nat) {
    && op.UpsertForSource? && HasSource(op.source) && op.hit == Some(n) && n in s.notifications
    && !(0 in op.trouble.broken && exists u :: u in op.users && (n, u) !in s.rows)
    && !op.skipPush && IsDue(s.notifications[n], op.now) && (op.push.StatusFails? || op.push.Pushed?)
  }

  /** The stamp of a notification that stays is the time of the last push that stamped it. */
  lemma StampIsTheLastPush(s: Store, op: Op, n: nat)
    requires FreshIds(s) && Enabled(s, op) && n in s.notifications && n in Apply(s, op).notifications
    ensures Apply(s, op).notifications[n].lastPushSentAt ==
      if Stamps(s, op, n) then Some(op.push.now) else s.notifications[n].lastPushSentAt
  {
    match op
    case NotifyUsernames(users, dto, skipPush, push, trouble) => NotifyKeepsStamps(s, users, dto, skipPush, push, trouble, n);
    case UpsertForSource(users, source, skipPush, push, now, trouble, found) =>
      if HasSource(source) && found.Some? {
        UpdateKeepsStamps(s, found.value, users, source, skipPush, push, now, trouble, n);
      } else {
        NotifyKeepsStamps(s, users, Some(source), skipPush, push, trouble, n);
      }
    case _ =>
  }

  lemma NotifyKeepsStamps(s: Store, users: seq<string>, dto: Option<Notification>, skipPush: bool, push: Push, trouble: Trouble, n: nat)
    requires FreshIds(s) && n in s.notifications
    ensures var t := Notify(s, users, dto, skipPush, push, trouble).0;
      n in t.notifications && t.notifications[n] == s.notifications[n]
  {
    NotifyIsAllOrNothing(s, users, dto, skipPush, push, trouble);
    if dto.Some? {
      NotifyStores(s, users, dto.value, skipPush, push, trouble);
    } else {
      PushAloneStoresNothing(s, users, skipPush, push, trouble);
    }
  }

  lemma UpdateKeepsStamps(s: Store, m: nat, users: seq<string>, dto: Notification, skipPush: bool, push: Push, now: int, trouble: Trouble, n: nat)
    requires m in s.notifications && n in s.notifications
    ensures var t := UpdateExisting(s, m, users, dto, skipPush, push, now, trouble).0;
      n in t.notifications && t.notifications[n].lastPushSentAt ==
        if n == m && !skipPush && IsDue(s.notifications[m], now) && (push.StatusFails? || push.Pushed?) &&
           !(0 in trouble.broken && exists u :: u in users && (m, u) !in s.rows)
        then Some(push.now) else s.notifications[n].lastPushSentAt
  {
    hide InsertRows, IsWritten, SyncRows;
    var mid := s.(notifications := s.notifications[m := s.notifications[m].(content := dto.content)]);
    SyncKeeps(mid, m, users, trouble);
    UpdateThrowsIff(s, m, users, dto, true, push, now, trouble);
  }

  ghost predicate NeverStamped(s: Store, ops: seq<Op>, n: nat)
    requires CanRun(s, ops)
    decreases |ops|
  {
    ops != [] ==> n in Apply(s, ops[0]).notifications && !Stamps(s, ops[0], n) && NeverStamped(Apply(s, ops[0]), ops[1..], n)
  }

  /** After a push at time `at`, whatever happens meanwhile short of another one that is stamped:
      an update that is not to skip its push tries one exactly from thirty minutes later on, and
      before that ends well however the push would have gone. */
  lemma {:induction false} PushesAreApart(s: Store, ops: seq<Op>, n: nat, at: int, users: seq<string>, dto: Notification, push: Push, now: int)
    requires Kept(s) && CanRun(s, ops) && n in s.notifications && s.notifications[n].lastPushSentAt == Some(at)
    requires NeverStamped(s, ops, n) && !push.Pushed?
    ensures n in Run(s, ops).notifications
    ensures UpdateExisting(Run(s, ops), n, users, dto, false, push, now, Trouble({}, {})).1 == Threw <==> now - at >= 1800000
    decreases |ops|
  {
    if ops == [] {
      UpdateThrowsIff(s, n, users, dto, false, push, now, Trouble({}, {}));
    } else {
      StampIsTheLastPush(s, ops[0], n);
      StepInv(s, ops[0]);
      PushesAreApart(Apply(s, ops[0]), ops[1..], n, at, users, dto, push, now);
    }
  }

  /** A push whose stamp fails is not remembered: the next update pushes again at once. */
  lemma UnstampedPushIsRepeated(s: Store, n: nat, users: seq<string>, dto: Notification, now: int, later: int, push: Push)
    requires FreshIds(s) && n in s.notifications && IsDue(s.notifications[n], now) && now <= later && !push.Pushed?
    ensures var (t, outcome) := UpdateExisting(s, n, users, dto, false, StampFails, now, Trouble({}, {}));
      outcome == Threw && n in t.notifications &&
      UpdateExisting(t, n, users, dto, false, push, later, Trouble({}, {})).1 == Threw
  {
    UpdateThrowsIff(s, n, users, dto, false, StampFails, now, Trouble({}, {}));
    UpdateKeepsStamps(s, n, users, dto, false, StampFails, now, Trouble({}, {}), n);
    var t := UpdateExisting(s, n, users, dto, false, StampFails, now, Trouble({}, {})).0;
    UpdateThrowsIff(t, n, users, dto, false, push, later, Trouble({}, {}));
  }

  /** ---- whose rows ---- */

  /** Reading marks rows of that user only: the one with the id, or all of them.  Nothing else
      of a row changes, and no row comes or goes. */
  lemma ReadingMarksOwnRows(s: Store, id: nat, user: string)
    ensures var t := MarkRead(s, id, user);
      && t.notifications == s.notifications && t.rows.Keys == s.rows.Keys
      && (forall k :: k in s.rows ==> t.rows[k] == s.rows[k].(read := t.rows[k].read))
      && (forall k :: k in s.rows ==> (t.rows[k].read <==> s.rows[k].read || (k.1 == user && s.rows[k].id == id)))
    ensures var t := MarkAllRead(s, user);
      && t.notifications == s.notifications && t.rows.Keys == s.rows.Keys
      && (forall k :: k in s.rows ==> t.rows[k] == s.rows[k].(read := t.rows[k].read))
      && (forall k :: k in s.rows ==> (t.rows[k].read <==> s.rows[k].read || k.1 == user))
    ensures forall k :: k in Unread(s, user) <==> k in s.rows && MarkAllRead(s, user).rows[k] != s.rows[k]
  {
  }

  /** A user's deletion of a row or of rows takes rows of that user only: the one with the id,
      all of them, or those of notifications of one kind. */
  lemma DeletingTakesOwnRows(s: Store, user: string, kind: string, id: nat, row: Option<Key>)
    requires FoundRow(s, id, user, row)
    ensures var t := DeleteForUser(s, ElementsOf(row));
      && (forall k :: k in t.rows ==> k in s.rows && t.rows[k] == s.rows[k])
      && (forall k :: k in s.rows && k !in t.rows ==> k.1 == user && s.rows[k].id == id)
      && ((exists k :: k in s.rows && k.1 == user && s.rows[k].id == id) ==> row.Some? && row.value !in t.rows)
    ensures forall k :: k in DeleteAll(s, user, All).rows <==> k in s.rows && k.1 != user
    ensures forall k :: k in DeleteAll(s, user, OfKind(kind)).rows <==>
      k in s.rows && !(k.1 == user && k.0 in s.notifications && s.notifications[k.0].kind == kind)
  {
  }

  /** Deleting what a user has sent takes exactly the notifications that the user created, with
      the rows of everybody. */
  lemma DeletingSentTakesOwnNotifications(s: Store, user: string)
    ensures var t := DeleteAll(s, user, SentByUser);
      && (forall n :: n in t.notifications <==> n in s.notifications && s.notifications[n].createdBy != user)
      && (forall k :: k in t.rows <==> k in s.rows && !(k.0 in s.notifications && s.notifications[k.0].createdBy == user))
  {
  }

  /** The part of the invariant that expiry keeps too. */
  ghost predicate Kept(s: Store) {
    OnePerSource(s) && FreshIds(s)
  }

  lemma NotifyKeeps(s: Store, users: seq<string>, dto: Option<Notification>, skipPush: bool, push: Push, trouble: Trouble)
    requires Kept(s)
    ensures var t := Notify(s, users, dto, skipPush, push, trouble).0; Kept(t) && (NoDangling(s) ==> NoDangling(t))
  {
    NotifyIsAllOrNothing(s, users, dto, skipPush, push, trouble);
    if dto.Some? && !Refused(s, dto.value) {
      CreateWithRowsMeaning(s, users, dto.value, trouble.refused);
    }
  }

  lemma UpdateKeeps(s: Store, n: nat, users: seq<string>, dto: Notification, skipPush: bool, push: Push, now: int, trouble: Trouble)
    requires Kept(s) && n in s.notifications
    ensures var t := UpdateExisting(s, n, users, dto, skipPush, push, now, trouble).0; Kept(t) && (NoDangling(s) ==> NoDangling(t))
  {
    var mid := s.(notifications := s.notifications[n := s.notifications[n].(content := dto.content)]);
    SyncLeavesExactlyTheUsers(mid, n, users, trouble);
  }

  /** Every operation keeps one notification per source and one row per notification and user;
      every operation but expiry also keeps every row attached to its notification. */
  lemma StepInv(s: Store, op: Op)
    requires Kept(s) && Enabled(s, op)
    ensures var t := Apply(s, op); Kept(t) && (NoDangling(s) && !op.Expire? ==> NoDangling(t))
  {
    match op
    case NotifyUsernames(users, dto, skipPush, push, trouble) => NotifyKeeps(s, users, dto, skipPush, push, trouble);
    case UpsertForSource(users, source, skipPush, push, now, trouble, found) =>
      if HasSource(source) && found.Some? {
        UpdateKeeps(s, found.value, users, source, skipPush, push, now, trouble);
      } else {
        NotifyKeeps(s, users, Some(source), skipPush, push, trouble);
      }
    case DeleteUserNotification(_, _, row) => UserDeleteKeeps(s, ElementsOf(row));
    case DeleteAllUserNotifications(user, filter) =>
      if !filter.SentByUser? {
        UserDeleteKeeps(s, Selected(s, user, filter));
      }
    case _ =>
  }

  lemma UserDeleteKeeps(s: Store, keys: set<Key>)
    requires Kept(s)
    ensures var t := DeleteForUser(s, keys); Kept(t) && (NoDangling(s) ==> NoDangling(t))
  {
    var mid := DeleteRows(s, keys);
    forall k | k in mid.rows
      ensures HasRows(mid, k.0)
    {
    }
  }

  lemma {:induction false} RunInv(s: Store, ops: seq<Op>)
    requires Kept(s) && CanRun(s, ops)
    ensures Kept(Run(s, ops))
    ensures NoDangling(s) && (forall i :: 0 <= i < |ops| ==> !ops[i].Expire?) ==> NoDangling(Run(s, ops))
    decreases |ops|
  {
    if ops != [] {
      StepInv(s, ops[0]);
      RunInv(Apply(s, ops[0]), ops[1..]);
    }
  }

  /** After any run, expiry included, the nightly job restores the whole invariant: it keeps
      every notification and deletes exactly the rows whose notification is gone. */
  lemma CronRestoresTheInvariant(s: Store, ops: seq<Op>)
    requires Inv(s) && CanRun(s, ops)
    ensures var before, after := Run(s, ops), Cron(Run(s, ops));
      && Inv(after) && after.notifications == before.notifications
      && (forall k :: k in before.rows ==>
           (k in after.rows <==> k.0 in before.notifications) && (k in after.rows ==> after.rows[k] == before.rows[k]))
  {
    RunInv(s, ops);
  }

  /** ---- the service ---- */

  /** How many batches `createUserNotifications` makes, and which names are in each. */
  function BatchCount(length: nat): nat {
    (length + BULK_INSERT_BATCH_SIZE - 1) / BULK_INSERT_BATCH_SIZE
  }

  /** `slice` with its ends cut to the length. */
  function Batch(users: seq<string>, index: nat): seq<string> {
    var from, to := index * BULK_INSERT_BATCH_SIZE, (index + 1) * BULK_INSERT_BATCH_SIZE;
    if from >= |users| then [] else users[from..if to <= |users| then to else |users|]
  }

  /** The slices are the batches. */
  lemma {:induction false} SlicesAreBatches(users: seq<string>, index: nat)
    ensures |Batches(users)| == BatchCount(|users|)
    ensures index < |Batches(users)| ==> Batches(users)[index] == Batch(users, index)
    decreases |users|
  {
    if |users| > BULK_INSERT_BATCH_SIZE {
      var rest := users[BULK_INSERT_BATCH_SIZE..];
      SlicesAreBatches(rest, if index == 0 then 0 else index - 1);
      if 0 < index < |Batches(users)| {
        assert Batches(users)[index] == Batches(rest)[index - 1];
        SliceOfRest(users, index);
      }
    }
  }

  lemma BatchEnds(users: seq<string>, index: nat)
    ensures var from := 500 * index;
      Batch(users, index) == if from >= |users| then [] else users[from..if from + 500 <= |users| then from + 500 else |users|]
  {
    assert index * BULK_INSERT_BATCH_SIZE == 500 * index;
    assert (index + 1) * BULK_INSERT_BATCH_SIZE == 500 * index + 500;
  }

  lemma SliceOfRest(users: seq<string>, index: nat)
    requires |users| > BULK_INSERT_BATCH_SIZE && index > 0
    ensures Batch(users[BULK_INSERT_BATCH_SIZE..], index - 1) == Batch(users, index)
  {
    hide Batch;
    var rest, from := users[500..], 500 * index;
    BatchEnds(users, index);
    BatchEnds(rest, index - 1);
    if from < |users| {
      var to := if from + 500 <= |users| then from + 500 else |users|;
      assert rest[from - 500..to - 500] == users[from..to];
    }
  }

  lemma NextBatch(s: Store, n: nat, all: seq<seq<string>>, trouble: Trouble, index: nat, at: nat)
    requires index < |all|
    ensures var (batch, t) := (all[index], InsertRows(s, n, all[index], trouble.refused, at));
      && CreateRows(s, n, all[index..], trouble.refused, at) == CreateRows(t, n, all[index + 1..], trouble.refused, at + |batch|)
      && var rest := BulkCount(t, n, all[index + 1..], trouble, index + 1, at + |batch|);
         var k := if index in trouble.broken then 0 else InsertedCount(s, n, batch, trouble.refused, at);
         BulkCount(s, n, all[index..], trouble, index, at) == BulkResult(k + rest.inserted, (|batch| - k) + rest.failed)
  {
    assert all[index..][1..] == all[index + 1..];
  }

  lemma NoMoreBatches(s: Store, n: nat, batches: seq<seq<string>>, trouble: Trouble, index: nat, at: nat)
    requires batches == []
    ensures CreateRows(s, n, batches, trouble.refused, at) == s && BulkCount(s, n, batches, trouble, index, at) == BulkResult(0, 0)
  {
  }

  class NotificationStore {
    var notifications: map<nat, Notification>
    var rows: map<Key, Row>
    var nextId: nat

    function Value(): Store
      reads this
    {
      Store(notifications, rows, nextId)
    }

    /** An unordered `insertMany` of the documents from position `at` on. */
    method InsertMany(n: nat, users: seq<string>, refused: set<nat>, at: nat) returns (inserted: nat)
      modifies this
      ensures Value() == InsertRows(old(Value()), n, users, refused, at)
      ensures inserted == InsertedCount(old(Value()), n, users, refused, at)
    {
      inserted := 0;
      var i := 0;
      while i < |users|
        invariant i <= |users|
        invariant InsertRows(old(Value()), n, users, refused, at) == InsertRows(Value(), n, users[i..], refused, at + i)
        invariant InsertedCount(old(Value()), n, users, refused, at) == inserted + InsertedCount(Value(), n, users[i..], refused, at + i)
      {
        assert users[i..][1..] == users[i + 1..];
        if at + i !in refused && (n, users[i]) !in rows {
          rows, nextId := rows[(n, users[i]) := Row(nextId, false, Pending)], nextId + 1;
          inserted := inserted + 1;
        }
        i := i + 1;
      }
    }

    method CreateUserNotifications(n: nat, users: seq<string>, trouble: Trouble) returns (result: BulkResult)
      modifies this
      ensures Value() == CreateRows(old(Value()), n, Batches(users), trouble.refused, 0)
      ensures result == BulkCount(old(Value()), n, Batches(users), trouble, 0, 0)
      ensures result.inserted + result.failed == |users|
    {
      hide Batches, CreateRows, BulkCount, InsertRows, InsertedCount;
      ghost var all := Batches(users);
      var count := BatchCount(|users|);
      var inserted: nat, failed: nat := 0, 0;
      var index: nat, at: nat := 0, 0;
      SlicesAreBatches(users, 0);
      while index < count
        invariant index <= count == |all|
        invariant CreateRows(old(Value()), n, all, trouble.refused, 0) == CreateRows(Value(), n, all[index..], trouble.refused, at)
        invariant var rest := BulkCount(Value(), n, all[index..], trouble, index, at);
          BulkCount(old(Value()), n, all, trouble, 0, 0) == BulkResult(inserted + rest.inserted, failed + rest.failed)
      {
        SlicesAreBatches(users, index);
        NextBatch(Value(), n, all, trouble, index, at);
        var batch := Batch(users, index);
        var k := InsertMany(n, batch, trouble.refused, at);
        if index in trouble.broken {
          failed := failed + |batch|;
        } else {
          inserted, failed := inserted + k, failed + (|batch| - k);
        }
        index, at := index + 1, at + |batch|;
      }
      result := BulkResult(inserted, failed);
      NoMoreBatches(Value(), n, all[index..], trouble, index, at);
      InsertedPlusFailed(old(Value()), n, all, trouble, 0, 0);
      BatchesPartition(users);
    }

    method UpdateLastPushSentAt(n: nat, now: int)
      modifies this
      ensures Value() == Stamp(old(Value()), n, now)
    {
      if n in notifications {
        notifications := notifications[n := notifications[n].(lastPushSentAt := Some(now))];
      }
    }

    method UpdateUserNotificationStatus(n: nat, users: set<string>, status: Status)
      modifies this
      ensures Value() == SetStatus(old(Value()), n, users, status)
    {
      rows := map k | k in rows :: if k.0 == n && k.1 in users then rows[k].(status := status) else rows[k];
    }

    method RollBack(id: nat)
      modifies this
      ensures Value() == Rollback(old(Value()), id)
    {
      notifications := notifications - {id};
      rows := map k | k in rows && k.0 !in {id} :: rows[k];
    }

    /** The first failing step ends the block; a created notification is then taken back. */
    method NotifyUsernames(users: seq<string>, dto: Option<Notification>, skipPush: bool, push: Push, trouble: Trouble)
      returns (outcome: Outcome)
      modifies this
      ensures (Value(), outcome) == Notify(old(Value()), users, dto, skipPush, push, trouble)
    {
      var created: Option<nat> := None;
      if dto.Some? {
        if Refused(Value(), dto.value) {
          return Threw;
        }
        var id := nextId;
        created := Some(id);
        notifications, nextId := notifications[id := dto.value], nextId + 1;
        var _ := CreateUserNotifications(id, users, trouble);
      }
      outcome := Done;
      if !skipPush {
        if push.SendFails? {
          outcome := Threw;
        } else if created.Some? {
          if push.StampFails? {
            outcome := Threw;
          } else {
            UpdateLastPushSentAt(created.value, push.now);
            if push.StatusFails? {
              outcome := Threw;
            } else {
              UpdateUserNotificationStatus(created.value, SetOf(users), Sent);
            }
          }
        }
      }
      if outcome.Threw? && created.Some? {
        RollBack(created.value);
      }
    }

    method SyncUserNotifications(n: nat, users: seq<string>, trouble: Trouble) returns (outcome: Outcome)
      modifies this
      ensures (Value(), outcome) == SyncRows(old(Value()), n, users, trouble)
    {
      var toAdd := NotIn(users, Value(), n);
      var toReset := set u | u in users && (n, u) in rows;
      rows := map k | k in rows && (k.0 == n ==> k.1 in users) :: rows[k];
      if toAdd != [] {
        var _ := InsertMany(n, toAdd, trouble.refused, 0);
        if 0 in trouble.broken {
          return Threw;
        }
      }
      rows := map k | k in rows ::
        if k.0 == n && k.1 in toReset then rows[k].(read := false, status := Pending) else rows[k];
      outcome := Done;
    }

    method UpdateExistingNotification(n: nat, users: seq<string>, dto: Notification, skipPush: bool, push: Push, now: int, trouble: Trouble)
      returns (outcome: Outcome)
      requires n in notifications
      modifies this
      ensures (Value(), outcome) == UpdateExisting(old(Value()), n, users, dto, skipPush, push, now, trouble)
    {
      var existing := notifications[n];
      notifications := notifications[n := existing.(content := dto.content)];
      outcome := SyncUserNotifications(n, users, trouble);
      if outcome.Threw? || skipPush || !ShouldSendPush(existing, now) {
        return;
      }
      if push.SendFails? || push.StampFails? {
        return Threw;
      }
      UpdateLastPushSentAt(n, push.now);
      if push.StatusFails? {
        return Threw;
      }
      UpdateUserNotificationStatus(n, SetOf(users), Sent);
    }

    method FindNotificationBySource(dto: Notification) returns (found: Option<nat>)
      ensures FoundBySource(Value(), dto, found)
    {
      if a :| a in notifications && SameSource(notifications[a], dto) {
        found := Some(a);
      } else {
        found := None;
      }
    }

    method UpsertNotificationForSource(users: seq<string>, dto: Notification, skipPush: bool, push: Push, now: int, trouble: Trouble)
      returns (outcome: Outcome, ghost found: Option<nat>)
      modifies this
      ensures FoundBySource(old(Value()), dto, found)
      ensures (Value(), outcome) == Upsert(old(Value()), found, users, dto, skipPush, push, now, trouble)
    {
      if !HasSource(dto) {
        found := None;
        if a :| a in notifications && SameSource(notifications[a], dto) {
          found := Some(a);
        }
        outcome := NotifyUsernames(users, Some(dto), skipPush, push, trouble);
        return;
      }
      var existing := FindNotificationBySource(dto);
      found := existing;
      if existing.Some? {
        outcome := UpdateExistingNotification(existing.value, users, dto, skipPush, push, now, trouble);
      } else {
        outcome := NotifyUsernames(users, Some(dto), skipPush, push, trouble);
      }
    }

    method MarkAsRead(id: nat, user: string) returns (modifiedCount: nat)
      modifies `rows
      ensures Value() == MarkRead(old(Value()), id, user)
      ensures modifiedCount == |set k | k in Unread(old(Value()), user) && old(rows)[k].id == id|
    {
      var matched := set k | k in Unread(Value(), user) && rows[k].id == id;
      rows := map k | k in rows :: if k in matched then rows[k].(read := true) else rows[k];
      modifiedCount := |matched|;
    }

    method MarkAllAsRead(user: string) returns (modifiedCount: nat)
      modifies `rows
      ensures Value() == MarkAllRead(old(Value()), user)
      ensures modifiedCount == |Unread(old(Value()), user)|
    {
      var matched := Unread(Value(), user);
      rows := map k | k in rows :: if k in matched then rows[k].(read := true) else rows[k];
      modifiedCount := |matched|;
    }

    method CleanupOrphanedNotifications(ids: set<nat>)
      modifies `notifications
      ensures Value() == CleanupOrphaned(old(Value()), ids)
    {
      var orphaned := set n | n in ids && n in notifications && !HasRows(Value(), n);
      notifications := notifications - orphaned;
    }

    method DeleteUserNotification(id: nat, user: string) returns (ghost found: Option<Key>)
      modifies this
      ensures FoundRow(old(Value()), id, user, found)
      ensures Value() == DeleteForUser(old(Value()), ElementsOf(found))
    {
      if k :| k in rows && k.1 == user && rows[k].id == id {
        found := Some(k);
        rows := rows - {k};
        CleanupOrphanedNotifications({k.0});
        assert NotificationsOf({k}) == {k.0};
      } else {
        found := None;
        assert DeleteForUser(old(Value()), {}).notifications == notifications;
      }
    }

    method DeleteAllUserNotifications(user: string, filter: Filter) returns (deleted: nat)
      modifies this
      ensures Value() == DeleteAll(old(Value()), user, filter)
      ensures deleted == if filter.SentByUser? then |SentBy(old(Value()), user)| else |Selected(old(Value()), user, filter)|
    {
      if filter.SentByUser? {
        deleted := DeleteAllSentNotifications(user);
        return;
      }
      var keys := Selected(Value(), user, filter);
      rows := rows - keys;
      CleanupOrphanedNotifications(NotificationsOf(keys));
      deleted := |keys|;
    }

    method DeleteAllSentNotifications(user: string) returns (deleted: nat)
      modifies this
      ensures Value() == DeleteWhole(old(Value()), SentBy(old(Value()), user))
      ensures deleted == |SentBy(old(Value()), user)|
    {
      var ids := SentBy(Value(), user);
      rows := map k | k in rows && k.0 !in ids :: rows[k];
      notifications := notifications - ids;
      deleted := |ids|;
    }

    method DeleteSentNotification(n: nat, user: string)
      modifies this
      ensures Value() == if n in SentBy(old(Value()), user) then DeleteWhole(old(Value()), {n}) else old(Value())
    {
      if n in notifications && notifications[n].createdBy == user {
        rows := map k | k in rows && k.0 !in {n} :: rows[k];
        notifications := notifications - {n};
      }
    }

    method CascadeDeleteBySourceId(sourceId: string) returns (ghost found: Option<nat>)
      modifies this
      ensures FoundBySourceId(old(Value()), sourceId, found)
      ensures Value() == DeleteWhole(old(Value()), ElementsOf(found))
    {
      if n :| n in notifications && notifications[n].sourceId == Some(sourceId) {
        found := Some(n);
        rows := map k | k in rows && k.0 !in {n} :: rows[k];
        notifications := notifications - {n};
      } else {
        found := None;
        assert notifications - {} == notifications;
        assert DeleteRowsOf(Value(), {}).rows == rows;
      }
    }

    method CleanupOrphanedUserNotifications()
      modifies `rows
      ensures Value() == Cron(old(Value()))
    {
      var orphaned := set k | k in rows && k.0 !in notifications;
      if orphaned == {} {
        assert rows - Dangling(Value()) == rows;
        return;
      }
      rows := rows - orphaned;
    }
  }
}
