/** The broadcast job: a cursor loop over the active users, one announcement row each. */
module Broadcast {
  import opened Wrappers
  import opened Notifications

  const BATCH_SIZE: nat := 500

  datatype Status = Pending | Sending | Done | Failed

  ghost predicate Ascending(ids: seq<Id>) { forall i, j | 0 <= i < j < |ids| :: ids[i] < ids[j] }

  /** The users after the cursor, in order of id. */
  function After(active: seq<Id>, cursor: Option<Id>): seq<Id> {
    if cursor.None? then active
    else if active == [] then []
    else (if active[0] > cursor.value then [active[0]] else []) + After(active[1..], cursor)
  }

  lemma {:induction false} AfterIsSuffix(active: seq<Id>, k: nat)
    requires Ascending(active) && k < |active|
    ensures After(active, Some(active[k])) == active[k + 1..]
  {
    if k > 0 {
      AfterIsSuffix(active[1..], k - 1);
      assert active[0] < active[k];
      assert After(active, Some(active[k])) == [] + After(active[1..], Some(active[k]));
    } else {
      AllAfter(active[1..], active[0]);
      assert After(active, Some(active[0])) == [] + After(active[1..], Some(active[0]));
    }
  }

  lemma {:induction false} AllAfter(active: seq<Id>, cursor: Id)
    requires forall i | 0 <= i < |active| :: cursor < active[i]
    ensures After(active, Some(cursor)) == active
  {
    if active != [] {
      AllAfter(active[1..], cursor);
      assert active == [active[0]] + active[1..];
    }
  }

  function Announcements(users: seq<Id>): seq<Row> {
    seq(|users|, i requires 0 <= i < |users| => Row(users[i], Announcement, None))
  }

  /** A row without a transfer never conflicts, so `skipDuplicates` skips nothing. */
  lemma {:induction false} NothingIsSkipped(rows: seq<Row>, users: seq<Id>)
    ensures InsertAll(rows, Announcements(users)) == rows + Announcements(users)
    ensures Created(rows, Announcements(users)) == |users|
  {
    var all := Announcements(users);
    if users == [] {
      assert all == [] && rows + all == rows;
    } else {
      var n := |users| - 1;
      NothingIsSkipped(rows, users[..n]);
      assert Announcements(users[..n]) == all[..n];
      assert rows + all == rows + all[..n] + [all[n]];
    }
  }

  class BroadcastProcessor {
    const active: seq<Id>
    var rows: seq<Row>
    var status: Status
    var sentCount: nat

    /** One page of the user query; the cursor is the last of the users reached so far. */
    method FindUsers(cursor: Option<Id>, ghost reached: nat) returns (users: seq<Id>)
      requires Ascending(active) && reached <= |active|
      requires cursor == if reached == 0 then None else Some(active[reached - 1])
      ensures reached + |users| <= |active| && users == active[reached..][..|users|]
      ensures |users| < BATCH_SIZE ==> reached + |users| == |active|
      ensures |users| <= BATCH_SIZE
    {
      if reached > 0 { AfterIsSuffix(active, reached - 1); }
      var left := After(active, cursor);
      assert left == active[reached..];
      users := if |left| <= BATCH_SIZE then left else left[..BATCH_SIZE];
    }

    /** `createMany` with `skipDuplicates`. */
    method CreateMany(users: seq<Id>) returns (count: nat)
      modifies `rows
      ensures rows == old(rows) + Announcements(users) && count == |users|
    {
      NothingIsSkipped(rows, users);
      count := Created(rows, Announcements(users));
      rows := InsertAll(rows, Announcements(users));
    }

    /** `broken` is the number of the batch whose insert throws, if one does. */
    method Process(broken: Option<nat>) returns (reached: nat)
      requires Ascending(active)
      modifies this
      ensures reached <= |active| && rows == old(rows) + Announcements(active[..reached])
      ensures old(status) == Done ==> status == Done && reached == 0 && sentCount == old(sentCount)
      ensures old(status) != Done ==>
                || (status == Done && reached == |active| == sentCount)
                || (status == Failed && broken.Some?
                    && reached == broken.value * 500 && sentCount == old(sentCount))
    {
      reached := 0;
      assert active[..0] == [] && Announcements([]) == [] && old(rows) + [] == old(rows);
      if status == Done {
        return;
      }
      status := Sending;
      var cursor: Option<Id> := None;
      var sent := 0;
      var batches := 0;
      while true
        invariant reached <= |active| && sent == reached == batches * BATCH_SIZE
        invariant cursor == if reached == 0 then None else Some(active[reached - 1])
        invariant rows == old(rows) + Announcements(active[..reached]) && sentCount == old(sentCount)
        invariant broken.Some? ==> batches <= broken.value
        decreases |active| - reached
      {
        var users := FindUsers(cursor, reached);
        if users == [] {
          break;
        }
        if broken == Some(batches) {
          status := Failed;
          return;
        }
        NextBatch(active, reached, |users|);
        var count := CreateMany(users);
        sent := sent + count;
        cursor := Some(users[|users| - 1]);
        reached := reached + |users|;
        if |users| < BATCH_SIZE {
          break;
        }
        batches := batches + 1;
      }
      status := Done;
      sentCount := sent;
    }
  }

  lemma NextBatch(active: seq<Id>, k: nat, n: nat)
    requires k + n <= |active|
    ensures Announcements(active[..k + n]) == Announcements(active[..k]) + Announcements(active[k..][..n])
  {
  }

  function Told(rows: seq<Row>, user: Id): nat { multiset(rows)[Row(user, Announcement, None)] }

  /** A completed run tells every active user exactly once. */
  lemma {:induction false} EachActiveUserOnce(users: seq<Id>, user: Id)
    requires Ascending(users)
    ensures Told(Announcements(users), user) == if user in users then 1 else 0
  {
    var all := Announcements(users);
    if users != [] {
      var n := |users| - 1;
      EachActiveUserOnce(users[..n], user);
      assert all == Announcements(users[..n]) + [all[n]];
      assert users == users[..n] + [users[n]];
    }
  }

  /**
   * A run that failed after `reached` users and is started again tells those twice: the announcement rows have no
   * transfer, so the unique key does not stop the second ones.
   */
  lemma RestartTellsTwice(active: seq<Id>, reached: nat, user: Id)
    requires Ascending(active) && reached <= |active|
    ensures Told(Announcements(active[..reached]) + Announcements(active), user) ==
            if user in active[..reached] then 2 else if user in active then 1 else 0
  {
    EachActiveUserOnce(active[..reached], user);
    EachActiveUserOnce(active, user);
    if user in active[..reached] {
      var i :| 0 <= i < reached && active[i] == user;
      assert user in active;
    }
  }
}
