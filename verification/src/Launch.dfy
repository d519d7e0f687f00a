/** The launch campaign: the first unsent subscribers are mailed and marked, batch after batch, until none is left. */
module Launch {
  import opened Collections

  type Id = nat

  const BATCH_SIZE: nat := 100

  datatype Status = Pending | Sending | Done | Failed
  datatype Entry = Mail(id: Id) | Mark(id: Id)

  /** What happens to one address in the inner loop; a crash ends the job before or after its mail is out. */
  datatype Outcome = Delivered | SendFails | MarkFails | Crash(mailed: bool)

  /** `status: subscribed, launchEmailSentAt: null`, in order of id. */
  function Unsent(subscribers: seq<Id>, marked: set<Id>): seq<Id> {
    if subscribers == [] then []
    else (if subscribers[0] in marked then [] else [subscribers[0]]) + Unsent(subscribers[1..], marked)
  }

  lemma {:induction false} UnsentAre(subscribers: seq<Id>, marked: set<Id>)
    ensures forall id :: id in Unsent(subscribers, marked) <==> id in subscribers && id !in marked
    ensures Distinct(subscribers) ==> Distinct(Unsent(subscribers, marked))
  {
    if subscribers != [] {
      UnsentAre(subscribers[1..], marked);
      assert subscribers == [subscribers[0]] + subscribers[1..];
    }
  }

  /** Every mail goes to an address without a mark so far, and every mark follows its own mail. */
  ghost predicate Tidy(log: seq<Entry>) {
    log != [] ==>
      var n := |log| - 1;
      && Tidy(log[..n])
      && match log[n] {
           case Mail(id) => Mark(id) !in log[..n]
           case Mark(id) => n > 0 && log[n - 1] == Mail(id)
         }
  }

  ghost predicate MarksAreIn(log: seq<Entry>, marked: set<Id>) { forall id | Mark(id) in log :: id in marked }

  lemma {:induction false} MarkedIsNeverMailedAgain(log: seq<Entry>, i: nat, j: nat, id: Id)
    requires Tidy(log) && i < j < |log| && log[i] == Mark(id)
    ensures log[j] != Mail(id)
  {
    if j < |log| - 1 {
      MarkedIsNeverMailedAgain(log[..|log| - 1], i, j, id);
    } else {
      assert log[..|log| - 1][i] == Mark(id);
    }
  }

  lemma MailKeepsTidy(log: seq<Entry>, marked: set<Id>, id: Id)
    requires Tidy(log) && MarksAreIn(log, marked) && id !in marked
    ensures Tidy(log + [Mail(id)]) && MarksAreIn(log + [Mail(id)], marked)
    ensures Tidy(log + [Mail(id), Mark(id)]) && MarksAreIn(log + [Mail(id), Mark(id)], marked + {id})
  {
    var mailed := log + [Mail(id)];
    var both := log + [Mail(id), Mark(id)];
    assert mailed[..|log|] == log && both[..|mailed|] == mailed;
  }

  // ---------------------------------------------------------------- batches as functions

  function Batch(subscribers: seq<Id>, marked: set<Id>): seq<Id> {
    var unsent := Unsent(subscribers, marked);
    unsent[..Min(BATCH_SIZE, |unsent|)]
  }

  /** The next outcome; everything goes well once the list is used up. */
  function Next(outcomes: seq<Outcome>): Outcome { if outcomes == [] then Delivered else outcomes[0] }

  function Drop<T>(xs: seq<T>, n: nat): seq<T> { xs[Min(n, |xs|)..] }

  /** The addresses a batch marks: those delivered before any crash. */
  function Newly(batch: seq<Id>, outcomes: seq<Outcome>): set<Id> {
    if batch == [] || Next(outcomes).Crash? then {}
    else (if Next(outcomes) == Delivered then {batch[0]} else {}) + Newly(batch[1..], Drop(outcomes, 1))
  }

  predicate CrashesIn(batch: seq<Id>, outcomes: seq<Outcome>) {
    batch != [] && (Next(outcomes).Crash? || CrashesIn(batch[1..], Drop(outcomes, 1)))
  }

  predicate HasCrash(outcomes: seq<Outcome>) { exists i | 0 <= i < |outcomes| :: outcomes[i].Crash? }

  lemma {:induction false} CrashIsInOutcomes(batch: seq<Id>, outcomes: seq<Outcome>)
    ensures CrashesIn(batch, outcomes) ==> HasCrash(outcomes)
  {
    if batch != [] && !Next(outcomes).Crash? {
      CrashIsInOutcomes(batch[1..], Drop(outcomes, 1));
    }
  }

  lemma DropKeepsCrash(outcomes: seq<Outcome>, n: nat)
    ensures HasCrash(Drop(outcomes, n)) ==> HasCrash(outcomes)
  {
    var rest := Drop(outcomes, n);
    forall i | 0 <= i < |rest| ensures rest[i] == outcomes[|outcomes| - |rest| + i] {
    }
  }

  lemma {:induction false} NewlyAreOfTheBatch(batch: seq<Id>, outcomes: seq<Outcome>)
    ensures Newly(batch, outcomes) <= SetOf(batch)
  {
    if batch != [] {
      NewlyAreOfTheBatch(batch[1..], Drop(outcomes, 1));
      assert forall id | id in batch[1..] :: id in batch;
    }
  }

  lemma Fewer(all: set<Id>, before: set<Id>, after: set<Id>, batch: set<Id>)
    requires before <= after <= before + batch && batch <= all - before
    ensures |all - after| == |all - before| - (|after| - |before|)
  {
    var added := after - before;
    assert all - after == (all - before) - added;
    assert after == before + added;
  }

  /** What is left to mark after a batch. */
  lemma BatchCounts(subscribers: seq<Id>, marked: set<Id>, rest: seq<Outcome>)
    ensures var batch := Batch(subscribers, marked);
            var marked' := marked + Newly(batch, rest);
            |SetOf(subscribers) - marked'| == |SetOf(subscribers) - marked| - (|marked'| - |marked|)
  {
    var batch := Batch(subscribers, marked);
    NewlyAreOfTheBatch(batch, rest);
    UnsentAre(subscribers, marked);
    assert forall id | id in batch :: id in Unsent(subscribers, marked);
    Fewer(SetOf(subscribers), marked, marked + Newly(batch, rest), SetOf(batch));
  }

  /** A batch marks somebody or uses up an outcome. */
  lemma BatchMoves(subscribers: seq<Id>, marked: set<Id>, outcomes: seq<Outcome>)
    requires Batch(subscribers, marked) != []
    ensures var batch := Batch(subscribers, marked);
            |SetOf(subscribers) - (marked + Newly(batch, outcomes))| + |Drop(outcomes, |batch|)|
              < |SetOf(subscribers) - marked| + |outcomes|
  {
    var batch := Batch(subscribers, marked);
    BatchCounts(subscribers, marked, outcomes);
    if outcomes == [] {
      UnsentAre(subscribers, marked);
      var extra := Newly(batch, outcomes) - marked;
      assert batch[0] in Unsent(subscribers, marked) && batch[0] in extra;
      assert marked + Newly(batch, outcomes) == marked + extra;
    }
  }

  /** How many rounds the outer loop takes to mark everybody, when nothing ends it before. */
  ghost function RoundsOf(subscribers: seq<Id>, marked: set<Id>, outcomes: seq<Outcome>): nat
    decreases |SetOf(subscribers) - marked| + |outcomes|
  {
    var batch := Batch(subscribers, marked);
    if batch == [] then 0
    else
      BatchMoves(subscribers, marked, outcomes);
      1 + RoundsOf(subscribers, marked + Newly(batch, outcomes), Drop(outcomes, |batch|))
  }

  /** How a job ends: completed, by throwing an error, or by the end of its process. */
  datatype End = Completed | Threw | Crashed

  /** The database call of this number fails. */
  predicate Fails(faults: seq<bool>, call: nat) { call < |faults| && faults[call] }

  /** So many database calls succeed. */
  predicate NoneFails(faults: seq<bool>, calls: nat) {
    calls > 0 ==> NoneFails(faults, calls - 1) && !Fails(faults, calls - 1)
  }

  /** One of the first database calls fails. */
  predicate FailsWithin(faults: seq<bool>, calls: nat) { exists i | 0 <= i < |faults| :: i < calls && faults[i] }

  lemma {:induction false} NoneFailsBefore(faults: seq<bool>, calls: nat)
    requires NoneFails(faults, calls)
    ensures !FailsWithin(faults, calls)
  {
    if calls > 0 { NoneFailsBefore(faults, calls - 1); }
  }

  class LaunchProcessor {
    const subscribers: seq<Id>
    var marked: set<Id>
    var log: seq<Entry>
    var sentCount: nat
    var status: Status

    ghost predicate Valid()
      reads this
    {
      Distinct(subscribers) && Tidy(log) && MarksAreIn(log, marked)
    }

    /** One address; its outcome is the next of the list. */
    method SendOne(id: Id, outcomes: seq<Outcome>) returns (sent: nat, crashed: bool)
      requires Valid() && id !in marked
      modifies `marked, `log
      ensures Valid() && old(log) <= log
      ensures marked == old(marked) + Newly([id], outcomes) && |marked| == |old(marked)| + sent
      ensures sent == |Newly([id], outcomes)|
      ensures crashed <==> Next(outcomes).Crash?
      ensures log == old(log) + match Next(outcomes)
                                case Delivered => [Mail(id), Mark(id)]
                                case MarkFails => [Mail(id)]
                                case SendFails => []
                                case Crash(mailed) => if mailed then [Mail(id)] else []
    {
      var outcome := if outcomes == [] then Delivered else outcomes[0];
      sent, crashed := 0, outcome.Crash?;
      MailKeepsTidy(log, marked, id);
      match outcome {
        case SendFails =>
        case Crash(false) =>
        case Crash(true) => log := log + [Mail(id)];
        case MarkFails => log := log + [Mail(id)];
        case Delivered =>
          log := log + [Mail(id), Mark(id)];
          marked := marked + {id};
          sent := 1;
      }
      assert Newly([id][1..], Drop(outcomes, 1)) == {};
    }

    /** The inner loop: an error at one address is swallowed, a crash ends it. */
    method SendBatch(batch: seq<Id>, outcomes: seq<Outcome>) returns (rest: seq<Outcome>, sent: nat, crashed: bool)
      requires Valid() && Distinct(batch) && batch != [] && SetOf(batch) !! marked
      modifies `marked, `log
      ensures Valid() && old(log) <= log
      ensures marked == old(marked) + Newly(batch, outcomes) && |marked| == |old(marked)| + sent
      ensures crashed <==> CrashesIn(batch, outcomes)
      ensures !crashed ==> rest == Drop(outcomes, |batch|) && |rest| <= |outcomes| && (sent > 0 || |rest| < |outcomes|)
    {
      rest, sent, crashed := outcomes, 0, false;
      ghost var all := marked + Newly(batch, outcomes);
      for i := 0 to |batch|
        invariant Valid() && old(log) <= log && !crashed
        invariant |marked| == |old(marked)| + sent && (i > 0 ==> sent > 0 || outcomes != [])
        invariant Ahead(batch[i..], rest, marked, all, CrashesIn(batch, outcomes))
        invariant rest == Drop(outcomes, i)
      {
        AheadNext(batch, i, rest, marked, all, CrashesIn(batch, outcomes));
        DropNext(outcomes, i);
        var one;
        one, crashed := SendOne(batch[i], rest);
        sent := sent + one;
        rest := Drop(rest, 1);
        if crashed {
          return;
        }
      }
      assert batch[|batch|..] == [];
    }

    method FindBatch() returns (batch: seq<Id>)
      requires Valid()
      ensures batch == Batch(subscribers, marked)
      ensures var unsent := Unsent(subscribers, marked);
              |batch| == (if |unsent| < 100 then |unsent| else 100) && batch == unsent[..|batch|]
      ensures Distinct(batch) && SetOf(batch) <= SetOf(subscribers) - marked
      ensures batch == [] ==> SetOf(subscribers) <= marked && Unsent(subscribers, marked) == []
    {
      UnsentAre(subscribers, marked);
      var unsent := Unsent(subscribers, marked);
      batch := if |unsent| <= BATCH_SIZE then unsent else unsent[..BATCH_SIZE];
      assert forall id | id in batch :: id in unsent;
    }

    /** The query and the inner loop of one round; `more` unless nobody was left. */
    method SendRound(outcomes: seq<Outcome>) returns (rest: seq<Outcome>, sent: nat, crashed: bool, more: bool)
      requires Valid()
      modifies `marked, `log
      ensures Valid() && old(log) <= log
      ensures more <==> Unsent(subscribers, old(marked)) != []
      ensures !more ==> marked == old(marked) && sent == 0
      ensures |marked| == |old(marked)| + sent && Left() == old(Left()) - sent
      ensures crashed ==> HasCrash(outcomes)
      ensures !crashed ==> (HasCrash(rest) ==> HasCrash(outcomes))
      ensures marked == old(marked) + Newly(Batch(subscribers, old(marked)), outcomes)
      ensures more && !crashed ==> rest == Drop(outcomes, |Batch(subscribers, old(marked))|)
      ensures more && !crashed ==> |rest| <= |outcomes| && (sent > 0 || |rest| < |outcomes|)
    {
      var batch := FindBatch();
      rest, sent, crashed, more := outcomes, 0, false, batch != [];
      BatchCounts(subscribers, marked, rest);
      CrashIsInOutcomes(batch, rest);
      DropKeepsCrash(rest, |batch|);
      if more {
        rest, sent, crashed := SendBatch(batch, rest);
      }
    }

    ghost function Left(): nat
      reads this
    {
      |SetOf(subscribers) - marked|
    }

    /**
     * The body of the try block. `faults` are the answers of the job's own database calls in order, true for an
     * error: setting Sending, then each query and each count update, then setting Done. The loop ends, because every
     * round marks somebody or uses up an outcome. `calls` have succeeded by then.
     */
    method SendAll(outcomes: seq<Outcome>, faults: seq<bool>)
      returns (end: End, rounds: nat, lost: nat, calls: nat)
      requires Valid() && !Fails(faults, 0)
      modifies `marked, `log, `sentCount
      ensures Valid() && old(log) <= log
      ensures sentCount + lost == old(sentCount) + |marked| - |old(marked)|
      ensures end == Completed ==> lost == 0 && Unsent(subscribers, marked) == []
      ensures end == Crashed ==> HasCrash(outcomes)
      ensures NoneFails(faults, calls) && (end == Threw <==> Fails(faults, calls) && calls < 2 * rounds + 2)
      ensures end == Completed ==> calls == 2 * rounds + 2
      ensures rounds <= RoundsOf(subscribers, old(marked), outcomes) && old(marked) <= marked
      ensures end == Completed ==> rounds == RoundsOf(subscribers, old(marked), outcomes)
    {
      var rest;
      rounds, lost, rest, calls := 0, 0, outcomes, 1;
      while true
        invariant Valid() && old(log) <= log && lost == 0
        invariant sentCount == old(sentCount) + |marked| - |old(marked)|
        invariant old(marked) <= marked
        invariant rounds + RoundsOf(subscribers, marked, rest) == RoundsOf(subscribers, old(marked), outcomes)
        invariant NoneFails(faults, calls) && calls == 2 * rounds + 1
        invariant HasCrash(rest) ==> HasCrash(outcomes)
        decreases Left() + |rest|
      {
        if Fails(faults, calls) {
          end := Threw;
          break;
        }
        calls := calls + 1;
        var sent, crashed, more;
        rest, sent, crashed, more := SendRound(rest);
        if !more || crashed {
          end, lost := if more then Crashed else Completed, sent;
          break;
        }
        rounds := rounds + 1;
        if Fails(faults, calls) {
          end, lost := Threw, sent;
          break;
        }
        calls := calls + 1;
        sentCount := sentCount + sent;
      }
    }

    /**
     * One run of the job: setting Sending, the try block, setting Done, and the catch that sets Failed. A completed
     * run marks everybody; the count grows by the number newly marked less what the last batch loses.
     */
    method Process(outcomes: seq<Outcome>, faults: seq<bool>) returns (end: End, rounds: nat, lost: nat)
      requires Valid()
      modifies this
      ensures Valid() && old(log) <= log && old(marked) <= marked
      ensures old(status) == Done ==> end == Completed
      ensures old(status) != Done && faults != [] && faults[0] ==> end == Threw
      ensures old(status) == Done || (faults != [] && faults[0]) ==>
                status == old(status) && marked == old(marked) && log == old(log) && lost == 0
      ensures sentCount + lost == old(sentCount) + |marked| - |old(marked)|
      ensures end == Completed ==> status == Done && lost == 0
      ensures end == Completed && old(status) != Done ==>
                && SetOf(subscribers) <= marked && Unsent(subscribers, marked) == []
                && rounds == RoundsOf(subscribers, old(marked), outcomes)
                && !FailsWithin(faults, 2 * rounds + 3)
      ensures end == Threw ==>
                (status == Failed || (faults != [] && faults[0])) && FailsWithin(faults, 2 * rounds + 3)
      ensures end == Crashed ==> status == Sending && HasCrash(outcomes)
      ensures rounds <= RoundsOf(subscribers, old(marked), outcomes)
    {
      end, rounds, lost := Completed, 0, 0;
      if status == Done {
        return;
      }
      if Fails(faults, 0) {
        end := Threw;
        return;
      }
      status := Sending;
      var calls;
      end, rounds, lost, calls := SendAll(outcomes, faults);
      if end == Completed {
        AllMarked(subscribers, marked);
        if Fails(faults, calls) {
          end := Threw;
        } else {
          NoneFailsBefore(faults, calls + 1);
        }
      }
      if end != Crashed {
        status := if end == Threw then Failed else Done;
      }
    }
  }

  lemma AllMarked(subscribers: seq<Id>, marked: set<Id>)
    requires Unsent(subscribers, marked) == []
    ensures SetOf(subscribers) <= marked
  {
    UnsentAre(subscribers, marked);
    forall id | id in subscribers ensures id in marked {
      assert id in Unsent(subscribers, marked) <==> id !in marked;
    }
  }

  /** One address of a batch, and the later ones. */
  lemma OneOf(batch: seq<Id>, i: nat, outcomes: seq<Outcome>)
    requires i < |batch| && Distinct(batch)
    ensures var one, more := Newly([batch[i]], outcomes), Drop(outcomes, 1);
            && one <= {batch[i]} && (outcomes == [] ==> |one| == 1)
            && batch[i] in SetOf(batch[i..]) && SetOf(batch[i + 1..]) == SetOf(batch[i..]) - {batch[i]}
            && (CrashesIn(batch[i..], outcomes) <==> Next(outcomes).Crash? || CrashesIn(batch[i + 1..], more))
            && Newly(batch[i..], outcomes) ==
               if Next(outcomes).Crash? then one else one + Newly(batch[i + 1..], more)
  {
    assert Newly([batch[i]][1..], Drop(outcomes, 1)) == {};
    assert batch[i..] == [batch[i]] + batch[i + 1..] && batch[i..][1..] == batch[i + 1..];
  }

  /** What the rest of a batch is going to do. */
  ghost predicate Ahead(batch: seq<Id>, outcomes: seq<Outcome>, marked: set<Id>, all: set<Id>, crashes: bool) {
    SetOf(batch) !! marked && marked + Newly(batch, outcomes) == all && (CrashesIn(batch, outcomes) <==> crashes)
  }

  lemma AheadNext(batch: seq<Id>, i: nat, outcomes: seq<Outcome>, marked: set<Id>, all: set<Id>, crashes: bool)
    requires i < |batch| && Distinct(batch) && Ahead(batch[i..], outcomes, marked, all, crashes)
    ensures var one := Newly([batch[i]], outcomes);
            && batch[i] !in marked && (outcomes == [] ==> |one| == 1)
            && if Next(outcomes).Crash? then marked + one == all && crashes
               else Ahead(batch[i + 1..], Drop(outcomes, 1), marked + one, all, crashes)
  {
    OneOf(batch, i, outcomes);
  }

  lemma DropNext<T>(xs: seq<T>, n: nat)
    ensures Drop(xs, n + 1) == Drop(Drop(xs, n), 1)
  {
  }

  // ---------------------------------------------------------------- addresses that fail for ever

  function Stay(ids: seq<Id>, stuck: set<Id>): seq<Id> {
    if ids == [] then [] else (if ids[0] in stuck then [ids[0]] else []) + Stay(ids[1..], stuck)
  }

  /** The unsent ones after one round in which exactly the stuck addresses fail. */
  function Round(unsent: seq<Id>, stuck: set<Id>): seq<Id> {
    var n := Min(BATCH_SIZE, |unsent|);
    Stay(unsent[..n], stuck) + unsent[n..]
  }

  function Rounds(unsent: seq<Id>, stuck: set<Id>, k: nat): seq<Id> {
    if k == 0 then unsent else Round(Rounds(unsent, stuck, k - 1), stuck)
  }

  lemma {:induction false} StayKeepsStuck(ids: seq<Id>, stuck: set<Id>)
    ensures forall id :: id in Stay(ids, stuck) <==> id in ids && id in stuck
    ensures (forall id | id in ids :: id in stuck) ==> Stay(ids, stuck) == ids
    ensures (forall id | id in ids :: id !in stuck) ==> Stay(ids, stuck) == []
  {
    if ids != [] {
      StayKeepsStuck(ids[1..], stuck);
      assert ids == [ids[0]] + ids[1..];
    }
  }

  lemma RoundKeepsStuck(unsent: seq<Id>, stuck: set<Id>)
    ensures forall id | id in unsent && id in stuck :: id in Round(unsent, stuck)
    ensures forall id | id in Round(unsent, stuck) :: id in unsent
    ensures (forall id | id in unsent :: id !in stuck) ==> Round(unsent, stuck) == unsent[Min(BATCH_SIZE, |unsent|)..]
  {
    var n := Min(BATCH_SIZE, |unsent|);
    StayKeepsStuck(unsent[..n], stuck);
    assert unsent == unsent[..n] + unsent[n..];
  }

  lemma {:induction false} RoundsKeepStuck(unsent: seq<Id>, stuck: set<Id>, k: nat, id: Id)
    requires id in unsent && id in stuck
    ensures id in Rounds(unsent, stuck, k)
  {
    if k > 0 {
      RoundsKeepStuck(unsent, stuck, k - 1, id);
      RoundKeepsStuck(Rounds(unsent, stuck, k - 1), stuck);
    }
  }

  /** Without stuck addresses a round is a hundred addresses. */
  lemma {:induction false} FreeRounds(unsent: seq<Id>, stuck: set<Id>, k: nat)
    requires forall id | id in unsent :: id !in stuck
    ensures Rounds(unsent, stuck, k) == unsent[Min(k * BATCH_SIZE, |unsent|)..]
  {
    if k > 0 {
      FreeRounds(unsent, stuck, k - 1);
      var before := Rounds(unsent, stuck, k - 1);
      assert forall id | id in before :: id in unsent;
      RoundKeepsStuck(before, stuck);
    }
  }

  /** Main result: with the stuck addresses failing for ever, the rounds end exactly when no unsent address is stuck. */
  lemma EndsIffNobodyIsStuck(unsent: seq<Id>, stuck: set<Id>)
    ensures (exists k: nat :: Rounds(unsent, stuck, k) == []) <==> forall id | id in unsent :: id !in stuck
  {
    if k: nat :| Rounds(unsent, stuck, k) == [] {
      forall id | id in unsent ensures id !in stuck {
        if id in stuck { RoundsKeepStuck(unsent, stuck, k, id); }
      }
    }
    if forall id | id in unsent :: id !in stuck {
      FreeRounds(unsent, stuck, |unsent|);
      assert Rounds(unsent, stuck, |unsent|) == [];
    }
  }

  // ---------------------------------------------------------------- rounds are what the loop does

  /** In this batch exactly the stuck addresses fail, with their mail out or not. */
  ghost predicate FailsExactly(batch: seq<Id>, outcomes: seq<Outcome>, stuck: set<Id>) {
    batch != [] ==>
      && !Next(outcomes).Crash? && (Next(outcomes) == Delivered <==> batch[0] !in stuck)
      && FailsExactly(batch[1..], Drop(outcomes, 1), stuck)
  }

  lemma {:induction false} FailingAreNotMarked(batch: seq<Id>, outcomes: seq<Outcome>, stuck: set<Id>)
    requires FailsExactly(batch, outcomes, stuck)
    ensures Newly(batch, outcomes) == SetOf(batch) - stuck && !CrashesIn(batch, outcomes)
  {
    if batch != [] {
      FailingAreNotMarked(batch[1..], Drop(outcomes, 1), stuck);
      assert batch == [batch[0]] + batch[1..];
    }
  }

  lemma UnsentCons(id: Id, ids: seq<Id>, marked: set<Id>)
    ensures Unsent([id] + ids, marked) == (if id in marked then [] else [id]) + Unsent(ids, marked)
  {
    assert ([id] + ids)[1..] == ids;
  }

  lemma {:induction false} UnsentTwice(ids: seq<Id>, marked: set<Id>, more: set<Id>)
    ensures Unsent(ids, marked + more) == Unsent(Unsent(ids, marked), more)
  {
    if ids != [] {
      UnsentTwice(ids[1..], marked, more);
      UnsentCons(ids[0], Unsent(ids[1..], marked), more);
      if ids[0] in marked { assert Unsent(ids, marked) == Unsent(ids[1..], marked); }
    }
  }

  lemma Regroup(a: seq<Id>, b: seq<Id>, c: seq<Id>)
    ensures a + b + c == a + (b + c)
  {
  }

  lemma {:induction false} UnsentOfTwoParts(a: seq<Id>, b: seq<Id>, marked: set<Id>)
    ensures Unsent(a + b, marked) == Unsent(a, marked) + Unsent(b, marked)
  {
    if a == [] {
      assert a + b == b;
    } else {
      var id, rest := a[0], a[1..];
      UnsentOfTwoParts(rest, b, marked);
      assert a + b == [id] + (rest + b) && a == [id] + rest;
      UnsentCons(id, rest + b, marked);
      UnsentCons(id, rest, marked);
      Regroup(if id in marked then [] else [id], Unsent(rest, marked), Unsent(b, marked));
    }
  }

  lemma {:induction false} UnsentIsStay(ids: seq<Id>, stuck: set<Id>, marked: set<Id>)
    requires forall id | id in ids :: id in marked <==> id !in stuck
    ensures Unsent(ids, marked) == Stay(ids, stuck)
  {
    if ids != [] { UnsentIsStay(ids[1..], stuck, marked); }
  }

  lemma {:induction false} UnsentIsAll(ids: seq<Id>, marked: set<Id>)
    requires forall id | id in ids :: id !in marked
    ensures Unsent(ids, marked) == ids
  {
    if ids != [] { UnsentIsAll(ids[1..], marked); }
  }

  /** A batch in which exactly the stuck addresses fail is one round. */
  lemma BatchIsRound(subscribers: seq<Id>, marked: set<Id>, outcomes: seq<Outcome>, stuck: set<Id>)
    requires Distinct(subscribers) && FailsExactly(Batch(subscribers, marked), outcomes, stuck)
    ensures Unsent(subscribers, marked + Newly(Batch(subscribers, marked), outcomes))
         == Round(Unsent(subscribers, marked), stuck)
  {
    var unsent, batch := Unsent(subscribers, marked), Batch(subscribers, marked);
    var tail, newly := unsent[|batch|..], Newly(Batch(subscribers, marked), outcomes);
    UnsentAre(subscribers, marked);
    FailingAreNotMarked(batch, outcomes, stuck);
    assert unsent == batch + tail;
    UnsentTwice(subscribers, marked, newly);
    UnsentOfTwoParts(batch, tail, newly);
    UnsentIsStay(batch, stuck, newly);
    UnsentIsAll(tail, newly);
  }

  /** For k rounds exactly the stuck addresses fail. */
  ghost predicate StuckFor(subscribers: seq<Id>, marked: set<Id>, outcomes: seq<Outcome>, stuck: set<Id>, k: nat)
    decreases k
  {
    k > 0 ==>
      var batch := Batch(subscribers, marked);
      && FailsExactly(batch, outcomes, stuck)
      && StuckFor(subscribers, marked + Newly(batch, outcomes), Drop(outcomes, |batch|), stuck, k - 1)
  }

  lemma {:induction false} RoundsFromTheFront(unsent: seq<Id>, stuck: set<Id>, k: nat)
    requires k > 0
    ensures Rounds(unsent, stuck, k) == Rounds(Round(unsent, stuck), stuck, k - 1)
  {
    if k > 1 { RoundsFromTheFront(unsent, stuck, k - 1); }
  }

  lemma {:induction false} NobodyStays(stuck: set<Id>, k: nat)
    ensures Rounds([], stuck, k) == []
  {
    if k > 0 { NobodyStays(stuck, k - 1); }
  }

  /** Main result: while exactly the stuck addresses fail, the job is through in k rounds exactly when these are. */
  lemma {:induction false} LoopIsRounds(subscribers: seq<Id>, marked: set<Id>, outcomes: seq<Outcome>, stuck: set<Id>,
                                        k: nat)
    requires Distinct(subscribers) && StuckFor(subscribers, marked, outcomes, stuck, k)
    ensures RoundsOf(subscribers, marked, outcomes) <= k <==> Rounds(Unsent(subscribers, marked), stuck, k) == []
    decreases k
  {
    var unsent, batch := Unsent(subscribers, marked), Batch(subscribers, marked);
    if unsent == [] {
      NobodyStays(stuck, k);
    } else if k > 0 {
      BatchIsRound(subscribers, marked, outcomes, stuck);
      RoundsFromTheFront(unsent, stuck, k);
      LoopIsRounds(subscribers, marked + Newly(batch, outcomes), Drop(outcomes, |batch|), stuck, k - 1);
    }
  }

  /** A full batch of stuck addresses at the front starves everybody behind it: a round changes nothing. */
  lemma StuckBatchStarvesTheRest(unsent: seq<Id>, stuck: set<Id>, k: nat)
    requires |unsent| >= BATCH_SIZE && forall i | 0 <= i < BATCH_SIZE :: unsent[i] in stuck
    ensures Rounds(unsent, stuck, k) == unsent
  {
    if k > 0 {
      StuckBatchStarvesTheRest(unsent, stuck, k - 1);
      StayKeepsStuck(unsent[..BATCH_SIZE], stuck);
      assert unsent == unsent[..BATCH_SIZE] + unsent[BATCH_SIZE..];
    }
  }
}
