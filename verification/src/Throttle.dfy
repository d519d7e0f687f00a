/**
 * The API client's request throttle, a ticket lock made of promises, and its daily quota check.
 *
 * Promise number k is resolved by the caller holding ticket k; promise 0 is resolved from the start. A caller
 * waits for the promise one below its own ticket, sleeps if the last request is too recent, and leaves.
 */
module Throttle {
  import opened Collections
  import opened Wrappers

  const WINDOW_MS: nat := 60000

  type Caller = nat

  datatype Phase = Waiting(prev: nat, own: nat) | Sleeping(until: int, own: nat)
  datatype Leave = Leave(ticket: nat, at: nat)

  datatype State = State(
    clock: nat,
    rateChain: nat,
    resolved: set<nat>,
    lastRequestAt: nat,
    callers: map<Caller, Phase>,
    leaves: seq<Leave>)

  datatype Event =
    | Arrive(c: Caller)
    | Resume(c: Caller)
    | SleepEnds(c: Caller)
    | Tick(d: nat)


  /** ceil(60000 / max(1, maxRpm)) */
  function MinInterval(maxRpm: int): nat {
    var m := Max(1, maxRpm);
    (WINDOW_MS + m - 1) / m
  }

  /** A sleep never ends early; otherwise any waiting caller whose turn has come may go on at any time. */
  predicate Enabled(s: State, e: Event) {
    match e
    case Arrive(c) => c !in s.callers
    case Resume(c) => c in s.callers && s.callers[c].Waiting? && s.callers[c].prev in s.resolved
    case SleepEnds(c) => c in s.callers && s.callers[c].Sleeping? && s.callers[c].until <= s.clock
    case Tick(_) => true
  }

  /** The caller sets lastRequestAt and releases its promise. */
  function Go(s: State, c: Caller, own: nat): State {
    s.(lastRequestAt := s.clock, resolved := s.resolved + {own}, callers := s.callers - {c},
       leaves := s.leaves + [Leave(own, s.clock)])
  }

  function Apply(interval: nat, s: State, e: Event): State {
    match e
    case Arrive(c) =>
      s.(rateChain := s.rateChain + 1, callers := s.callers[c := Waiting(s.rateChain, s.rateChain + 1)])
    case Resume(c) =>
      if c !in s.callers then s
      else
        var own := s.callers[c].own;
        var wait := interval - (s.clock - s.lastRequestAt);
        if wait > 0 then s.(callers := s.callers[c := Sleeping(s.clock + wait, own)]) else Go(s, c, own)
    case SleepEnds(c) => if c !in s.callers then s else Go(s, c, s.callers[c].own)
    case Tick(d) => s.(clock := s.clock + d)
  }

  /** The clock starts anywhere; lastRequestAt starts at 0. */
  function Init(start: nat): State { State(start, 0, {0}, 0, map[], []) }

  function Exec(interval: nat, start: nat, run: seq<Event>): Option<State> {
    if run == [] then Some(Init(start))
    else
      var n := |run| - 1;
      var p := Exec(interval, start, run[..n]);
      if p.Some? && Enabled(p.value, run[n]) then Some(Apply(interval, p.value, run[n])) else None
  }

  ghost predicate Spaced(interval: nat, leaves: seq<Leave>) {
    forall i | 0 < i < |leaves| :: leaves[i - 1].at + interval <= leaves[i].at
  }

  ghost predicate CallerOk(interval: nat, s: State, c: Caller) {
    c in s.callers ==>
      match s.callers[c]
      case Waiting(prev, own) => own == prev + 1 && |s.leaves| < own <= s.rateChain
      case Sleeping(until, own) => own == |s.leaves| + 1 <= s.rateChain && s.lastRequestAt + interval <= until
  }

  ghost predicate Holds(s: State, c: Caller, ticket: nat) { c in s.callers && s.callers[c].own == ticket }

  ghost predicate Held(s: State, ticket: nat) { exists c :: Holds(s, c, ticket) }

  ghost predicate OneHolder(s: State) {
    forall b, c | b in s.callers && c in s.callers && b != c :: s.callers[b].own != s.callers[c].own
  }

  ghost predicate AllHeld(s: State) {
    forall k: nat | |s.leaves| < k <= s.rateChain :: Held(s, k)
  }

  ghost predicate LeavesOk(interval: nat, s: State) {
    && |s.leaves| <= s.rateChain
    && (forall k: nat :: k in s.resolved <==> k <= |s.leaves|)
    && (forall i | 0 <= i < |s.leaves| :: s.leaves[i].ticket == i + 1)
    && Spaced(interval, s.leaves)
    && (s.leaves != [] ==> s.lastRequestAt == s.leaves[|s.leaves| - 1].at)
  }

  ghost predicate Inv(interval: nat, s: State) {
    LeavesOk(interval, s) && (forall c :: CallerOk(interval, s, c)) && OneHolder(s) && AllHeld(s)
  }

  lemma GoKeeps(interval: nat, s: State, c: Caller)
    requires Inv(interval, s) && Holds(s, c, |s.leaves| + 1)
    requires s.leaves != [] ==> s.lastRequestAt + interval <= s.clock
    ensures Inv(interval, Go(s, c, s.callers[c].own))
  {
    var s' := Go(s, c, s.callers[c].own);
    assert CallerOk(interval, s, c);
    forall b ensures CallerOk(interval, s', b) {
      assert CallerOk(interval, s, b);
    }
    forall k: nat | |s'.leaves| < k <= s'.rateChain ensures Held(s', k) {
      assert Held(s, k);
      var b :| Holds(s, b, k);
      assert Holds(s', b, k);
    }
  }

  lemma ArriveKeeps(interval: nat, s: State, c: Caller)
    requires Inv(interval, s) && Enabled(s, Arrive(c))
    ensures Inv(interval, Apply(interval, s, Arrive(c)))
  {
    var s' := Apply(interval, s, Arrive(c));
    forall b ensures CallerOk(interval, s', b) { assert CallerOk(interval, s, b); }
    forall b | b in s.callers ensures s.callers[b].own <= s.rateChain { assert CallerOk(interval, s, b); }
    forall k: nat | |s'.leaves| < k <= s'.rateChain ensures Held(s', k) {
      if k == s'.rateChain {
        assert Holds(s', c, k);
      } else {
        assert Held(s, k);
        var b :| Holds(s, b, k);
        assert Holds(s', b, k);
      }
    }
  }

  /** A step that leaves tickets and leaves alone. */
  lemma SameTicketsKeep(interval: nat, s: State, s': State)
    requires Inv(interval, s) && LeavesOk(interval, s') && (forall c :: CallerOk(interval, s', c))
    requires s'.leaves == s.leaves && s'.rateChain == s.rateChain && s'.callers.Keys == s.callers.Keys
    requires forall c | c in s.callers :: s'.callers[c].own == s.callers[c].own
    ensures Inv(interval, s')
  {
    forall k: nat | |s'.leaves| < k <= s'.rateChain ensures Held(s', k) {
      assert Held(s, k);
      var b :| Holds(s, b, k);
      assert Holds(s', b, k);
    }
  }

  lemma InvStep(interval: nat, s: State, e: Event)
    requires Inv(interval, s) && Enabled(s, e)
    ensures Inv(interval, Apply(interval, s, e))
  {
    var s' := Apply(interval, s, e);
    match e
    case Arrive(c) => ArriveKeeps(interval, s, c);
    case Resume(c) =>
      assert CallerOk(interval, s, c);
      if interval - (s.clock - s.lastRequestAt) > 0 {
        forall b ensures CallerOk(interval, s', b) { assert CallerOk(interval, s, b); }
        SameTicketsKeep(interval, s, s');
      } else {
        GoKeeps(interval, s, c);
      }
    case SleepEnds(c) =>
      assert CallerOk(interval, s, c);
      GoKeeps(interval, s, c);
    case Tick(d) =>
      forall b ensures CallerOk(interval, s', b) { assert CallerOk(interval, s, b); }
      SameTicketsKeep(interval, s, s');
  }

  lemma {:induction false} InvRun(interval: nat, start: nat, run: seq<Event>)
    requires Exec(interval, start, run).Some?
    ensures Inv(interval, Exec(interval, start, run).value)
  {
    if run != [] {
      var n := |run| - 1;
      InvRun(interval, start, run[..n]);
      InvStep(interval, Exec(interval, start, run[..n]).value, run[n]);
    }
  }

  function Arrivals(run: seq<Event>): nat {
    if run == [] then 0 else Arrivals(run[..|run| - 1]) + if run[|run| - 1].Arrive? then 1 else 0
  }

  lemma {:induction false} TicketsCountArrivals(interval: nat, start: nat, run: seq<Event>)
    requires Exec(interval, start, run).Some?
    ensures Exec(interval, start, run).value.rateChain == Arrivals(run)
  {
    if run != [] {
      TicketsCountArrivals(interval, start, run[..|run| - 1]);
    }
  }

  /** Whether the ticket's caller is still inside, or has left with it. */
  ghost predicate Owns(s: State, c: Caller, ticket: nat) {
    Holds(s, c, ticket) || (0 < ticket <= |s.leaves| && s.leaves[ticket - 1].ticket == ticket)
  }

  lemma OwnsStays(interval: nat, s: State, e: Event, c: Caller, ticket: nat)
    requires Inv(interval, s) && Enabled(s, e) && Owns(s, c, ticket)
    ensures Owns(Apply(interval, s, e), c, ticket)
    ensures |s.leaves| <= |Apply(interval, s, e).leaves|
  {
    InvStep(interval, s, e);
    assert CallerOk(interval, s, c);
    if (e.Resume? || e.SleepEnds?) && e.c == c {
      assert Holds(s, c, ticket) ==> s.callers[c].own == ticket;
    }
  }

  lemma {:induction false} OwnsUntilTheEnd(interval: nat, start: nat, run: seq<Event>, k: nat, c: Caller)
    requires 0 < k <= |run| && Exec(interval, start, run).Some? && run[k - 1] == Arrive(c)
    ensures Owns(Exec(interval, start, run).value, c, Arrivals(run[..k]))
    decreases |run|
  {
    var n := |run| - 1;
    InvRun(interval, start, run[..n]);
    if k == |run| {
      assert run[..k] == run;
      TicketsCountArrivals(interval, start, run[..n]);
    } else {
      assert run[..n][..k] == run[..k] && run[..n][k - 1] == run[k - 1];
      OwnsUntilTheEnd(interval, start, run[..n], k, c);
      OwnsStays(interval, Exec(interval, start, run[..n]).value, run[n], c, Arrivals(run[..k]));
    }
  }

  /**
   * Requests leave in arrival order: the n-th request to leave is that of the n-th arrival, and the n-th arrival
   * is still inside exactly while fewer than n requests have left.
   */
  lemma LeavesInArrivalOrder(interval: nat, start: nat, run: seq<Event>, k: nat, c: Caller)
    requires 0 < k <= |run| && Exec(interval, start, run).Some? && run[k - 1] == Arrive(c)
    ensures var s, n := Exec(interval, start, run).value, Arrivals(run[..k]);
            && (|s.leaves| < n ==> Holds(s, c, n))
            && (n <= |s.leaves| ==> s.leaves[n - 1].ticket == n && !Holds(s, c, n))
  {
    InvRun(interval, start, run);
    OwnsUntilTheEnd(interval, start, run, k, c);
    assert CallerOk(interval, Exec(interval, start, run).value, c);
    assert run[..k][..k - 1] == run[..k - 1];
  }

  function InWindow(leaves: seq<Leave>, t: nat): nat {
    if leaves == [] then 0
    else
      var n := |leaves| - 1;
      InWindow(leaves[..n], t) + if t <= leaves[n].at < t + WINDOW_MS then 1 else 0
  }

  /** The interval is the least one that many times of which fill a minute. */
  lemma IntervalCovers(maxRpm: int)
    ensures Max(1, maxRpm) * MinInterval(maxRpm) >= 60000 > Max(1, maxRpm) * (MinInterval(maxRpm) - 1)
  {
    var m := Max(1, maxRpm);
    var q, r := (WINDOW_MS + m - 1) / m, (WINDOW_MS + m - 1) % m;
    assert WINDOW_MS + m - 1 == m * q + r && r <= m - 1;
    assert m * (q - 1) == m * q - m;
  }

  lemma MulMono(k: nat, m: nat, interval: nat)
    requires k >= m
    ensures k * interval >= m * interval
  {
    assert k * interval == m * interval + (k - m) * interval;
  }

  /** k requests of a window span at least k - 1 intervals. */
  lemma {:induction false} WindowSpan(interval: nat, m: nat, leaves: seq<Leave>, t: nat)
    requires Spaced(interval, leaves) && m * interval >= WINDOW_MS && m > 0
    ensures InWindow(leaves, t) <= m
    ensures InWindow(leaves, t) > 0 ==> t + (InWindow(leaves, t) - 1) * interval <= leaves[|leaves| - 1].at
  {
    if leaves != [] {
      var n := |leaves| - 1;
      WindowSpan(interval, m, leaves[..n], t);
      var k := InWindow(leaves[..n], t);
      if k > 0 && t <= leaves[n].at < t + WINDOW_MS {
        assert leaves[n - 1].at + interval <= leaves[n].at;
        assert (k - 1) * interval + interval == k * interval;
        if k >= m {
          MulMono(k, m, interval);
        }
      }
    }
  }

  /** Main result: any half-open window of a minute contains at most maxRpm requests. */
  lemma RateBound(maxRpm: int, start: nat, run: seq<Event>, t: nat)
    requires Exec(MinInterval(maxRpm), start, run).Some?
    ensures InWindow(Exec(MinInterval(maxRpm), start, run).value.leaves, t) <= Max(1, maxRpm)
  {
    InvRun(MinInterval(maxRpm), start, run);
    IntervalCovers(maxRpm);
    WindowSpan(MinInterval(maxRpm), Max(1, maxRpm), Exec(MinInterval(maxRpm), start, run).value.leaves, t);
  }

  lemma {:induction false} FarApart(interval: nat, leaves: seq<Leave>, i: nat, k: nat)
    requires Spaced(interval, leaves) && i + k < |leaves|
    ensures leaves[i].at + k * interval <= leaves[i + k].at
  {
    if k > 0 {
      FarApart(interval, leaves, i, k - 1);
      assert leaves[i + k - 1].at + interval <= leaves[i + k].at;
      assert (k - 1) * interval + interval == k * interval;
    }
  }

  /** Main result, in other words: a request and the maxRpm-th after it are a minute apart at least. */
  lemma MinuteApart(maxRpm: int, start: nat, run: seq<Event>, i: nat)
    requires Exec(MinInterval(maxRpm), start, run).Some?
    requires var m := if maxRpm < 1 then 1 else maxRpm;
             i + m < |Exec(MinInterval(maxRpm), start, run).value.leaves|
    ensures var m := if maxRpm < 1 then 1 else maxRpm;
            var leaves := Exec(MinInterval(maxRpm), start, run).value.leaves;
            leaves[i + m].at - leaves[i].at >= 60000
  {
    InvRun(MinInterval(maxRpm), start, run);
    IntervalCovers(maxRpm);
    FarApart(MinInterval(maxRpm), Exec(MinInterval(maxRpm), start, run).value.leaves, i, Max(1, maxRpm));
  }

  /** A caller whose turn it is leaves at once or sleeps until one interval after the last request, and no longer. */
  lemma TurnIsTakenOnTime(interval: nat, s: State, c: Caller)
    requires Enabled(s, Resume(c))
    ensures var after := Apply(interval, s, Resume(c));
            if s.lastRequestAt + interval <= s.clock then
              c !in after.callers && after.leaves == s.leaves + [Leave(s.callers[c].own, s.clock)]
            else
              c in after.callers && after.callers[c] == Sleeping(s.lastRequestAt + interval, s.callers[c].own)
  {
  }

  /** No deadlock: while anyone waits, the holder of the next ticket can go on, at the latest after its sleep. */
  lemma NextTicketMoves(interval: nat, start: nat, run: seq<Event>) returns (c: Caller, d: nat)
    requires Exec(interval, start, run).Some? && Exec(interval, start, run).value.callers != map[]
    ensures var s := Exec(interval, start, run).value;
            && Holds(s, c, |s.leaves| + 1)
            && (Enabled(s, Resume(c)) || Enabled(Apply(interval, s, Tick(d)), SleepEnds(c)))
  {
    InvRun(interval, start, run);
    var s := Exec(interval, start, run).value;
    var b :| b in s.callers;
    assert CallerOk(interval, s, b);
    assert Held(s, |s.leaves| + 1);
    c :| Holds(s, c, |s.leaves| + 1);
    assert CallerOk(interval, s, c);
    d := if s.callers[c].Sleeping? && s.callers[c].until > s.clock then s.callers[c].until - s.clock else 0;
  }

  // ---------------------------------------------------------------- the quota

  datatype Answer = Sent | QuotaExhausted(remaining: int)

  predicate AtReserve(reserve: int, remaining: Option<int>) { remaining.Some? && remaining.value <= reserve }

  /** The client's quota state: `dailyRemaining` is None until a response has carried the header. */
  class Quota {
    const dailyReserve: int
    var dailyRemaining: Option<int>

    /**
     * One call of `get`. `header` is the remaining count the response reports; None when the call fails after it
     * has left the throttle, or when the header is not a number.
     */
    method Get(header: Option<int>) returns (r: Answer)
      modifies this
      ensures if old(dailyRemaining).Some? && old(dailyRemaining).value <= dailyReserve then
                r == QuotaExhausted(old(dailyRemaining).value) && dailyRemaining == old(dailyRemaining)
              else
                r == Sent && dailyRemaining == if header.Some? then header else old(dailyRemaining)
      ensures [r] == Answers(dailyReserve, old(dailyRemaining), [header])
    {
      if dailyRemaining.Some? && dailyRemaining.value <= dailyReserve {
        return QuotaExhausted(dailyRemaining.value);
      }
      if header.Some? {
        dailyRemaining := header;
      }
      return Sent;
    }
  }

  function Seen(remaining: Option<int>, header: Option<int>): Option<int> {
    if header.Some? then header else remaining
  }

  /** The answers of a sequence of calls of one client, each made after the one before has ended. */
  function Answers(reserve: int, remaining: Option<int>, headers: seq<Option<int>>): (r: seq<Answer>)
    ensures |r| == |headers|
    decreases headers
  {
    if headers == [] then []
    else if AtReserve(reserve, remaining) then
      [QuotaExhausted(remaining.value)] + Answers(reserve, remaining, headers[1..])
    else [Sent] + Answers(reserve, Seen(remaining, headers[0]), headers[1..])
  }

  /**
   * A call is sent exactly when no earlier response has reported the reserve. Nothing ever lifts the stop: a
   * refused call reads no header, so one client refuses every later call, on later days too.
   */
  lemma {:induction false} QuotaStopIsForever(reserve: int, remaining: Option<int>, headers: seq<Option<int>>, i: nat)
    requires i < |headers|
    ensures Answers(reserve, remaining, headers)[i].Sent? <==>
            !AtReserve(reserve, remaining) && forall k | 0 <= k < i :: !AtReserve(reserve, headers[k])
    decreases i
  {
    if i > 0 {
      var rest := headers[1..];
      if AtReserve(reserve, remaining) {
        QuotaStopIsForever(reserve, remaining, rest, i - 1);
      } else {
        QuotaStopIsForever(reserve, Seen(remaining, headers[0]), rest, i - 1);
        assert forall k | 0 < k < i :: headers[k] == rest[k - 1];
        assert forall k | 0 <= k < i - 1 :: rest[k] == headers[k + 1];
      }
    }
  }

  /** What the client remembers after those calls. */
  function RemainingAfter(reserve: int, remaining: Option<int>, headers: seq<Option<int>>): Option<int>
    decreases headers
  {
    if headers == [] then remaining
    else
      var next := if AtReserve(reserve, remaining) then remaining else Seen(remaining, headers[0]);
      RemainingAfter(reserve, next, headers[1..])
  }

  /** A client that has refused a call is at its reserve from then on. */
  lemma {:induction false} RefusedMeansAtReserve(reserve: int, remaining: Option<int>, headers: seq<Option<int>>)
    ensures AtReserve(reserve, remaining) ==> RemainingAfter(reserve, remaining, headers) == remaining
    ensures (exists i | 0 <= i < |headers| :: Answers(reserve, remaining, headers)[i].QuotaExhausted?) ==>
              AtReserve(reserve, RemainingAfter(reserve, remaining, headers))
    decreases headers
  {
    if headers != [] {
      var next := if AtReserve(reserve, remaining) then remaining else Seen(remaining, headers[0]);
      RefusedMeansAtReserve(reserve, next, headers[1..]);
      if i :| 0 <= i < |headers| && Answers(reserve, remaining, headers)[i].QuotaExhausted? {
        if i > 0 {
          assert Answers(reserve, next, headers[1..])[i - 1].QuotaExhausted?;
        }
      }
    }
  }

  // ---------------------------------------------------------------- calls at the same time

  /** A call in flight passed the check and has not had its response; it may still report a header. */
  datatype Client = Client(remaining: Option<int>, inFlight: nat)
  datatype ClientEvent = Call | Respond(header: Option<int>)

  predicate ClientEnabled(c: Client, e: ClientEvent) { e.Respond? ==> c.inFlight > 0 }

  function ClientStep(reserve: int, c: Client, e: ClientEvent): Client {
    match e
    case Call => if AtReserve(reserve, c.remaining) then c else c.(inFlight := c.inFlight + 1)
    case Respond(header) => Client(Seen(c.remaining, header), if c.inFlight > 0 then c.inFlight - 1 else 0)
  }

  function ClientRun(reserve: int, c: Client, run: seq<ClientEvent>): Option<Client> {
    if run == [] then Some(c)
    else
      var n := |run| - 1;
      var p := ClientRun(reserve, c, run[..n]);
      if p.Some? && ClientEnabled(p.value, run[n]) then Some(ClientStep(reserve, p.value, run[n])) else None
  }

  /** A response that reports more than the reserve. */
  predicate Lifts(reserve: int, e: ClientEvent) { e.Respond? && e.header.Some? && e.header.value > reserve }

  /**
   * With calls at the same time the stop lasts until a late answer: from a client at its reserve no call is ever
   * sent unless one of those in flight at that time still reports more, and without any in flight it lasts for ever.
   */
  lemma {:induction false} StopLastsUntilALateAnswer(reserve: int, c: Client, run: seq<ClientEvent>)
    requires AtReserve(reserve, c.remaining) && ClientRun(reserve, c, run).Some?
    requires forall i | 0 <= i < |run| :: !Lifts(reserve, run[i])
    ensures var d := ClientRun(reserve, c, run).value;
            && AtReserve(reserve, d.remaining) && d.inFlight <= c.inFlight
            && ClientStep(reserve, d, Call) == d
  {
    if run != [] {
      var n := |run| - 1;
      assert forall i | 0 <= i < n :: run[..n][i] == run[i];
      StopLastsUntilALateAnswer(reserve, c, run[..n]);
      assert !Lifts(reserve, run[n]);
    }
  }

  /** With no call in flight no answer can come, so the stop is final. */
  lemma {:induction false} StopIsFinalWithNoneInFlight(reserve: int, c: Client, run: seq<ClientEvent>)
    requires AtReserve(reserve, c.remaining) && c.inFlight == 0 && ClientRun(reserve, c, run).Some?
    ensures ClientRun(reserve, c, run) == Some(c)
  {
    if run != [] { StopIsFinalWithNoneInFlight(reserve, c, run[..|run| - 1]); }
  }
}
