/** Writes that may have to be retried, within a scope that may change
    (apps/web/lib/use-scoped-operation.ts). */
module ScopedWrites {
  import opened Options

  type Key = nat
  type FlightId = nat

  /** What is sent: path, method, body and token. */
  type Content = seq<nat>

  datatype Operation = Operation(key: Key, content: Content)
  datatype Flight = Flight(operation: Operation, generation: nat)

  /** How a request ends: a receipt that validates (after which the caller's completion
      runs, and may throw), a receipt that does not, a definite refusal, or a failure
      that leaves open whether the write happened. */
  datatype Outcome = Confirmed(throws: bool) | Doubtful | Refused | Failed

  /** What has happened, each with the epoch it belongs to. */
  datatype Event =
    | Sent(operation: Operation, epoch: nat)
    | Known(key: Key, epoch: nat)
    | Committed(key: Key, epoch: nat, threw: bool)

  datatype Hook = Hook(
    epoch: nat, lock: bool, unresolved: Option<Operation>, pending: bool, writing: bool,
    nextKey: Key, nextFlight: FlightId, flights: map<FlightId, Flight>, log: seq<Event>)

  datatype Action = Write(content: Content) | Retry | Settle(flight: FlightId, outcome: Outcome) | ChangeScope | Unmount

  predicate Start(h: Hook) {
    !h.lock && h.unresolved.None? && h.flights == map[] && h.log == []
  }

  function Execute(h: Hook, operation: Operation): Hook {
    if h.lock then h
    else
      h.(lock := true, writing := true, nextFlight := h.nextFlight + 1,
         flights := h.flights[h.nextFlight := Flight(operation, h.epoch)],
         log := h.log + [Sent(operation, h.epoch)])
  }

  /** The part of an answer's effect that only an answer of the current epoch has. */
  function Concluded(h: Hook, operation: Operation, outcome: Outcome): Hook {
    match outcome
    case Confirmed(throws) =>
      h.(unresolved := if throws then Some(operation) else None, pending := throws,
         log := h.log + [Known(operation.key, h.epoch), Committed(operation.key, h.epoch, throws)])
    case Refused => h.(unresolved := None, pending := false, log := h.log + [Known(operation.key, h.epoch)])
    case Doubtful => h.(unresolved := Some(operation), pending := true)
    case Failed => h.(unresolved := Some(operation), pending := true)
  }

  function Arrived(h: Hook, flight: FlightId, outcome: Outcome): Hook
    requires flight in h.flights
  {
    var f := h.flights[flight];
    var landed := h.(flights := h.flights - {flight});
    if f.generation != h.epoch then landed
    else Concluded(landed, f.operation, outcome).(lock := false, writing := false)
  }

  predicate Enabled(h: Hook, a: Action) {
    a.Settle? ==> a.flight in h.flights
  }

  function Step(h: Hook, a: Action): Hook
    requires Enabled(h, a)
  {
    match a
    case Write(content) =>
      if h.lock || h.unresolved.Some? then h
      else Execute(h.(nextKey := h.nextKey + 1), Operation(h.nextKey, content))
    case Retry => if h.unresolved.Some? then Execute(h, h.unresolved.value) else h
    case Settle(flight, outcome) => Arrived(h, flight, outcome)
    case ChangeScope => h.(epoch := h.epoch + 2, lock := false, unresolved := None, pending := false, writing := false)
    case Unmount => h.(epoch := h.epoch + 1, unresolved := None)
  }

  // ---------- invariants ----------

  /** Some request with the key was sent in the epoch and nothing is known of it since. */
  ghost predicate Open(log: seq<Event>, key: Key, epoch: nat) {
    exists i :: OpenSince(log, key, epoch, i)
  }

  ghost predicate OpenSince(log: seq<Event>, key: Key, epoch: nat, i: int) {
    && 0 <= i < |log| && log[i].Sent? && log[i].operation.key == key && log[i].epoch == epoch
    && forall j | i < j < |log| :: log[j] != Known(key, epoch)
  }

  /** Every request sent has a key handed out before; equal keys mean equal requests of
      one epoch. */
  ghost predicate SentOk(h: Hook) {
    && (forall i {:trigger h.log[i].Sent?} | 0 <= i < |h.log| && h.log[i].Sent? ::
          h.log[i].operation.key < h.nextKey && h.log[i].epoch <= h.epoch)
    && forall i, j {:trigger SameRequest(h.log, i, j)} | 0 <= i < |h.log| && 0 <= j < |h.log| :: SameRequest(h.log, i, j)
  }

  ghost predicate SameRequest(log: seq<Event>, i: nat, j: nat)
    requires i < |log| && j < |log|
  {
    log[i].Sent? && log[j].Sent? && log[i].operation.key == log[j].operation.key ==> log[i] == log[j]
  }

  ghost predicate WasSent(log: seq<Event>, operation: Operation, epoch: nat) {
    Sent(operation, epoch) in log
  }

  /** Flights of the current epoch hold the lock, and there is at most one. */
  ghost predicate FlightsOk(h: Hook) {
    && (forall f {:trigger h.flights[f]} | f in h.flights ::
          f < h.nextFlight && WasSent(h.log, h.flights[f].operation, h.flights[f].generation)
          && (h.flights[f].generation == h.epoch ==> h.lock))
    && (forall f, g {:trigger Alone(h, f, g)} | f in h.flights && g in h.flights :: Alone(h, f, g))
    && (h.unresolved.Some? ==> WasSent(h.log, h.unresolved.value, h.epoch))
    && (forall f {:trigger Agrees(h, f)} | f in h.flights :: Agrees(h, f))
  }

  /** What is under way in the current epoch is what is retained, if anything is. */
  ghost predicate Agrees(h: Hook, f: FlightId)
    requires f in h.flights
  {
    h.unresolved.Some? && h.flights[f].generation == h.epoch ==> h.flights[f].operation == h.unresolved.value
  }

  ghost predicate Alone(h: Hook, f: FlightId, g: FlightId)
    requires f in h.flights && g in h.flights
  {
    h.flights[f].generation == h.epoch && h.flights[g].generation == h.epoch ==> f == g
  }

  /** An open request of the current epoch is retained, or under way. */
  ghost predicate Retained(h: Hook, key: Key) {
    || (h.unresolved.Some? && h.unresolved.value.key == key)
    || exists f | f in h.flights :: h.flights[f].generation == h.epoch && h.flights[f].operation.key == key
  }

  ghost predicate OpenOk(h: Hook) {
    forall key {:trigger Open(h.log, key, h.epoch)} | Open(h.log, key, h.epoch) :: Retained(h, key)
  }

  ghost predicate Inv(h: Hook) {
    SentOk(h) && FlightsOk(h) && OpenOk(h)
  }

  lemma StartInv(h: Hook)
    requires Start(h)
    ensures Inv(h)
  {
  }

  lemma SendKeepsInv(h: Hook, operation: Operation)
    requires SentOk(h) && FlightsOk(h) && !h.lock
    requires operation.key < h.nextKey
    requires forall i | 0 <= i < |h.log| && h.log[i].Sent? && h.log[i].operation.key == operation.key :: h.log[i] == Sent(operation, h.epoch)
    requires forall key {:trigger Open(h.log, key, h.epoch)} | Open(h.log, key, h.epoch) :: key == operation.key
    requires h.unresolved.None? || h.unresolved.value == operation
    ensures Inv(Execute(h, operation))
  {
    var v := Execute(h, operation);
    var n := |h.log|;
    forall i, j | 0 <= i < |v.log| && 0 <= j < |v.log| ensures SameRequest(v.log, i, j) {
      if i < n && j < n {
        assert SameRequest(h.log, i, j);
      }
    }
    forall f | f in v.flights
      ensures WasSent(v.log, v.flights[f].operation, v.flights[f].generation) && f < v.nextFlight
    {
      if f in h.flights && f != h.nextFlight {
        assert WasSent(h.log, h.flights[f].operation, h.flights[f].generation);
      } else {
        assert v.log[n] == Sent(operation, h.epoch);
      }
    }
    forall f, g | f in v.flights && g in v.flights ensures Alone(v, f, g) {
      assert f != h.nextFlight ==> h.flights[f].generation != h.epoch;
      assert g != h.nextFlight ==> h.flights[g].generation != h.epoch;
    }
    forall f | f in v.flights ensures Agrees(v, f) {
      assert f in h.flights && f != h.nextFlight ==> Agrees(h, f);
    }
    if v.unresolved.Some? {
      assert WasSent(h.log, v.unresolved.value, v.epoch);
    }
    forall key | Open(v.log, key, v.epoch) ensures Retained(v, key) {
      var i :| OpenSince(v.log, key, v.epoch, i);
      if i < n {
        assert OpenSince(h.log, key, h.epoch, i) by {
          assert forall j | i < j < n :: v.log[j] == h.log[j];
        }
        assert Open(h.log, key, h.epoch);
      }
      assert v.flights[h.nextFlight] == Flight(operation, h.epoch);
    }
  }

  /** Nothing of the current epoch is under way while the lock is free. */
  lemma FreeMeansNoFlight(h: Hook, key: Key)
    requires Inv(h) && !h.lock && Open(h.log, key, h.epoch)
    ensures h.unresolved.Some? && h.unresolved.value.key == key
  {
    assert Retained(h, key);
  }

  lemma WriteKeepsInv(h: Hook, content: Content)
    requires Inv(h) && !h.lock && h.unresolved.None?
    ensures Inv(Step(h, Write(content)))
  {
    var g := h.(nextKey := h.nextKey + 1);
    assert FlightsOk(g) by {
      forall f | f in g.flights ensures Agrees(g, f) {
      }
      forall f, e | f in g.flights && e in g.flights ensures Alone(g, f, e) {
        assert Alone(h, f, e);
      }
    }
    forall key | Open(g.log, key, g.epoch) ensures false {
      FreeMeansNoFlight(h, key);
    }
    SendKeepsInv(g, Operation(h.nextKey, content));
  }

  lemma RetryKeepsInv(h: Hook)
    requires Inv(h) && !h.lock && h.unresolved.Some?
    ensures Inv(Step(h, Retry))
  {
    var operation := h.unresolved.value;
    var k :| 0 <= k < |h.log| && h.log[k] == Sent(operation, h.epoch);
    forall i | 0 <= i < |h.log| && h.log[i].Sent? && h.log[i].operation.key == operation.key
      ensures h.log[i] == Sent(operation, h.epoch)
    {
      assert SameRequest(h.log, i, k);
    }
    forall key | Open(h.log, key, h.epoch) ensures key == operation.key {
      FreeMeansNoFlight(h, key);
    }
    SendKeepsInv(h, operation);
  }

  /** In an epoch that has just begun nothing has been sent. */
  lemma NewEpochKeepsInv(h: Hook, v: Hook)
    requires Inv(h) && v.epoch > h.epoch && v.unresolved.None?
    requires v.log == h.log && v.flights == h.flights && v.nextKey == h.nextKey && v.nextFlight == h.nextFlight
    ensures Inv(v)
  {
    FlightsAreNoNewer(h);
    forall f, g | f in v.flights && g in v.flights ensures Alone(v, f, g) {
    }
    forall f | f in v.flights ensures Agrees(v, f) {
    }
    forall i, j | 0 <= i < |v.log| && 0 <= j < |v.log| ensures SameRequest(v.log, i, j) {
      assert SameRequest(h.log, i, j);
    }
    forall key ensures !Open(v.log, key, v.epoch) {
      forall i ensures !OpenSince(v.log, key, v.epoch, i) {
      }
    }
  }

  lemma LandedKeepsInv(h: Hook, flight: FlightId)
    requires Inv(h) && flight in h.flights && h.flights[flight].generation != h.epoch
    ensures Inv(h.(flights := h.flights - {flight}))
  {
    var v := h.(flights := h.flights - {flight});
    forall f, g | f in v.flights && g in v.flights ensures Alone(v, f, g) {
      assert Alone(h, f, g);
    }
    forall f | f in v.flights ensures Agrees(v, f) {
      assert Agrees(h, f);
    }
    forall key | Open(v.log, key, v.epoch) ensures Retained(v, key) {
      assert Retained(h, key);
      if f :| f in h.flights && h.flights[f].generation == h.epoch && h.flights[f].operation.key == key {
        assert f in v.flights && v.flights[f] == h.flights[f];
      }
    }
  }

  /** What an answer of the current epoch adds to the record names no other key. */
  lemma ConcludedKeepsInv(h: Hook, flight: FlightId, outcome: Outcome)
    requires Inv(h) && flight in h.flights && h.flights[flight].generation == h.epoch
    ensures Inv(Step(h, Settle(flight, outcome)))
  {
    var v, operation := Step(h, Settle(flight, outcome)), h.flights[flight].operation;
    assert WasSent(h.log, operation, h.epoch);
    assert Agrees(h, flight);
    SentStaysOk(h, v);
    forall f | f in v.flights
      ensures v.flights[f].generation != v.epoch && WasSent(v.log, v.flights[f].operation, v.flights[f].generation)
    {
      assert Alone(h, f, flight);
      assert WasSent(h.log, h.flights[f].operation, h.flights[f].generation);
    }
    forall f, g | f in v.flights && g in v.flights ensures Alone(v, f, g) {
    }
    forall f | f in v.flights ensures Agrees(v, f) {
    }
    forall key | Open(v.log, key, v.epoch) ensures Retained(v, key) {
      OnlyThisWasOpen(h, flight, v, key);
    }
  }

  lemma SentStaysOk(h: Hook, v: Hook)
    requires SentOk(h) && h.log <= v.log && v.epoch == h.epoch && v.nextKey == h.nextKey
    requires forall i | |h.log| <= i < |v.log| :: !v.log[i].Sent?
    ensures SentOk(v)
  {
    forall i, j | 0 <= i < |v.log| && 0 <= j < |v.log| ensures SameRequest(v.log, i, j) {
      if i < |h.log| && j < |h.log| {
        assert SameRequest(h.log, i, j);
      }
    }
  }

  lemma OnlyThisWasOpen(h: Hook, flight: FlightId, v: Hook, key: Key)
    requires Inv(h) && flight in h.flights && h.flights[flight].generation == h.epoch
    requires h.log <= v.log && v.epoch == h.epoch && (forall i | |h.log| <= i < |v.log| :: !v.log[i].Sent?)
    requires Open(v.log, key, v.epoch)
    ensures key == h.flights[flight].operation.key
    ensures Known(key, h.epoch) !in v.log[|h.log|..]
  {
    var i :| OpenSince(v.log, key, v.epoch, i);
    assert OpenSince(h.log, key, h.epoch, i) by {
      assert forall j | i < j < |h.log| :: v.log[j] == h.log[j];
    }
    assert Open(h.log, key, h.epoch);
    assert Retained(h, key);
    assert Agrees(h, flight);
    if f :| f in h.flights && h.flights[f].generation == h.epoch && h.flights[f].operation.key == key {
      assert Alone(h, f, flight);
    }
    forall j | |h.log| <= j < |v.log| ensures v.log[j] != Known(key, h.epoch) {
    }
  }

  lemma StepKeepsInv(h: Hook, a: Action)
    requires Inv(h) && Enabled(h, a)
    ensures Inv(Step(h, a))
  {
    match a
    case Write(content) =>
      if !h.lock && h.unresolved.None? {
        WriteKeepsInv(h, content);
      }
    case Retry =>
      if !h.lock && h.unresolved.Some? {
        RetryKeepsInv(h);
      }
    case Settle(flight, outcome) =>
      if h.flights[flight].generation == h.epoch {
        ConcludedKeepsInv(h, flight, outcome);
      } else {
        LandedKeepsInv(h, flight);
      }
    case ChangeScope => NewEpochKeepsInv(h, Step(h, a));
    case Unmount => NewEpochKeepsInv(h, Step(h, a));
  }

  // ---------- runs ----------

  ghost predicate Run(run: seq<Hook>, actions: seq<Action>) {
    && |run| == |actions| + 1 && Start(run[0])
    && forall k {:trigger StepAt(run, actions, k)} | 0 <= k < |actions| :: StepAt(run, actions, k)
  }

  ghost predicate StepAt(run: seq<Hook>, actions: seq<Action>, k: nat)
    requires k < |actions| && |run| == |actions| + 1
  {
    Enabled(run[k], actions[k]) && run[k + 1] == Step(run[k], actions[k])
  }

  lemma RunPrefix(run: seq<Hook>, actions: seq<Action>, n: nat)
    requires Run(run, actions) && n <= |actions|
    ensures Run(run[..n + 1], actions[..n])
  {
    var shorter, fewer := run[..n + 1], actions[..n];
    forall k | 0 <= k < n ensures StepAt(shorter, fewer, k) {
      assert StepAt(run, actions, k);
    }
  }

  lemma {:induction false} RunKeepsInv(run: seq<Hook>, actions: seq<Action>)
    requires Run(run, actions)
    ensures Inv(run[|actions|])
  {
    if actions == [] {
      StartInv(run[0]);
    } else {
      var n := |actions| - 1;
      RunPrefix(run, actions, n);
      RunKeepsInv(run[..n + 1], actions[..n]);
      assert StepAt(run, actions, n);
      StepKeepsInv(run[n], actions[n]);
    }
  }

  /** Requests with the same idempotency key are the same request, and are all sent in
      the same epoch. */
  lemma SameKeySameRequest(run: seq<Hook>, actions: seq<Action>, i: nat, j: nat)
    requires Run(run, actions) && i < |run[|actions|].log| && j < |run[|actions|].log|
    requires var log := run[|actions|].log;
      log[i].Sent? && log[j].Sent? && log[i].operation.key == log[j].operation.key
    ensures run[|actions|].log[i] == run[|actions|].log[j]
  {
    RunKeepsInv(run, actions);
    assert SameRequest(run[|actions|].log, i, j);
  }

  /** A new write is only sent when nothing sent in the current epoch is still open. */
  lemma WritesOnlyWhenSettled(run: seq<Hook>, actions: seq<Action>, content: Content)
    requires Run(run, actions)
    requires Step(run[|actions|], Write(content)).log != run[|actions|].log
    ensures forall key :: !Open(run[|actions|].log, key, run[|actions|].epoch)
    ensures forall i | 0 <= i < |run[|actions|].log| && run[|actions|].log[i].Sent? ::
      run[|actions|].log[i].operation.key != run[|actions|].nextKey
  {
    var h := run[|actions|];
    RunKeepsInv(run, actions);
    forall key ensures !Open(h.log, key, h.epoch) {
      if Open(h.log, key, h.epoch) {
        FreeMeansNoFlight(h, key);
      }
    }
  }

  // ---------- when a completion runs again ----------

  /** Neither retained nor under way in the current epoch, and not to be handed out again. */
  ghost predicate Closed(h: Hook, key: Key) {
    && key < h.nextKey
    && (h.unresolved.Some? ==> h.unresolved.value.key != key)
    && forall f | f in h.flights && h.flights[f].generation == h.epoch :: h.flights[f].operation.key != key
  }

  /** Every completion belongs to a request of its epoch; one that did not throw closed
      its key; and one that is followed by another of its key threw. */
  ghost predicate CommittedOk(h: Hook) {
    && (forall c {:trigger h.log[c].Committed?} | 0 <= c < |h.log| && h.log[c].Committed? ::
          HasIssued(h.log, h.log[c].key, h.log[c].epoch) && (!h.log[c].threw ==> Closed(h, h.log[c].key)))
    && forall c, d {:trigger ThrewBefore(h.log, c, d)} | 0 <= c < d < |h.log| :: ThrewBefore(h.log, c, d)
  }

  ghost predicate ThrewBefore(log: seq<Event>, c: nat, d: nat)
    requires c < |log| && d < |log|
  {
    log[c].Committed? && log[d].Committed? && log[c].key == log[d].key ==> log[c].threw
  }

  /** The request with the key was sent in the epoch. */
  ghost predicate HasIssued(log: seq<Event>, key: Key, epoch: nat) {
    exists i | 0 <= i < |log| :: log[i].Sent? && log[i].operation.key == key && log[i].epoch == epoch
  }

  lemma IssuedStays(log: seq<Event>, longer: seq<Event>, key: Key, epoch: nat)
    requires log <= longer && HasIssued(log, key, epoch)
    ensures HasIssued(longer, key, epoch)
  {
    var i :| 0 <= i < |log| && log[i].Sent? && log[i].operation.key == key && log[i].epoch == epoch;
    assert longer[i].Sent?;
  }

  lemma QuietKeepsCommitted(h: Hook, v: Hook)
    requires CommittedOk(h) && h.log <= v.log
    requires forall i | |h.log| <= i < |v.log| :: !v.log[i].Committed?
    requires forall key | Closed(h, key) :: Closed(v, key)
    ensures CommittedOk(v)
  {
    forall c | 0 <= c < |v.log| && v.log[c].Committed?
      ensures HasIssued(v.log, v.log[c].key, v.log[c].epoch) && (!v.log[c].threw ==> Closed(v, v.log[c].key))
    {
      assert h.log[c].Committed?;
      IssuedStays(h.log, v.log, v.log[c].key, v.log[c].epoch);
    }
    forall c, d | 0 <= c < d < |v.log| ensures ThrewBefore(v.log, c, d) {
      if d < |h.log| {
        assert ThrewBefore(h.log, c, d);
      }
    }
  }

  /** After an answer of the current epoch nothing of it is under way. */
  lemma NothingElseUnderWay(h: Hook, flight: FlightId, outcome: Outcome)
    requires Inv(h) && flight in h.flights && h.flights[flight].generation == h.epoch
    ensures var v := Step(h, Settle(flight, outcome));
      forall f | f in v.flights :: v.flights[f].generation != v.epoch
  {
    forall f | f in h.flights && f != flight ensures h.flights[f].generation != h.epoch {
      assert Alone(h, f, flight);
    }
  }

  lemma CommitKeepsCommitted(h: Hook, flight: FlightId, throws: bool)
    requires Inv(h) && CommittedOk(h) && flight in h.flights && h.flights[flight].generation == h.epoch
    ensures CommittedOk(Step(h, Settle(flight, Confirmed(throws))))
  {
    var v, operation := Step(h, Settle(flight, Confirmed(throws))), h.flights[flight].operation;
    var n := |h.log|;
    NothingElseUnderWay(h, flight, Confirmed(throws));
    assert WasSent(h.log, operation, h.epoch);
    var s :| 0 <= s < n && h.log[s] == Sent(operation, h.epoch);
    assert h.log[s].Sent? && v.log[s].Sent?;
    assert v.log[n] == Known(operation.key, h.epoch) && v.log[n + 1] == Committed(operation.key, h.epoch, throws);
    forall c | 0 <= c < |v.log| && v.log[c].Committed?
      ensures HasIssued(v.log, v.log[c].key, v.log[c].epoch) && (!v.log[c].threw ==> Closed(v, v.log[c].key))
    {
      if c < n {
        assert h.log[c].Committed?;
        IssuedStays(h.log, v.log, v.log[c].key, v.log[c].epoch);
      }
    }
    forall c, d | 0 <= c < d < |v.log| ensures ThrewBefore(v.log, c, d) {
      if d < n {
        assert ThrewBefore(h.log, c, d);
      } else if c < n && h.log[c].Committed? && !h.log[c].threw {
        assert Closed(h, h.log[c].key);
      }
    }
  }

  lemma StepKeepsCommitted(h: Hook, a: Action)
    requires Inv(h) && CommittedOk(h) && Enabled(h, a)
    ensures CommittedOk(Step(h, a))
  {
    if a.Settle? && a.outcome.Confirmed? && h.flights[a.flight].generation == h.epoch {
      CommitKeepsCommitted(h, a.flight, a.outcome.throws);
    } else {
      forall key | Closed(h, key) ensures Closed(Step(h, a), key) {
        StaysClosed(h, a, key);
      }
      QuietKeepsCommitted(h, Step(h, a));
    }
  }

  /** A closed key stays closed, and is not completed. */
  lemma StaysClosed(h: Hook, a: Action, key: Key)
    requires Inv(h) && Enabled(h, a) && Closed(h, key)
    ensures Closed(Step(h, a), key)
    ensures forall i | |h.log| <= i < |Step(h, a).log| && Step(h, a).log[i].Committed? :: Step(h, a).log[i].key != key
  {
    FlightsAreNoNewer(h);
  }

  lemma FlightsAreNoNewer(h: Hook)
    requires Inv(h)
    ensures forall f | f in h.flights :: h.flights[f].generation <= h.epoch
  {
    forall f | f in h.flights ensures h.flights[f].generation <= h.epoch {
      assert WasSent(h.log, h.flights[f].operation, h.flights[f].generation);
      var i :| 0 <= i < |h.log| && h.log[i] == Sent(h.flights[f].operation, h.flights[f].generation);
      assert h.log[i].Sent?;
    }
  }

  lemma {:induction false} RunKeepsCommitted(run: seq<Hook>, actions: seq<Action>)
    requires Run(run, actions)
    ensures CommittedOk(run[|actions|])
  {
    if actions != [] {
      var n := |actions| - 1;
      RunPrefix(run, actions, n);
      RunKeepsInv(run[..n + 1], actions[..n]);
      RunKeepsCommitted(run[..n + 1], actions[..n]);
      assert StepAt(run, actions, n);
      StepKeepsCommitted(run[n], actions[n]);
    }
  }

  /** Over any run a key is completed again only if every earlier completion of it
      threw, and all in the one epoch in which its request was sent. */
  lemma CommitsAgainOnlyAfterThrow(run: seq<Hook>, actions: seq<Action>, c: nat, d: nat)
    requires Run(run, actions) && c < d < |run[|actions|].log|
    requires var log := run[|actions|].log; log[c].Committed? && log[d].Committed? && log[c].key == log[d].key
    ensures run[|actions|].log[c].threw && run[|actions|].log[c].epoch == run[|actions|].log[d].epoch
  {
    var log := run[|actions|].log;
    RunKeepsCommitted(run, actions);
    assert ThrewBefore(log, c, d);
    CommitsInItsEpoch(run, actions, c);
    CommitsInItsEpoch(run, actions, d);
    var s :| 0 <= s < |log| && log[s].Sent? && log[s].operation.key == log[c].key && log[s].epoch == log[c].epoch;
  }

  lemma CommitsInItsEpoch(run: seq<Hook>, actions: seq<Action>, c: nat)
    requires Run(run, actions) && c < |run[|actions|].log| && run[|actions|].log[c].Committed?
    ensures HasIssued(run[|actions|].log, run[|actions|].log[c].key, run[|actions|].log[c].epoch)
    ensures forall i | 0 <= i < |run[|actions|].log| && run[|actions|].log[i].Sent?
      && run[|actions|].log[i].operation.key == run[|actions|].log[c].key :: run[|actions|].log[i].epoch == run[|actions|].log[c].epoch
  {
    var log := run[|actions|].log;
    RunKeepsInv(run, actions);
    RunKeepsCommitted(run, actions);
    var s :| 0 <= s < |log| && log[s].Sent? && log[s].operation.key == log[c].key && log[s].epoch == log[c].epoch;
    forall i | 0 <= i < |log| && log[i].Sent? && log[i].operation.key == log[c].key ensures log[i].epoch == log[c].epoch {
      assert SameRequest(log, i, s);
    }
  }

  /** A key whose completions do not throw is completed at most once, and only in the
      epoch in which its request was sent. */
  lemma CommitsAtMostOnce(run: seq<Hook>, actions: seq<Action>, c: nat)
    requires Run(run, actions) && c < |run[|actions|].log| && run[|actions|].log[c].Committed?
    requires forall d | 0 <= d < |run[|actions|].log| && run[|actions|].log[d].Committed?
      && run[|actions|].log[d].key == run[|actions|].log[c].key :: !run[|actions|].log[d].threw
    ensures var log := run[|actions|].log;
      && (forall d | 0 <= d < |log| && log[d].Committed? && log[d].key == log[c].key :: d == c)
      && (forall i | 0 <= i < |log| && log[i].Sent? && log[i].operation.key == log[c].key :: log[i].epoch == log[c].epoch)
  {
    var log := run[|actions|].log;
    CommitsInItsEpoch(run, actions, c);
    forall d | 0 <= d < |log| && log[d].Committed? && log[d].key == log[c].key ensures d == c {
      if d < c {
        CommitsAgainOnlyAfterThrow(run, actions, d, c);
      } else if c < d {
        CommitsAgainOnlyAfterThrow(run, actions, c, d);
      }
    }
  }

  /** Completed in the epoch of its request, every earlier completion having thrown. */
  ghost predicate Due(log: seq<Event>, c: nat)
    requires c < |log| && log[c].Committed?
  {
    && (forall i | 0 <= i < |log| && log[i].Sent? && log[i].operation.key == log[c].key :: log[i].epoch == log[c].epoch)
    && (forall d | 0 <= d < c && log[d].Committed? && log[d].key == log[c].key :: log[d].threw)
  }

  lemma CompletionsAreDue(run: seq<Hook>, actions: seq<Action>)
    requires Run(run, actions)
    ensures forall c {:trigger Due(run[|actions|].log, c)} | 0 <= c < |run[|actions|].log| && run[|actions|].log[c].Committed? ::
      Due(run[|actions|].log, c)
  {
    var log := run[|actions|].log;
    forall c | 0 <= c < |log| && log[c].Committed? ensures Due(log, c) {
      CommitsInItsEpoch(run, actions, c);
      forall d | 0 <= d < c && log[d].Committed? && log[d].key == log[c].key ensures log[d].threw {
        CommitsAgainOnlyAfterThrow(run, actions, d, c);
      }
    }
  }

  lemma RunGrows(run: seq<Hook>, actions: seq<Action>, a: Action)
    requires Run(run, actions) && Enabled(run[|actions|], a)
    ensures Run(run + [Step(run[|actions|], a)], actions + [a])
  {
    var longer, more := run + [Step(run[|actions|], a)], actions + [a];
    forall k | 0 <= k < |more| ensures StepAt(longer, more, k) {
      assert k < |actions| ==> StepAt(run, actions, k);
    }
  }

  /** Some continuation of the run completes the key once more. */
  ghost predicate CommitsLater(run: seq<Hook>, actions: seq<Action>, key: Key)
    requires Run(run, actions)
  {
    exists longer: seq<Hook>, more: seq<Action> :: Continues(run, actions, longer, more) && CommittedSince(run[|actions|].log, longer[|more|].log, key)
  }

  ghost predicate Continues(run: seq<Hook>, actions: seq<Action>, longer: seq<Hook>, more: seq<Action>) {
    Run(longer, more) && run <= longer && actions <= more
  }

  ghost predicate CommittedSince(log: seq<Event>, longer: seq<Event>, key: Key) {
    exists c | |log| <= c < |longer| :: longer[c].Committed? && longer[c].key == key
  }

  /** What is retained while the lock is taken is under way. */
  ghost predicate LockOk(h: Hook) {
    h.unresolved.Some? && h.lock ==> exists f | f in h.flights :: h.flights[f].generation == h.epoch
  }

  lemma StepKeepsLock(h: Hook, a: Action)
    requires Inv(h) && LockOk(h) && Enabled(h, a)
    ensures LockOk(Step(h, a))
  {
    var v := Step(h, a);
    if v.unresolved.Some? && v.lock && h.unresolved.Some? && h.lock {
      var f :| f in h.flights && h.flights[f].generation == h.epoch;
      assert f in v.flights;
    }
    if v.unresolved.Some? && v.lock && !h.lock {
      assert v.flights[h.nextFlight].generation == v.epoch;
    }
  }

  lemma {:induction false} RunKeepsLock(run: seq<Hook>, actions: seq<Action>)
    requires Run(run, actions)
    ensures LockOk(run[|actions|])
  {
    if actions != [] {
      var n := |actions| - 1;
      RunPrefix(run, actions, n);
      RunKeepsInv(run[..n + 1], actions[..n]);
      RunKeepsLock(run[..n + 1], actions[..n]);
      assert StepAt(run, actions, n);
      StepKeepsLock(run[n], actions[n]);
    }
  }

  lemma {:induction false} ClosedForever(run: seq<Hook>, actions: seq<Action>, n: nat, key: Key)
    requires Run(run, actions) && n <= |actions| && Closed(run[n], key)
    ensures Closed(run[|actions|], key) && run[n].log <= run[|actions|].log
    ensures !CommittedSince(run[n].log, run[|actions|].log, key)
    decreases |actions|
  {
    if n < |actions| {
      var m := |actions| - 1;
      RunPrefix(run, actions, m);
      ClosedForever(run[..m + 1], actions[..m], n, key);
      RunKeepsInv(run[..m + 1], actions[..m]);
      assert StepAt(run, actions, m);
      StaysClosed(run[m], actions[m], key);
      forall c | |run[n].log| <= c < |run[|actions|].log| && run[|actions|].log[c].Committed?
        ensures run[|actions|].log[c].key != key
      {
        assert c < |run[m].log| ==> run[m].log[c] == run[|actions|].log[c];
      }
    }
  }

  /** An answer to what is under way in the current epoch completes it. */
  lemma AnswerCommits(run: seq<Hook>, actions: seq<Action>, flight: FlightId)
    returns (longer: seq<Hook>, more: seq<Action>)
    requires Run(run, actions) && flight in run[|actions|].flights
    requires run[|actions|].flights[flight].generation == run[|actions|].epoch
    ensures Continues(run, actions, longer, more)
    ensures longer[|more|].log == run[|actions|].log
      + [Known(run[|actions|].flights[flight].operation.key, run[|actions|].epoch),
         Committed(run[|actions|].flights[flight].operation.key, run[|actions|].epoch, false)]
  {
    var a := Settle(flight, Confirmed(false));
    RunGrows(run, actions, a);
    longer, more := run + [Step(run[|actions|], a)], actions + [a];
  }

  /** What is retained with a free lock is completed by a retry and its answer. */
  lemma RetryCommits(run: seq<Hook>, actions: seq<Action>) returns (longer: seq<Hook>, more: seq<Action>)
    requires Run(run, actions) && run[|actions|].unresolved.Some? && !run[|actions|].lock
    ensures Continues(run, actions, longer, more)
    ensures CommittedSince(run[|actions|].log, longer[|more|].log, run[|actions|].unresolved.value.key)
  {
    var h := run[|actions|];
    RunGrows(run, actions, Retry);
    var sent := Step(h, Retry);
    longer, more := AnswerCommits(run + [sent], actions + [Retry], h.nextFlight);
    var c := |h.log| + 2;
    assert longer[|more|].log[c] == Committed(h.unresolved.value.key, h.epoch, false);
  }

  /** From any reachable state, a key that has been handed out can still be completed
      exactly if it is retained or under way in the current epoch. */
  lemma CommitsLaterExactly(run: seq<Hook>, actions: seq<Action>, key: Key)
    requires Run(run, actions) && key < run[|actions|].nextKey
    ensures CommitsLater(run, actions, key) <==> Retained(run[|actions|], key)
  {
    var h := run[|actions|];
    if Retained(h, key) {
      RunKeepsInv(run, actions);
      RunKeepsLock(run, actions);
      var longer, more;
      if flight :| flight in h.flights && h.flights[flight].generation == h.epoch {
        assert Agrees(h, flight);
        assert forall f | f in h.flights && h.flights[f].generation == h.epoch :: Alone(h, f, flight);
        longer, more := AnswerCommits(run, actions, flight);
        assert longer[|more|].log[|h.log| + 1] == Committed(key, h.epoch, false);
      } else {
        longer, more := RetryCommits(run, actions);
      }
      assert CommittedSince(h.log, longer[|more|].log, key);
    } else {
      assert Closed(h, key);
      forall longer: seq<Hook>, more: seq<Action> | Continues(run, actions, longer, more) ensures !CommittedSince(h.log, longer[|more|].log, key) {
        assert longer[|actions|] == h;
        ClosedForever(longer, more, |actions|, key);
      }
    }
  }

  /** Right after a completion of the current epoch, the key can be completed again if
      and only if that completion threw: it is taken for a failed write and retained. */
  lemma CommitsTwiceExactlyAfterThrow(run: seq<Hook>, actions: seq<Action>, flight: FlightId, throws: bool)
    requires Run(run, actions) && flight in run[|actions|].flights
    requires run[|actions|].flights[flight].generation == run[|actions|].epoch
    ensures var a := Settle(flight, Confirmed(throws));
      var after, so := run + [Step(run[|actions|], a)], actions + [a];
      var key := run[|actions|].flights[flight].operation.key;
      && Run(after, so) && Committed(key, run[|actions|].epoch, throws) in after[|so|].log
      && (CommitsLater(after, so, key) <==> throws)
  {
    var h, a := run[|actions|], Settle(flight, Confirmed(throws));
    var key := h.flights[flight].operation.key;
    RunKeepsInv(run, actions);
    RunGrows(run, actions, a);
    NothingElseUnderWay(h, flight, Confirmed(throws));
    assert WasSent(h.log, h.flights[flight].operation, h.epoch);
    var s :| 0 <= s < |h.log| && h.log[s] == Sent(h.flights[flight].operation, h.epoch);
    assert h.log[s].Sent?;
    var v := Step(h, a);
    assert v.log[|h.log| + 1] == Committed(key, h.epoch, throws);
    CommitsLaterExactly(run + [v], actions + [a], key);
  }

  /** For instance: one write, whose completion throws and runs again after a retry. */
  lemma ThrowingCompletionRunsTwice() returns (run: seq<Hook>, actions: seq<Action>)
    ensures Run(run, actions)
    ensures var log := run[|actions|].log;
      |log| == 6 && log[2] == Committed(0, 1, true) && log[5] == Committed(0, 1, false)
  {
    var h := Hook(1, false, None, false, false, 0, 0, map[], []);
    run, actions := [h], [];
    run, actions := Extend(run, actions, Write([]));
    run, actions := Extend(run, actions, Settle(0, Confirmed(true)));
    run, actions := Extend(run, actions, Retry);
    run, actions := Extend(run, actions, Settle(1, Confirmed(false)));
  }

  lemma Extend(run: seq<Hook>, actions: seq<Action>, a: Action) returns (longer: seq<Hook>, more: seq<Action>)
    requires Run(run, actions) && Enabled(run[|actions|], a)
    ensures Run(longer, more) && |more| == |actions| + 1
    ensures longer[|more|] == Step(run[|actions|], a)
  {
    RunGrows(run, actions, a);
    longer, more := run + [Step(run[|actions|], a)], actions + [a];
  }

  // ---------- what each action comes to ----------

  /** A request goes out: it is under way in this epoch, holds the lock and is recorded. */
  ghost predicate GoesOut(h: Hook, v: Hook, operation: Operation) {
    && v.lock && v.writing && v.log == h.log + [Sent(operation, h.epoch)]
    && v.flights == h.flights[h.nextFlight := Flight(operation, h.epoch)] && v.nextFlight == h.nextFlight + 1
    && v.epoch == h.epoch && v.unresolved == h.unresolved && v.pending == h.pending
  }

  /** A write goes out exactly if nothing is retained and nothing holds the lock, and then
      under the next key; a retry exactly if something is retained and the lock is free,
      and then it is that. */
  lemma SendsExactly(h: Hook, content: Content)
    ensures var v := Step(h, Write(content));
      if h.unresolved.None? && !h.lock then
        GoesOut(h, v, Operation(h.nextKey, content)) && v.nextKey == h.nextKey + 1
      else v == h
    ensures var v := Step(h, Retry);
      if h.unresolved.Some? && !h.lock then GoesOut(h, v, h.unresolved.value) && v.nextKey == h.nextKey else v == h
  {
  }

  /** What is retained and reported after an answer of the current epoch: the request, if
      it failed, if its receipt does not validate or if its completion threw. */
  ghost predicate Settles(h: Hook, v: Hook, operation: Operation, outcome: Outcome) {
    var kept := outcome.Failed? || outcome.Doubtful? || (outcome.Confirmed? && outcome.throws);
    && v.unresolved == (if kept then Some(operation) else None) && v.pending == kept
    && !v.lock && !v.writing && v.epoch == h.epoch && v.nextKey == h.nextKey && v.nextFlight == h.nextFlight
    && v.log == h.log + (if outcome.Failed? || outcome.Doubtful? then [] else [Known(operation.key, h.epoch)])
         + (if outcome.Confirmed? then [Committed(operation.key, h.epoch, outcome.throws)] else [])
  }

  lemma AnswerSettles(h: Hook, flight: FlightId, outcome: Outcome)
    requires Enabled(h, Settle(flight, outcome))
    ensures var v, f := Step(h, Settle(flight, outcome)), h.flights[flight];
      && v.flights == h.flights - {flight}
      && (f.generation == h.epoch ==> Settles(h, v, f.operation, outcome))
      && (f.generation != h.epoch ==> v == h.(flights := v.flights))
  {
  }

  /** After a refusal or a completion that did not throw, the next write goes out; after
      anything else only a retry does, and it is the same request. */
  lemma NextAfterAnswer(h: Hook, flight: FlightId, outcome: Outcome, content: Content)
    requires Enabled(h, Settle(flight, outcome)) && h.flights[flight].generation == h.epoch
    ensures var v := Step(h, Settle(flight, outcome));
      if outcome.Refused? || outcome == Confirmed(false) then
        GoesOut(v, Step(v, Write(content)), Operation(v.nextKey, content)) && Step(v, Retry) == v
      else Step(v, Write(content)) == v && GoesOut(v, Step(v, Retry), h.flights[flight].operation)
  {
    AnswerSettles(h, flight, outcome);
    SendsExactly(Step(h, Settle(flight, outcome)), content);
  }

  // ---------- the hook as the program changes it ----------

  class ScopedOperation {
    var epoch: nat
    var lock: bool
    var unresolved: Option<Operation>
    var pending: bool
    var writing: bool
    var nextKey: Key
    var nextFlight: FlightId
    var flights: map<FlightId, Flight>
    ghost var log: seq<Event>
    ghost var run: seq<Hook>          // every state since mounting
    ghost var actions: seq<Action>    // what led from each to the next

    /** The hook's life so far is a run. */
    ghost predicate Valid()
      reads this
    {
      Run(run, actions) && run[|actions|] == View()
    }

    /** One action has been taken. */
    twostate predicate Took(a: Action)
      reads this
    {
      Valid() && old(Valid()) && actions == old(actions) + [a] && run == old(run) + [View()]
    }

    /** Mounting runs the scope effect once. */
    constructor ()
      ensures Valid() && actions == []
    {
      epoch, lock, unresolved, pending, writing := 1, false, None, false, false;
      nextKey, nextFlight, flights, log := 0, 0, map[], [];
      run, actions := [Hook(1, false, None, false, false, 0, 0, map[], [])], [];
    }

    ghost function View(): Hook
      reads this
    {
      Hook(epoch, lock, unresolved, pending, writing, nextKey, nextFlight, flights, log)
    }

    ghost method Note(a: Action)
      requires Run(run, actions) && Enabled(run[|actions|], a) && View() == Step(run[|actions|], a)
      modifies this`run, this`actions
      ensures Valid() && actions == old(actions) + [a] && run == old(run) + [View()]
    {
      RunGrows(run, actions, a);
      run, actions := run + [View()], actions + [a];
    }

    method Send(operation: Operation)
      modifies this`lock, this`writing, this`flights, this`nextFlight, this`log
      ensures View() == Execute(old(View()), operation)
    {
      if lock {
        return;
      }
      lock, writing := true, true;
      flights := flights[nextFlight := Flight(operation, epoch)];
      nextFlight := nextFlight + 1;
      log := log + [Sent(operation, epoch)];
    }

    /** A new write. It goes out exactly when nothing is retained and nothing holds the
        lock; then the outcome of everything sent in this scope is known, and its key is
        one that no request has had. Otherwise nothing happens. */
    method StartWrite(content: Content)
      requires Valid()
      modifies this
      ensures Took(Write(content))
      ensures log == old(log) || log == old(log) + [Sent(Operation(old(nextKey), content), epoch)]
      ensures log != old(log) ==>
        && (forall key :: !Open(old(log), key, epoch))
        && forall i | 0 <= i < |old(log)| && old(log)[i].Sent? :: old(log)[i].operation.key != old(nextKey)
      ensures log == old(log) ==> View() == old(View())
      ensures if old(unresolved.None? && !lock) then
          GoesOut(old(View()), View(), Operation(old(nextKey), content)) && nextKey == old(nextKey) + 1
        else View() == old(View())
    {
      ghost var before := View();
      if !lock && unresolved.None? {
        WritesOnlyWhenSettled(run, actions, content);
        var key := nextKey;
        nextKey := nextKey + 1;
        Send(Operation(key, content));
      }
      assert View() == Step(before, Write(content));
      Note(Write(content));
    }

    /** A retry sends what is retained, if the lock is free: a request already sent in this
        epoch, and nothing else. */
    method RetryWrite()
      requires Valid()
      modifies this
      ensures Took(Retry)
      ensures log == old(log) || exists i | 0 <= i < |old(log)| ::
        old(log)[i].Sent? && old(log)[i].epoch == epoch && log == old(log) + [old(log)[i]]
      ensures if old(unresolved.Some? && !lock) then GoesOut(old(View()), View(), old(unresolved).value)
        else View() == old(View())
    {
      ghost var before := View();
      RunKeepsInv(run, actions);
      if unresolved.Some? {
        assert WasSent(log, unresolved.value, epoch);
        Send(unresolved.value);
      }
      Note(Retry);
    }

    /** The answer to a request, or its failure, has arrived. An answer from another
        epoch changes nothing; a completion runs only in the epoch of its request, and
        only if every earlier one of the same key threw. */
    method Answered(flight: FlightId, outcome: Outcome)
      requires Valid() && Enabled(View(), Settle(flight, outcome))
      modifies this
      ensures Took(Settle(flight, outcome))
      ensures flights == old(flights) - {flight}
      ensures old(flights[flight].generation) != epoch ==> View() == old(View()).(flights := flights)
      ensures old(flights[flight].generation) == epoch ==> Settles(old(View()), View(), old(flights[flight]).operation, outcome)
      ensures old(log) <= log
      ensures forall c {:trigger Due(log, c)} | |old(log)| <= c < |log| && log[c].Committed? :: log[c].epoch == epoch && Due(log, c)
    {
      Land(flight, outcome);
      Note(Settle(flight, outcome));
      CompletionsAreDue(run, actions);
    }

    method Land(flight: FlightId, outcome: Outcome)
      requires flight in flights
      modifies this`flights, this`lock, this`writing, this`unresolved, this`pending, this`log
      ensures View() == Arrived(old(View()), flight, outcome)
      ensures old(log) <= log && forall c | |old(log)| <= c < |log| && log[c].Committed? :: log[c].epoch == epoch
    {
      var f := flights[flight];
      flights := flights - {flight};
      if f.generation == epoch {
        Conclude(f.operation, outcome);
        lock, writing := false, false;
      }
    }

    method Conclude(operation: Operation, outcome: Outcome)
      modifies this`unresolved, this`pending, this`log
      ensures View() == Concluded(old(View()), operation, outcome)
    {
      match outcome {
        case Confirmed(throws) =>
          unresolved, pending := None, false;
          log := log + [Known(operation.key, epoch), Committed(operation.key, epoch, throws)];
          if throws {
            unresolved, pending := Some(operation), true;
          }
        case Refused =>
          unresolved, pending := None, false;
          log := log + [Known(operation.key, epoch)];
        case Doubtful =>
          unresolved, pending := Some(operation), true;
        case Failed =>
          unresolved, pending := Some(operation), true;
      }
    }

    /** The cleanup when the hook goes away: whatever is still to come is late. */
    method LeaveScope()
      requires Valid()
      modifies this
      ensures Took(Unmount) && unresolved.None? && epoch > old(epoch)
      ensures forall f | f in flights :: flights[f].generation != epoch
    {
      RunKeepsInv(run, actions);
      FlightsAreNoNewer(View());
      epoch := epoch + 1;
      unresolved := None;
      Note(Unmount);
    }

    /** A new scope: nothing is open in its epoch, the next write goes out, and every
        answer still to come is late. */
    method SwitchScope()
      requires Valid()
      modifies this
      ensures Took(ChangeScope) && unresolved.None? && !lock && !pending && !writing && epoch > old(epoch)
      ensures forall f | f in flights :: flights[f].generation != epoch
      ensures forall key :: !Open(log, key, epoch)
      ensures forall content :: Step(View(), Write(content)).log != log
    {
      RunKeepsInv(run, actions);
      FlightsAreNoNewer(View());
      epoch := epoch + 2;
      lock, unresolved, pending, writing := false, None, false, false;
      Note(ChangeScope);
      RunKeepsInv(run, actions);
      forall key ensures !Open(log, key, epoch) {
        if Open(log, key, epoch) {
          FreeMeansNoFlight(View(), key);
        }
      }
    }
  }
}
