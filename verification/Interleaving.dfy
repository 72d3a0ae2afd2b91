/**
 Any number of clients, each free to read any object at any time, to compute a batch from
 whatever snapshots it still holds, however old, and to submit any batch it has computed,
 any number of times.  The store they reach is the one that the committed operations reach
 when each runs alone, in commit order.
 */
module Interleaving {
  import opened Basics
  import opened ReservationData
  import opened EditFunctions
  import opened Store

  /** A call of an edit function on the snapshots that a client holds. */
  datatype Call =
    | CreateCall(r: Snapshot<Restaurant>, t: Snapshot<Table>, request: CreateRequest)
    | AuthorizeCall(v: Snapshot<Reservation>, t: Snapshot<Table>, attemptId: string, payment: string, at: int)
    | CancelCall(v: Snapshot<Reservation>, t: Snapshot<Table>, cancellationId: string, at: int)

  function Compute(call: Call): Result<Batch, Error> {
    match call
    case CreateCall(r, t, request) => CreateReservation(r, t, request)
    case AuthorizeCall(v, t, attemptId, payment, at) => AuthorizeDeposit(v, t, attemptId, payment, at)
    case CancelCall(v, t, cancellationId, at) => CancelReservation(v, t, cancellationId, at)
  }

  function Operation(call: Call): Op {
    match call
    case CreateCall(r, t, request) => Create(r.objectId, t.objectId, request)
    case AuthorizeCall(v, t, attemptId, payment, at) => Authorize(v.objectId, t.objectId, attemptId, payment, at)
    case CancelCall(v, t, cancellationId, at) => Cancel(v.objectId, t.objectId, cancellationId, at)
  }

  datatype Client = Client(
    restaurants: set<Snapshot<Restaurant>>,
    tables: set<Snapshot<Table>>,
    reservations: set<Snapshot<Reservation>>,
    computed: map<Call, Batch>)
  {
    predicate Holds(call: Call) {
      match call
      case CreateCall(r, t, _) => r in restaurants && t in tables
      case AuthorizeCall(v, t, _, _, _) => v in reservations && t in tables
      case CancelCall(v, t, _, _) => v in reservations && t in tables
    }
  }

  /** The shared store, the clients, and the operations committed so far. */
  datatype System = System(store: Store, clients: map<nat, Client>, log: seq<Op>) {
    function Get(c: nat): Client {
      if c in clients then clients[c] else Client({}, {}, {}, map[])
    }
  }

  datatype Event =
    | ReadRestaurant(client: nat, id: Id)
    | ReadTable(client: nat, id: Id)
    | ReadReservation(client: nat, id: Id)
    | ComputeBatch(client: nat, call: Call)
    | Submit(client: nat, call: Call)
    | Configure(op: Op)

  /** One step; an event that is not possible, or a submission that is refused, changes nothing. */
  function Step(y: System, e: Event): System {
    match e
    case ReadRestaurant(c, id) =>
      if id !in y.store.restaurants then y
      else
        var k := y.Get(c);
        y.(clients := y.clients[c := k.(restaurants := k.restaurants + {Snap(y.store.restaurants, id)})])
    case ReadTable(c, id) =>
      if id !in y.store.tables then y
      else
        var k := y.Get(c);
        y.(clients := y.clients[c := k.(tables := k.tables + {Snap(y.store.tables, id)})])
    case ReadReservation(c, id) =>
      if id !in y.store.reservations then y
      else
        var k := y.Get(c);
        y.(clients := y.clients[c := k.(reservations := k.reservations + {Snap(y.store.reservations, id)})])
    case ComputeBatch(c, call) =>
      var k := y.Get(c);
      if !k.Holds(call) || Compute(call).Err? then y
      else y.(clients := y.clients[c := k.(computed := k.computed[call := Compute(call).value])])
    case Submit(c, call) =>
      if call !in y.Get(c).computed then y
      else
        (match Commit(y.store, y.Get(c).computed[call])
         case None => y
         case Some(s) => y.(store := s, log := y.log + [Operation(call)]))
    case Configure(op) =>
      if op.EditsLedger() then y
      else
        (match RunAlone(y.store, op)
         case None => y
         case Some(s) => y.(store := s, log := y.log + [op]))
  }

  function Steps(y: System, events: seq<Event>): System {
    if events == [] then y else Step(Steps(y, events[..|events| - 1]), events[|events| - 1])
  }

  // ----- snapshots stay truthful

  /** A snapshot is no newer than its object, and has its contents if it has its version. */
  ghost predicate Truthful<T(!new)>(seen: set<Snapshot<T>>, objects: map<Id, Versioned<T>>) {
    forall s :: s in seen ==>
                  && s.objectId in objects
                  && s.objectVersion <= objects[s.objectId].version
                  && (s.objectVersion == objects[s.objectId].version ==> s.value == objects[s.objectId].value)
  }

  ghost predicate ClientInv(k: Client, s: Store) {
    && Truthful(k.restaurants, s.restaurants)
    && Truthful(k.tables, s.tables)
    && Truthful(k.reservations, s.reservations)
    && forall call :: call in k.computed ==> k.Holds(call) && Compute(call) == Ok(k.computed[call])
  }

  /** Objects are never removed, and a changed object has a higher version. */
  ghost predicate Grows<T(!new)>(before: map<Id, Versioned<T>>, after: map<Id, Versioned<T>>) {
    forall id :: id in before ==>
                   && id in after
                   && (after[id] == before[id] || after[id].version > before[id].version)
  }

  lemma TruthfulGrows<T(!new)>(seen: set<Snapshot<T>>, before: map<Id, Versioned<T>>, after: map<Id, Versioned<T>>)
    requires Truthful(seen, before) && Grows(before, after)
    ensures Truthful(seen, after)
  {
  }

  ghost predicate StoreGrows(s: Store, s': Store) {
    Grows(s.restaurants, s'.restaurants) && Grows(s.tables, s'.tables) && Grows(s.reservations, s'.reservations)
  }

  lemma CommitGrows(s: Store, batch: Batch)
    requires Commit(s, batch).Some?
    ensures StoreGrows(s, Commit(s, batch).value)
  {
  }

  lemma RunAloneGrows(s: Store, op: Op)
    requires RunAlone(s, op).Some?
    ensures StoreGrows(s, RunAlone(s, op).value)
  {
    if op.EditsLedger() {
      CommitGrows(s, BatchOf(s, op).value);
    }
  }

  /** A batch names the version of every object that was read to compute it. */
  lemma BatchNamesItsReads(call: Call)
    requires Compute(call).Ok?
    ensures var readSet := Compute(call).value.readSet;
            match call
            case CreateCall(r, t, _) =>
              readSet == map[RestaurantRef(r.objectId) := r.objectVersion, TableRef(t.objectId) := t.objectVersion]
            case AuthorizeCall(v, t, _, _, _) =>
              readSet == map[ReservationRef(v.objectId) := v.objectVersion, TableRef(t.objectId) := t.objectVersion]
            case CancelCall(v, t, _, _) =>
              readSet == map[ReservationRef(v.objectId) := v.objectVersion, TableRef(t.objectId) := t.objectVersion]
  {
  }

  lemma CurrentSnapshot<T(!new)>(seen: set<Snapshot<T>>, objects: map<Id, Versioned<T>>, s: Snapshot<T>)
    requires Truthful(seen, objects) && s in seen && s.objectVersion == objects[s.objectId].version
    ensures s == Snap(objects, s.objectId)
  {
  }

  /** If all it read is current, the call sees the store itself. */
  lemma CurrentCall(k: Client, s: Store, call: Call)
    requires ClientInv(k, s) && k.Holds(call) && Compute(call).Ok? && Current(s, Compute(call).value)
    ensures Named(s, Operation(call)) && BatchOf(s, Operation(call)) == Compute(call)
  {
    BatchNamesItsReads(call);
    var readSet := Compute(call).value.readSet;
    assert forall ref :: ref in readSet ==> CurrentVersion(s, ref) == Some(readSet[ref]);
    match call {
      case CreateCall(r, t, request) =>
        assert RestaurantRef(r.objectId) in readSet && TableRef(t.objectId) in readSet;
        CurrentSnapshot(k.restaurants, s.restaurants, r);
        CurrentSnapshot(k.tables, s.tables, t);
      case AuthorizeCall(v, t, _, _, _) =>
        assert ReservationRef(v.objectId) in readSet && TableRef(t.objectId) in readSet;
        CurrentSnapshot(k.reservations, s.reservations, v);
        CurrentSnapshot(k.tables, s.tables, t);
      case CancelCall(v, t, _, _) =>
        assert ReservationRef(v.objectId) in readSet && TableRef(t.objectId) in readSet;
        CurrentSnapshot(k.reservations, s.reservations, v);
        CurrentSnapshot(k.tables, s.tables, t);
    }
  }

  /** A submission that commits does what the operation does alone. */
  lemma CommitIsRunAlone(k: Client, s: Store, call: Call)
    requires ClientInv(k, s) && call in k.computed && Commit(s, k.computed[call]).Some?
    ensures RunAlone(s, Operation(call)) == Commit(s, k.computed[call])
  {
    CurrentCall(k, s, call);
  }

  ghost predicate SystemInv(init: Store, y: System) {
    && Replay(init, y.log) == Some(y.store)
    && forall c :: c in y.clients ==> ClientInv(y.clients[c], y.store)
  }

  lemma LoggedStep(init: Store, y: System, op: Op, s: Store)
    requires SystemInv(init, y) && RunAlone(y.store, op) == Some(s)
    ensures SystemInv(init, y.(store := s, log := y.log + [op]))
  {
    assert (y.log + [op])[..|y.log|] == y.log;
    RunAloneGrows(y.store, op);
    forall c | c in y.clients ensures ClientInv(y.clients[c], s) {
      var k := y.clients[c];
      TruthfulGrows(k.restaurants, y.store.restaurants, s.restaurants);
      TruthfulGrows(k.tables, y.store.tables, s.tables);
      TruthfulGrows(k.reservations, y.store.reservations, s.reservations);
    }
  }

  lemma ClientStep(init: Store, y: System, c: nat, k: Client)
    requires SystemInv(init, y) && ClientInv(k, y.store)
    ensures SystemInv(init, y.(clients := y.clients[c := k]))
  {
  }

  lemma TruthfulRead<T(!new)>(seen: set<Snapshot<T>>, objects: map<Id, Versioned<T>>, id: Id)
    requires Truthful(seen, objects) && id in objects
    ensures Truthful(seen + {Snap(objects, id)}, objects)
  {
  }

  lemma ReadKeepsInv(init: Store, y: System, e: Event)
    requires SystemInv(init, y) && (e.ReadRestaurant? || e.ReadTable? || e.ReadReservation?)
    ensures SystemInv(init, Step(y, e))
  {
    var k := y.Get(e.client);
    match e {
      case ReadRestaurant(c, id) =>
        if id in y.store.restaurants {
          TruthfulRead(k.restaurants, y.store.restaurants, id);
          ClientStep(init, y, c, k.(restaurants := k.restaurants + {Snap(y.store.restaurants, id)}));
        }
      case ReadTable(c, id) =>
        if id in y.store.tables {
          TruthfulRead(k.tables, y.store.tables, id);
          ClientStep(init, y, c, k.(tables := k.tables + {Snap(y.store.tables, id)}));
        }
      case ReadReservation(c, id) =>
        if id in y.store.reservations {
          TruthfulRead(k.reservations, y.store.reservations, id);
          ClientStep(init, y, c, k.(reservations := k.reservations + {Snap(y.store.reservations, id)}));
        }
    }
  }

  lemma ComputeKeepsInv(init: Store, y: System, c: nat, call: Call)
    requires SystemInv(init, y)
    ensures SystemInv(init, Step(y, ComputeBatch(c, call)))
  {
    var k := y.Get(c);
    if k.Holds(call) && Compute(call).Ok? {
      ClientStep(init, y, c, k.(computed := k.computed[call := Compute(call).value]));
    }
  }

  lemma SubmitKeepsInv(init: Store, y: System, c: nat, call: Call)
    requires SystemInv(init, y)
    ensures SystemInv(init, Step(y, Submit(c, call)))
  {
    if call in y.Get(c).computed && Commit(y.store, y.Get(c).computed[call]).Some? {
      CommitIsRunAlone(y.Get(c), y.store, call);
      LoggedStep(init, y, Operation(call), Commit(y.store, y.Get(c).computed[call]).value);
    }
  }

  lemma StepKeepsInv(init: Store, y: System, e: Event)
    requires SystemInv(init, y)
    ensures SystemInv(init, Step(y, e))
  {
    match e {
      case Submit(c, call) => SubmitKeepsInv(init, y, c, call);
      case Configure(op) =>
        if !op.EditsLedger() && RunAlone(y.store, op).Some? {
          LoggedStep(init, y, op, RunAlone(y.store, op).value);
        }
      case ComputeBatch(c, call) => ComputeKeepsInv(init, y, c, call);
      case _ => ReadKeepsInv(init, y, e);
    }
  }

  lemma {:induction false} StepsKeepInv(init: Store, events: seq<Event>)
    ensures SystemInv(init, Steps(System(init, map[], []), events))
  {
    if events != [] {
      StepsKeepInv(init, events[..|events| - 1]);
      StepKeepsInv(init, Steps(System(init, map[], []), events[..|events| - 1]), events[|events| - 1]);
    }
  }

  /**
   Serializability: whatever the clients do, from any store, the log of committed operations
   replayed one at a time on the then-current store commits every one of them and ends in the
   same store.
   */
  lemma Serializable(init: Store, events: seq<Event>)
    ensures var y := Steps(System(init, map[], []), events);
            Replay(init, y.log) == Some(y.store)
  {
    StepsKeepInv(init, events);
  }

  /** So what holds at the end of every run of operations holds of every interleaving. */
  lemma InterleavingIsRun(init: Store, events: seq<Event>) returns (run: Run)
    requires Initial(init)
    ensures var y := Steps(System(init, map[], []), events);
            run.Valid() && run.ops == y.log && run.states[0] == init && run.Final() == y.store
  {
    Serializable(init, events);
    run := ReplayGivesRun(init, Steps(System(init, map[], []), events).log);
  }
}
