/** The store of assets: one shared entry for each, kept while somebody holds it and loaded by one `get` at a time. */
module AssetStore {
  // The state machine interleaves any number of `get` calls, dropped futures, dropped handles
  // and sweeps, and embeds the gate's own state machine step for step.

  import opened Tally
  import opened Wrappers
  import G = Gate

  datatype AssetRef = AssetRef(id: nat, assetType: nat)
  type Bytes = seq<bv8>
  type EntryId = nat
  type GetId = nat
  type Request = nat

  datatype Progress = Queued | ReadingDisk | Downloading | Ready(len: nat) | Failed

  /** One logical asset; `owner` is the `get` that holds the fetch lock. */
  datatype Entry = Entry(ref: AssetRef, data: Option<Bytes>, progress: Progress, owner: Option<GetId>)

  function FreshEntry(ref: AssetRef): Entry { Entry(ref, None, Queued, None) }

  datatype Source = Static | Disk | Network
  datatype Outcome = Loaded(bytes: Bytes) | LoadFailed | Aborted

  /** Where one `get` call stands. */
  datatype Phase =
    | Called(ref: AssetRef)
    | Resolved(entry: EntryId)                                          // has its entry, not yet looked inside
    | AwaitingLock(entry: EntryId)
    | Locked(entry: EntryId)                                            // about to look again
    | Acquiring(entry: EntryId, request: Request)                       // inside `gate.acquire`
    | Loading(entry: EntryId, request: Request, source: Source)
    | PermitHeld(entry: EntryId, request: Request, outcome: Outcome)    // about to drop its permit
    | Notifying(entry: EntryId, request: Request, outcome: Outcome)     // the gate owes a notification
    | Publishing(entry: EntryId, outcome: Outcome)
    | Announcing(entry: EntryId, len: nat)                              // bytes stored, progress not yet
    | Unlocking(entry: EntryId, ok: bool)
    | Returned(entry: EntryId)                                          // the caller keeps the handle
    | Peeked(entry: EntryId)                                            // so does the caller of `peek`
    | Gone

  /** The store.  `requester` lists which `get` took each gate request id (its length is the
      request counter); `loads` counts the successful loads of every entry. */
  datatype World = World(
    hasStatic: bool,
    hasDisk: bool,
    index: map<AssetRef, EntryId>,
    entries: seq<Entry>,
    gets: map<GetId, Phase>,
    gate: G.World,
    requester: seq<GetId>,
    loads: seq<nat>,
    collected: nat)

  datatype Step =
    | Call(g: GetId, ref: AssetRef)
    | Resolve(g: GetId)
    | Look(g: GetId)
    | Lock(g: GetId)
    | Recheck(g: GetId)
    | AtGate(g: GetId, inner: G.Step)
    | Begin(g: GetId)
    | Load(g: GetId, found: Option<Bytes>)
    | ReturnPermit(g: GetId)
    | SendNotify(g: GetId)
    | Publish(g: GetId)
    | Announce(g: GetId)
    | Unlock(g: GetId)
    | DropHandle(g: GetId)
    | Glance(g: GetId, ref: AssetRef)                                   // a `peek` that finds the asset
    | Sweep(ref: AssetRef)
    | Cancel(g: GetId)

  /** The priority every fetch competes at. */
  const FETCH_PRIORITY: nat := 1

  /** The entry a `get` keeps alive. */
  function EntryOf(phase: Phase): Option<EntryId> {
    if phase.Called? || phase.Gone? then None else Some(phase.entry)
  }

  function RequestOf(phase: Phase): Option<Request> {
    match phase
    case Acquiring(_, r) => Some(r)
    case Loading(_, r, _) => Some(r)
    case PermitHeld(_, r, _) => Some(r)
    case Notifying(_, r, _) => Some(r)
    case _ => None
  }

  predicate Owns(phase: Phase) {
    phase.Locked? || RequestOf(phase).Some? || phase.Publishing? || phase.Announcing? || phase.Unlocking?
  }

  predicate Holds(gets: map<GetId, Phase>, g: GetId, e: EntryId) {
    g in gets && EntryOf(gets[g]) == Some(e)
  }

  /** The entries with a strong reference left. */
  ghost function LiveSet(gets: map<GetId, Phase>): set<EntryId> {
    set g | g in gets && EntryOf(gets[g]).Some? :: EntryOf(gets[g]).value
  }

  /** The index and the entries it points into. */
  datatype Table = Table(index: map<AssetRef, EntryId>, entries: seq<Entry>)

  /** `resolve_entry` answers with the entry of `ref` if it is still live, and otherwise
      records a fresh one. */
  function Resolving(table: Table, live: set<EntryId>, ref: AssetRef): (Table, EntryId) {
    if ref in table.index && table.index[ref] in live then
      (table, table.index[ref])
    else
      var e := |table.entries|;
      (Table(table.index[ref := e], table.entries + [FreshEntry(ref)]), e)
  }

  /** What is left of the index once the dead references are dropped. */
  function Swept(index: map<AssetRef, EntryId>, live: set<EntryId>): map<AssetRef, EntryId> {
    map ref | ref in index && index[ref] in live :: index[ref]
  }

  /** The shared map of the store as an object; `live` are the entries with strong references. */
  class SharedMap {
    var index: map<AssetRef, EntryId>
    var entries: seq<Entry>
    var collected: nat

    function State(): Table
      reads this
    {
      Table(index, entries)
    }

    constructor ()
      ensures State() == Table(map[], []) && collected == 0
    {
      index, entries, collected := map[], [], 0;
    }

    method ResolveEntry(ref: AssetRef, live: set<EntryId>) returns (e: EntryId)
      modifies this`index, this`entries
      ensures (State(), e) == Resolving(old(State()), live, ref)
    {
      if ref in index && index[ref] in live {
        return index[ref];
      }
      e := |entries|;
      index := index[ref := e];
      entries := entries + [FreshEntry(ref)];
    }

    /** Answers exactly where `resolve_entry` would create nothing, and with the entry it would answer. */
    method Peek(ref: AssetRef, live: set<EntryId>) returns (e: Option<EntryId>)
      ensures e.Some? <==> Resolving(State(), live, ref).0 == State()
      ensures e.Some? ==> Resolving(State(), live, ref) == (State(), e.value)
    {
      e := if ref in index && index[ref] in live then Some(index[ref]) else None;
    }

    /** `retain`: looks at the references one after another. */
    method Sweep(live: set<EntryId>)
      modifies this`index, this`collected
      ensures index == Swept(old(index), live)
      ensures collected == old(collected) + |old(index)| - |index|
    {
      var before := |index.Keys|;
      ghost var was := index;
      var left := index.Keys;
      while left != {}
        invariant left <= was.Keys && index.Keys <= was.Keys
        invariant forall ref <- was.Keys :: ref in index <==> ref in left || was[ref] in live
        invariant forall ref <- index.Keys :: index[ref] == was[ref]
        invariant collected == old(collected) && |index.Keys| <= before
        decreases left
      {
        var ref :| ref in left;
        left := left - {ref};
        if index[ref] !in live {
          var rest := index - {ref};
          assert rest.Keys == index.Keys - {ref};
          index := rest;
        }
      }
      assert index == Swept(was, live) && |index| == |index.Keys| && |was| == |was.Keys|;
      collected := collected + (before - |index.Keys|);
    }
  }

  function Configured(w: World, source: Source): bool {
    match source
    case Static => w.hasStatic
    case Disk => w.hasDisk
    case Network => true
  }

  /** The progress an entry shows once `source` has been tried. */
  function TriedProgress(w: World, entry: Entry, source: Source, found: bool): Progress {
    if source.Disk? && !found then Downloading
    else if !source.Network? && Configured(w, source) then ReadingDisk
    else entry.progress
  }

  /** Whether the phase of the `get` that takes `step` allows it. */
  predicate PhaseAllows(step: Step, phase: Phase) {
    match step
    case Call(_, _) => false
    case Resolve(_) => phase.Called?
    case Look(_) => phase.Resolved?
    case Lock(_) => phase.AwaitingLock?
    case Recheck(_) => phase.Locked?
    case AtGate(_, inner) =>
      phase.Acquiring? && inner in {G.Listen(phase.request), G.Check(phase.request), G.Wake(phase.request)}
    case Begin(_) => phase.Acquiring?
    case Load(_, _) => phase.Loading?
    case ReturnPermit(_) => phase.PermitHeld?
    case SendNotify(_) => phase.Notifying?
    case Publish(_) => phase.Publishing?
    case Announce(_) => phase.Announcing?
    case Unlock(_) => phase.Unlocking?
    case DropHandle(_) => phase.Returned? || phase.Peeked?
    case Glance(_, _) => false
    case Sweep(_) => false
    // A future is only dropped where it is suspended.
    case Cancel(_) => phase.AwaitingLock? || phase.Acquiring? || (phase.Loading? && phase.source.Network?)
  }

  /** The steps by which one `get` moves on with the entry it has. */
  predicate IsLocal(step: Step) {
    !(step.Call? || step.Resolve? || step.Glance? || step.Sweep?)
  }

  /** The phase after a local step of a `get` whose entry is `entry`. */
  function NextPhase(step: Step, phase: Phase, entry: Entry, request: Request): Phase
    requires IsLocal(step) && PhaseAllows(step, phase)
  {
    match step
    case Look(_) => if entry.data.Some? then Returned(phase.entry) else AwaitingLock(phase.entry)
    case Lock(_) => Locked(phase.entry)
    case Recheck(_) => if entry.data.Some? then Unlocking(phase.entry, true) else Acquiring(phase.entry, request)
    case AtGate(_, _) => phase
    case Begin(_) => Loading(phase.entry, phase.request, Static)
    case Load(_, Some(bytes)) => PermitHeld(phase.entry, phase.request, Loaded(bytes))
    case Load(_, None) =>
      if phase.source.Network? then PermitHeld(phase.entry, phase.request, LoadFailed)
      else Loading(phase.entry, phase.request, if phase.source.Static? then Disk else Network)
    case ReturnPermit(_) => Notifying(phase.entry, phase.request, phase.outcome)
    case SendNotify(_) => Publishing(phase.entry, phase.outcome)
    case Publish(_) =>
      (match phase.outcome
       case Loaded(bytes) => Announcing(phase.entry, |bytes|)
       case _ => Unlocking(phase.entry, false))
    case Announce(_) => Unlocking(phase.entry, true)
    case Unlock(_) => if phase.ok then Returned(phase.entry) else Gone
    case DropHandle(_) => Gone
    case Cancel(_) =>
      if phase.Acquiring? then Notifying(phase.entry, phase.request, Aborted)
      else if phase.Loading? then PermitHeld(phase.entry, phase.request, Aborted)
      else Gone
  }

  /** What a local step of `g` makes of its entry. */
  function NextEntry(w: World, step: Step, phase: Phase, entry: Entry): Entry
    requires IsLocal(step) && PhaseAllows(step, phase)
  {
    match step
    case Lock(g) => entry.(owner := Some(g))
    case Load(_, found) => entry.(progress := TriedProgress(w, entry, phase.source, found.Some?))
    case Publish(_) =>
      (match phase.outcome
       case Loaded(bytes) => entry.(data := Some(bytes))
       case LoadFailed => entry.(progress := Failed)
       case Aborted => entry)
    case Announce(_) => entry.(progress := Ready(phase.len))
    case Unlock(_) => entry.(owner := None)
    case _ => entry
  }

  /** The step the gate takes along with a local step, if any. */
  function GateStep(step: Step, phase: Phase, entry: Entry, request: Request): Option<G.Step>
    requires IsLocal(step) && PhaseAllows(step, phase)
  {
    match step
    case Recheck(_) => if entry.data.Some? then None else Some(G.Arrive(request, FETCH_PRIORITY))
    case AtGate(_, inner) => Some(inner)
    case ReturnPermit(_) => Some(G.Release(phase.request))
    case SendNotify(_) => Some(G.Notify(phase.request))
    case Cancel(_) => if phase.Acquiring? then Some(G.Cancel(phase.request)) else None
    case _ => None
  }

  ghost predicate LocalEnabled(w: World, step: Step)
    requires IsLocal(step)
  {
    && step.g in w.gets && PhaseAllows(step, w.gets[step.g]) && w.gets[step.g].entry < |w.entries|
    && (var phase := w.gets[step.g];
        var entry := w.entries[phase.entry];
        var inner := GateStep(step, phase, entry, |w.requester|);
        && (step.Lock? ==> entry.owner == None)
        && (step.Begin? ==> phase.request in w.gate.tasks && w.gate.tasks[phase.request].Holding?)
        && (step.Load? && step.found.Some? ==> Configured(w, phase.source) && phase.entry < |w.loads|)
        && (inner.Some? ==> G.Enabled(w.gate, inner.value)))
  }

  /** Whether `step` can happen. */
  ghost predicate Enabled(w: World, step: Step) {
    if step.Call? then step.g !in w.gets
    else if step.Glance? then step.g !in w.gets && step.ref in w.index && w.index[step.ref] in LiveSet(w.gets)
    else if step.Sweep? then step.ref in w.index && w.index[step.ref] !in LiveSet(w.gets)
    else if step.Resolve? then step.g in w.gets && w.gets[step.g].Called?
    else LocalEnabled(w, step)
  }

  ghost predicate LocalNext(w: World, step: Step, w': World)
    requires IsLocal(step) && LocalEnabled(w, step)
  {
    var g := step.g;
    var phase := w.gets[g];
    var e := phase.entry;
    var inner := GateStep(step, phase, w.entries[e], |w.requester|);
    && (if inner.Some? then G.Next(w.gate, inner.value, w'.gate) else w'.gate == w.gate)
    && w' == w.(
         gets := w.gets[g := NextPhase(step, phase, w.entries[e], |w.requester|)],
         entries := w.entries[e := NextEntry(w, step, phase, w.entries[e])],
         gate := w'.gate,
         requester := if inner.Some? && inner.value.Arrive? then w.requester + [g] else w.requester,
         loads := if step.Load? && step.found.Some? then w.loads[e := w.loads[e] + 1] else w.loads)
  }

  ghost predicate ResolveNext(w: World, g: GetId, w': World)
    requires g in w.gets && w.gets[g].Called?
  {
    var (table, e) := Resolving(Table(w.index, w.entries), LiveSet(w.gets), w.gets[g].ref);
    w' == w.(gets := w.gets[g := Resolved(e)], index := table.index, entries := table.entries,
             loads := if |table.entries| > |w.entries| then w.loads + [0] else w.loads)
  }

  ghost predicate Next(w: World, step: Step, w': World) {
    && Enabled(w, step)
    && if step.Call? then w' == w.(gets := w.gets[step.g := Called(step.ref)])
       else if step.Glance? then w' == w.(gets := w.gets[step.g := Peeked(w.index[step.ref])])
       else if step.Sweep? then w' == w.(index := w.index - {step.ref}, collected := w.collected + 1)
       else if step.Resolve? then ResolveNext(w, step.g, w')
       else LocalNext(w, step, w')
  }

  ghost predicate Init(w: World) {
    && G.Init(w.gate)
    && w == World(w.hasStatic, w.hasDisk, map[], [], map[], w.gate, [], [], 0)
  }

  // ---------------------------------------------------------------------------------
  // Invariants.

  /** Every entry a `get` keeps alive is the one the index names for its asset. */
  ghost predicate Indexed(w: World) {
    && |w.loads| == |w.entries|
    && (forall ref <- w.index.Keys :: w.index[ref] < |w.entries| && w.entries[w.index[ref]].ref == ref)
    && forall g: GetId, e: EntryId | Holds(w.gets, g, e) ::
         e < |w.entries| && w.entries[e].ref in w.index && w.index[w.entries[e].ref] == e
  }

  /** The fetch lock of an entry is held by exactly the one `get` in a locked phase on it. */
  ghost predicate LocksAgree(w: World) {
    && (forall g <- w.gets.Keys | Owns(w.gets[g]) ::
          w.gets[g].entry < |w.entries| && w.entries[w.gets[g].entry].owner == Some(g))
    && forall e | 0 <= e < |w.entries| && w.entries[e].owner.Some? ::
         Holds(w.gets, w.entries[e].owner.value, e) && Owns(w.gets[w.entries[e].owner.value])
  }

  /** What a phase knows about the bytes of its entry. */
  predicate DataAgrees(phase: Phase, data: Option<Bytes>) {
    match phase
    case Announcing(_, len) => data.Some? && |data.value| == len
    case Unlocking(_, ok) => ok ==> data.Some?
    case Returned(_) => data.Some?
    case Publishing(_, _) => data.None?
    case _ => RequestOf(phase).Some? ==> data.None?
  }

  function LoadedOutcome(phase: Phase): bool {
    match phase
    case PermitHeld(_, _, outcome) => outcome.Loaded?
    case Notifying(_, _, outcome) => outcome.Loaded?
    case Publishing(_, outcome) => outcome.Loaded?
    case _ => false
  }

  /** A load of `e` has succeeded and its bytes are on their way into the entry. */
  predicate LoadPending(w: World, e: EntryId)
    requires e < |w.entries|
  {
    w.entries[e].owner.Some? && w.entries[e].owner.value in w.gets && LoadedOutcome(w.gets[w.entries[e].owner.value])
  }

  /** An entry has been loaded successfully once if its bytes are present or pending, else never. */
  ghost predicate DataAccounted(w: World) {
    && |w.loads| == |w.entries|
    && (forall g: GetId, e: EntryId | Holds(w.gets, g, e) ::
        e < |w.entries| && DataAgrees(w.gets[g], w.entries[e].data))
    && (forall e | 0 <= e < |w.entries| ::
          w.loads[e] == if w.entries[e].data.Some? || LoadPending(w, e) then 1 else 0)
    && forall e | 0 <= e < |w.entries| && w.entries[e].progress.Ready? ::
         w.entries[e].data.Some? && w.entries[e].progress.len == |w.entries[e].data.value|
  }

  /** Where the gate sees the request of a `get` in `phase`. */
  predicate GateAgrees(phase: Phase, gatePhase: G.Phase) {
    match phase
    case Acquiring(_, _) => G.IsWaiting(gatePhase) || gatePhase.Holding?
    case Loading(_, _, _) => gatePhase.Holding?
    case PermitHeld(_, _, _) => gatePhase.Holding?
    case Notifying(_, _, _) => G.OwesNotify(gatePhase)
    case _ => false
  }

  /** The gate's tasks are exactly the requests issued, each run by the `get` that took it. */
  ghost predicate GateLinked(w: World) {
    && w.gate.reprioritising == 0
    && (forall r: Request :: r in w.gate.tasks <==> r < |w.requester|)
    && (forall g <- w.gets.Keys | RequestOf(w.gets[g]).Some? ::
          && RequestOf(w.gets[g]).value < |w.requester|
          && w.requester[RequestOf(w.gets[g]).value] == g
          && GateAgrees(w.gets[g], w.gate.tasks[RequestOf(w.gets[g]).value]))
    && forall r | 0 <= r < |w.requester| && w.gate.tasks[r] !in {G.Finished, G.Cancelled} ::
         w.requester[r] in w.gets && RequestOf(w.gets[w.requester[r]]) == Some(r)
  }

  ghost predicate Inv(w: World) {
    Indexed(w) && LocksAgree(w) && DataAccounted(w) && GateLinked(w) && G.Inv(w.gate)
  }

  /** `w'` differs from `w` in the phase of `g`, in the entry it works on, and elsewhere. */
  predicate Moved(w: World, g: GetId, phase': Phase, entry': Entry, w': World) {
    && g in w.gets && !w.gets[g].Called? && !w.gets[g].Gone? && w.gets[g].entry < |w.entries|
    && w'.gets == w.gets[g := phase']
    && w'.entries == w.entries[w.gets[g].entry := entry']
    && EntryOf(phase') in {None, EntryOf(w.gets[g])}
  }

  lemma LocalMoves(w: World, step: Step, w': World)
    requires IsLocal(step) && Next(w, step, w')
    ensures step.g in w.gets && PhaseAllows(step, w.gets[step.g]) && w.gets[step.g].entry < |w.entries|
    ensures var phase := w.gets[step.g]; var entry := w.entries[phase.entry];
            var entry' := NextEntry(w, step, phase, entry);
            && Moved(w, step.g, NextPhase(step, phase, entry, |w.requester|), entry', w')
            && entry'.ref == entry.ref && w'.index == w.index && |w'.loads| == |w.loads|
  {
  }

  lemma IndexedMoved(w: World, g: GetId, phase': Phase, entry': Entry, w': World)
    requires Indexed(w) && Moved(w, g, phase', entry', w') && entry'.ref == w.entries[w.gets[g].entry].ref
    requires w'.index == w.index && |w'.loads| == |w.loads|
    ensures Indexed(w')
  {
    forall h: GetId, e: EntryId | Holds(w'.gets, h, e)
      ensures e < |w'.entries| && w'.entries[e].ref in w'.index && w'.index[w'.entries[e].ref] == e
    {
      assert Holds(w.gets, h, e);
    }
  }

  lemma IndexedEntered(w: World, step: Step, w': World)
    requires Indexed(w) && Next(w, step, w') && (step.Call? || step.Glance?)
    ensures Indexed(w')
  {
    forall h: GetId, e: EntryId | Holds(w'.gets, h, e)
      ensures e < |w'.entries| && w'.entries[e].ref in w'.index && w'.index[w'.entries[e].ref] == e
    {
      if h != step.g { assert Holds(w.gets, h, e); }
    }
  }

  lemma IndexedResolved(w: World, g: GetId, w': World)
    requires Indexed(w) && Next(w, Resolve(g), w')
    ensures Indexed(w')
  {
    forall h: GetId, e: EntryId | Holds(w'.gets, h, e)
      ensures e < |w'.entries| && w'.entries[e].ref in w'.index && w'.index[w'.entries[e].ref] == e
    {
      if h != g {
        assert Holds(w.gets, h, e);
        assert w.entries[e].ref == w.gets[g].ref ==> e in LiveSet(w.gets);
      }
    }
  }

  lemma IndexedSwept(w: World, ref: AssetRef, w': World)
    requires Indexed(w) && Next(w, Sweep(ref), w')
    ensures Indexed(w')
  {
    forall h: GetId, e: EntryId | Holds(w'.gets, h, e)
      ensures e < |w'.entries| && w'.entries[e].ref in w'.index && w'.index[w'.entries[e].ref] == e
    {
      assert Holds(w.gets, h, e);
      assert e in LiveSet(w.gets);
    }
  }

  lemma IndexedLocal(w: World, step: Step, w': World)
    requires Indexed(w) && IsLocal(step) && Next(w, step, w')
    ensures Indexed(w')
  {
    LocalMoves(w, step, w');
    var phase := w.gets[step.g];
    var entry := w.entries[phase.entry];
    IndexedMoved(w, step.g, NextPhase(step, phase, entry, |w.requester|), NextEntry(w, step, phase, entry), w');
  }

  lemma IndexedStep(w: World, step: Step, w': World)
    requires Indexed(w) && Next(w, step, w')
    ensures Indexed(w')
  {
    if IsLocal(step) {
      IndexedLocal(w, step, w');
    } else if step.Resolve? {
      IndexedResolved(w, step.g, w');
    } else if step.Sweep? {
      IndexedSwept(w, step.ref, w');
    } else {
      IndexedEntered(w, step, w');
    }
  }

  /** A local step takes or gives back the lock exactly when its phase says so. */
  lemma LockFollowsPhase(w: World, step: Step, phase: Phase, entry: Entry, request: Request)
    requires IsLocal(step) && PhaseAllows(step, phase)
    requires Owns(phase) ==> entry.owner == Some(step.g)
    requires step.Lock? ==> entry.owner == None
    ensures var phase' := NextPhase(step, phase, entry, request);
            && (Owns(phase') ==>
                EntryOf(phase') == EntryOf(phase) && NextEntry(w, step, phase, entry).owner == Some(step.g))
            && (Owns(phase) && !Owns(phase') ==> NextEntry(w, step, phase, entry).owner == None)
            && (!Owns(phase) && !Owns(phase') ==> NextEntry(w, step, phase, entry) == entry)
  {
  }

  lemma LocksMoved(w: World, g: GetId, phase': Phase, entry': Entry, w': World)
    requires LocksAgree(w) && Moved(w, g, phase', entry', w')
    requires Owns(phase') ==> EntryOf(phase') == EntryOf(w.gets[g]) && entry'.owner == Some(g)
    requires Owns(w.gets[g]) && !Owns(phase') ==> entry'.owner == None
    requires !Owns(w.gets[g]) ==>
               entry'.owner == w.entries[w.gets[g].entry].owner || w.entries[w.gets[g].entry].owner == None
    requires !Owns(phase') && !Owns(w.gets[g]) ==> entry'.owner == w.entries[w.gets[g].entry].owner
    ensures LocksAgree(w')
  {
    forall e | 0 <= e < |w'.entries| && w'.entries[e].owner.Some?
      ensures Holds(w'.gets, w'.entries[e].owner.value, e) && Owns(w'.gets[w'.entries[e].owner.value])
    {
      if w.entries[e].owner.Some? {
        assert Holds(w.gets, w.entries[e].owner.value, e);
      }
    }
  }

  lemma LocksLocal(w: World, step: Step, w': World)
    requires LocksAgree(w) && IsLocal(step) && Next(w, step, w')
    ensures LocksAgree(w')
  {
    LocalMoves(w, step, w');
    var phase := w.gets[step.g];
    var entry := w.entries[phase.entry];
    LockFollowsPhase(w, step, phase, entry, |w.requester|);
    LocksMoved(w, step.g, NextPhase(step, phase, entry, |w.requester|), NextEntry(w, step, phase, entry), w');
  }

  lemma LocksStep(w: World, step: Step, w': World)
    requires Indexed(w) && LocksAgree(w) && Next(w, step, w')
    ensures LocksAgree(w')
  {
    if IsLocal(step) {
      LocksLocal(w, step, w');
    } else if step.Resolve? {
      LocksResolved(w, step.g, w');
    }
  }

  lemma LocksResolved(w: World, g: GetId, w': World)
    requires Indexed(w) && LocksAgree(w) && Next(w, Resolve(g), w')
    ensures LocksAgree(w')
  {
    forall e | 0 <= e < |w'.entries| && w'.entries[e].owner.Some?
      ensures Holds(w'.gets, w'.entries[e].owner.value, e) && Owns(w'.gets[w'.entries[e].owner.value])
    {
      assert e < |w.entries| && w'.entries[e] == w.entries[e];
      assert Holds(w.gets, w.entries[e].owner.value, e);
    }
  }

  /** Bytes are written only by the owner of the lock, only over nothing, and only after the
      one successful load they came from. */
  lemma DataFollowsPhase(w: World, step: Step, phase: Phase, entry: Entry, request: Request, loads: nat)
    requires IsLocal(step) && PhaseAllows(step, phase)
    requires DataAgrees(phase, entry.data)
    requires entry.progress.Ready? ==> entry.data.Some? && entry.progress.len == |entry.data.value|
    requires Owns(phase) || step.Lock? ==> loads == if entry.data.Some? || LoadedOutcome(phase) then 1 else 0
    ensures var phase' := NextPhase(step, phase, entry, request);
            var entry' := NextEntry(w, step, phase, entry);
            && DataAgrees(phase', entry'.data)
            && (entry'.data != entry.data ==> Owns(phase) && entry.data.None?)
            && (entry'.progress.Ready? ==> entry'.data.Some? && entry'.progress.len == |entry'.data.value|)
            && (Owns(phase) || Owns(phase') ==>
                  (loads + if step.Load? && step.found.Some? then 1 else 0)
                  == if entry'.data.Some? || LoadedOutcome(phase') then 1 else 0)
  {
  }

  lemma DataStillAgrees(w: World, g: GetId, phase': Phase, entry': Entry, w': World)
    requires Indexed(w) && LocksAgree(w) && DataAccounted(w) && Moved(w, g, phase', entry', w')
    requires DataAgrees(phase', entry'.data)
    requires entry'.data != w.entries[w.gets[g].entry].data ==> Owns(w.gets[g]) && w.entries[w.gets[g].entry].data.None?
    ensures forall h: GetId, e: EntryId | Holds(w'.gets, h, e) ::
              e < |w'.entries| && DataAgrees(w'.gets[h], w'.entries[e].data)
  {
    forall h: GetId, e: EntryId | Holds(w'.gets, h, e)
      ensures e < |w'.entries| && DataAgrees(w'.gets[h], w'.entries[e].data)
    {
      assert Holds(w.gets, h, e);
    }
  }

  /** Who owns an entry nobody works on in this step, and whether its load is pending, stays. */
  lemma PendingKept(w: World, g: GetId, phase': Phase, entry': Entry, w': World, e: EntryId)
    requires LocksAgree(w) && Moved(w, g, phase', entry', w') && e < |w.entries| && e != w.gets[g].entry
    ensures w'.entries[e] == w.entries[e] && LoadPending(w', e) == LoadPending(w, e)
  {
    if w.entries[e].owner.Some? {
      assert Holds(w.gets, w.entries[e].owner.value, e);
    }
  }

  /** What is pending at the entry of `g` is what its phase says, if it owns the lock before or after. */
  lemma PendingMoved(w: World, g: GetId, phase': Phase, entry': Entry, w': World)
    requires LocksAgree(w) && Moved(w, g, phase', entry', w') && LocksAgree(w')
    ensures var e := w.gets[g].entry;
            if Owns(w.gets[g]) || Owns(phase') then LoadPending(w', e) == LoadedOutcome(phase')
            else entry' == w.entries[e] ==> LoadPending(w', e) == LoadPending(w, e)
  {
    var e := w.gets[g].entry;
    assert g in w.gets.Keys && g in w'.gets.Keys;
    assert Owns(w.gets[g]) ==> w.entries[e].owner == Some(g);
    assert Owns(phase') ==> w'.entries[e].owner == Some(g);
    if w'.entries[e].owner.Some? {
      var owner := w'.entries[e].owner.value;
      assert Holds(w'.gets, owner, e);
      assert owner != g ==> w.gets[owner] == w'.gets[owner] && w.entries[e].owner == Some(owner);
    }
  }

  lemma DataMoved(w: World, g: GetId, phase': Phase, entry': Entry, w': World)
    requires Indexed(w) && LocksAgree(w) && DataAccounted(w) && Moved(w, g, phase', entry', w') && LocksAgree(w')
    requires DataAgrees(phase', entry'.data)
    requires entry'.data != w.entries[w.gets[g].entry].data ==> Owns(w.gets[g]) && w.entries[w.gets[g].entry].data.None?
    requires entry'.progress.Ready? ==> entry'.data.Some? && entry'.progress.len == |entry'.data.value|
    requires |w'.loads| == |w.loads|
    requires forall e | 0 <= e < |w.loads| && e != w.gets[g].entry :: w'.loads[e] == w.loads[e]
    requires Owns(w.gets[g]) || Owns(phase') ==>
               w'.loads[w.gets[g].entry] == if entry'.data.Some? || LoadedOutcome(phase') then 1 else 0
    requires !Owns(w.gets[g]) && !Owns(phase') ==> entry' == w.entries[w.gets[g].entry] && w'.loads == w.loads
    ensures DataAccounted(w')
  {
    DataStillAgrees(w, g, phase', entry', w');
    PendingMoved(w, g, phase', entry', w');
    forall e | 0 <= e < |w'.entries|
      ensures w'.loads[e] == if w'.entries[e].data.Some? || LoadPending(w', e) then 1 else 0
    {
      if e != w.gets[g].entry { PendingKept(w, g, phase', entry', w', e); }
    }
  }

  lemma DataResolved(w: World, g: GetId, w': World)
    requires Indexed(w) && LocksAgree(w) && DataAccounted(w) && Next(w, Resolve(g), w')
    ensures DataAccounted(w')
  {
    forall h: GetId, e: EntryId | Holds(w'.gets, h, e)
      ensures e < |w'.entries| && DataAgrees(w'.gets[h], w'.entries[e].data)
    {
      if h != g { assert Holds(w.gets, h, e); }
    }
    forall e | 0 <= e < |w.entries|
      ensures w'.loads[e] == if w'.entries[e].data.Some? || LoadPending(w', e) then 1 else 0
    {
      if w.entries[e].owner.Some? {
        assert Holds(w.gets, w.entries[e].owner.value, e);
      }
    }
  }

  lemma DataEntered(w: World, step: Step, w': World)
    requires Indexed(w) && LocksAgree(w) && DataAccounted(w) && Next(w, step, w') && (step.Call? || step.Glance?)
    ensures DataAccounted(w')
  {
    forall h: GetId, e: EntryId | Holds(w'.gets, h, e)
      ensures e < |w'.entries| && DataAgrees(w'.gets[h], w'.entries[e].data)
    {
      if h != step.g { assert Holds(w.gets, h, e); }
    }
    forall e | 0 <= e < |w.entries| ensures LoadPending(w', e) == LoadPending(w, e) {
      if w.entries[e].owner.Some? {
        assert Holds(w.gets, w.entries[e].owner.value, e);
      }
    }
  }

  lemma DataLocal(w: World, step: Step, w': World)
    requires Indexed(w) && LocksAgree(w) && DataAccounted(w) && LocksAgree(w') && IsLocal(step) && Next(w, step, w')
    ensures DataAccounted(w')
  {
    LocalMoves(w, step, w');
    var g, phase := step.g, w.gets[step.g];
    var entry := w.entries[phase.entry];
    assert Holds(w.gets, g, phase.entry);
    DataFollowsPhase(w, step, phase, entry, |w.requester|, w.loads[phase.entry]);
    LockFollowsPhase(w, step, phase, entry, |w.requester|);
    DataMoved(w, g, NextPhase(step, phase, entry, |w.requester|), NextEntry(w, step, phase, entry), w');
  }

  lemma DataStep(w: World, step: Step, w': World)
    requires Indexed(w) && LocksAgree(w) && DataAccounted(w) && Next(w, step, w')
    ensures DataAccounted(w')
  {
    LocksStep(w, step, w');
    if IsLocal(step) {
      DataLocal(w, step, w');
    } else if step.Resolve? {
      DataResolved(w, step.g, w');
    } else if step.Sweep? {
      DataSwept(w, step, w');
    } else {
      DataEntered(w, step, w');
    }
  }

  lemma DataSwept(w: World, step: Step, w': World)
    requires DataAccounted(w) && Next(w, step, w') && step.Sweep?
    ensures DataAccounted(w')
  {
    forall e | 0 <= e < |w.entries| ensures LoadPending(w', e) == LoadPending(w, e) {}
  }

  /** The gate's tasks keep their phase, or are notified, unless the step is theirs. */
  lemma GateFrame(gate: G.World, inner: G.Step, gate': G.World, r: Request)
    requires G.Next(gate, inner, gate') && r in gate.tasks && !inner.NotifyReprioritised? && inner.id != r
    ensures r in gate'.tasks && gate'.tasks[r] in {gate.tasks[r], G.Notified(gate.tasks[r])}
  {
  }

  /** A `get` and its gate task stay in step. */
  lemma GateFollowsPhase(step: Step, phase: Phase, entry: Entry, request: Request, gate: G.World, gate': G.World)
    requires IsLocal(step) && PhaseAllows(step, phase)
    requires var inner := GateStep(step, phase, entry, request);
             if inner.Some? then G.Next(gate, inner.value, gate') else gate' == gate
    requires RequestOf(phase).Some? ==>
               RequestOf(phase).value in gate.tasks && GateAgrees(phase, gate.tasks[RequestOf(phase).value])
    requires step.Begin? ==> gate.tasks[phase.request].Holding?
    ensures var phase' := NextPhase(step, phase, entry, request);
            && (RequestOf(phase').Some? ==>
                  && RequestOf(phase').value in gate'.tasks
                  && GateAgrees(phase', gate'.tasks[RequestOf(phase').value])
                  && (RequestOf(phase') == RequestOf(phase) || (step.Recheck? && RequestOf(phase').value == request)))
            && (RequestOf(phase).Some? && RequestOf(phase').None? ==>
                  gate'.tasks[RequestOf(phase).value] in {G.Finished, G.Cancelled})
            && (RequestOf(phase).Some? && RequestOf(phase').Some? ==> RequestOf(phase') == RequestOf(phase))
  {
  }

  /** A local step only ever moves the gate task of its own `get`. */
  lemma OwnGateTask(w: World, step: Step)
    requires IsLocal(step) && LocalEnabled(w, step) && GateLinked(w)
    ensures var inner := GateStep(step, w.gets[step.g], w.entries[w.gets[step.g].entry], |w.requester|);
            inner.Some? ==>
              && G.IsSystem(inner.value) == !(inner.value.Arrive? || inner.value.Cancel?)
              && !inner.value.NotifyReprioritised? && !inner.value.Reprioritise?
              && (inner.value.Arrive? <==> inner.value.id == |w.requester|)
              && (!inner.value.Arrive? ==> RequestOf(w.gets[step.g]) == Some(inner.value.id))
  {
  }

  lemma GateTasksAfter(gate: G.World, inner: G.Step, gate': G.World)
    requires G.Next(gate, inner, gate') && !inner.NotifyReprioritised? && !inner.Reprioritise?
    ensures gate'.tasks.Keys == gate.tasks.Keys + {inner.id}
    ensures gate'.reprioritising == gate.reprioritising
  {
  }

  /** The requests of the other `get`s stay linked. */
  lemma OthersLinked(w: World, step: Step, w': World, r: Request)
    requires GateLinked(w) && IsLocal(step) && Next(w, step, w')
    requires r < |w.requester| && step.g in w.gets && RequestOf(w.gets[step.g]) != Some(r)
    ensures r in w'.gate.tasks && w'.gate.tasks[r] in {w.gate.tasks[r], G.Notified(w.gate.tasks[r])}
  {
    OwnGateTask(w, step);
    var inner := GateStep(step, w.gets[step.g], w.entries[w.gets[step.g].entry], |w.requester|);
    if inner.Some? {
      GateFrame(w.gate, inner.value, w'.gate, r);
    }
  }

  lemma LinkedMoved(w: World, step: Step, phase': Phase, w': World)
    requires GateLinked(w) && IsLocal(step) && step.g in w.gets && w'.gets == w.gets[step.g := phase']
    requires w'.gate.reprioritising == 0
    requires w'.requester == w.requester || w'.requester == w.requester + [step.g]
    requires forall r: Request :: r in w'.gate.tasks <==> r < |w'.requester|
    requires forall r: Request | r < |w.requester| && RequestOf(w.gets[step.g]) != Some(r) ::
               w'.gate.tasks[r] in {w.gate.tasks[r], G.Notified(w.gate.tasks[r])}
    requires RequestOf(phase').Some? ==>
               && RequestOf(phase').value < |w'.requester|
               && w'.requester[RequestOf(phase').value] == step.g
               && GateAgrees(phase', w'.gate.tasks[RequestOf(phase').value])
    requires |w'.requester| > |w.requester| ==>
               RequestOf(phase') == Some(|w.requester|) && RequestOf(w.gets[step.g]).None?
    requires RequestOf(w.gets[step.g]).Some? ==>
               RequestOf(phase') == RequestOf(w.gets[step.g])
               || w'.gate.tasks[RequestOf(w.gets[step.g]).value] in {G.Finished, G.Cancelled}
    ensures GateLinked(w')
  {
    forall g <- w'.gets.Keys | RequestOf(w'.gets[g]).Some?
      ensures RequestOf(w'.gets[g]).value < |w'.requester|
      ensures w'.requester[RequestOf(w'.gets[g]).value] == g
      ensures GateAgrees(w'.gets[g], w'.gate.tasks[RequestOf(w'.gets[g]).value])
    {
      if g != step.g {
        var r := RequestOf(w.gets[g]).value;
        assert w.requester[r] == g;
        assert RequestOf(w.gets[step.g]) != Some(r);
      }
    }
    forall r | 0 <= r < |w'.requester| && w'.gate.tasks[r] !in {G.Finished, G.Cancelled}
      ensures w'.requester[r] in w'.gets && RequestOf(w'.gets[w'.requester[r]]) == Some(r)
    {
      if r < |w.requester| && RequestOf(w.gets[step.g]) != Some(r) {
        assert w.gate.tasks[r] !in {G.Finished, G.Cancelled};
        assert w.requester[r] != step.g;
      }
    }
  }

  /** The gate knows exactly the requests issued after a local step. */
  lemma TasksFollowRequests(w: World, step: Step, w': World)
    requires GateLinked(w) && IsLocal(step) && Next(w, step, w')
    ensures w'.gate.reprioritising == 0 && forall r: Request :: r in w'.gate.tasks <==> r < |w'.requester|
  {
    OwnGateTask(w, step);
    var inner := GateStep(step, w.gets[step.g], w.entries[w.gets[step.g].entry], |w.requester|);
    if inner.Some? {
      GateTasksAfter(w.gate, inner.value, w'.gate);
    }
  }

  lemma GateLinkedLocal(w: World, step: Step, w': World)
    requires GateLinked(w) && IsLocal(step) && Next(w, step, w')
    ensures GateLinked(w')
  {
    var phase := w.gets[step.g];
    var entry := w.entries[phase.entry];
    GateFollowsPhase(step, phase, entry, |w.requester|, w.gate, w'.gate);
    TasksFollowRequests(w, step, w');
    forall r: Request | r < |w.requester| && RequestOf(phase) != Some(r)
      ensures w'.gate.tasks[r] in {w.gate.tasks[r], G.Notified(w.gate.tasks[r])}
    {
      OthersLinked(w, step, w', r);
    }
    LinkedMoved(w, step, NextPhase(step, phase, entry, |w.requester|), w');
  }

  /** A call, a glance and a sweep touch neither the gate nor what asked it for admission. */
  lemma GateLinkedAside(w: World, step: Step, w': World)
    requires GateLinked(w) && Next(w, step, w') && (step.Call? || step.Glance? || step.Sweep?)
    ensures GateLinked(w')
  {
  }

  lemma GateLinkedResolve(w: World, step: Step, w': World)
    requires GateLinked(w) && Next(w, step, w') && step.Resolve?
    ensures GateLinked(w')
  {
  }

  lemma GateLinkedStep(w: World, step: Step, w': World)
    requires GateLinked(w) && Next(w, step, w')
    ensures GateLinked(w')
  {
    if IsLocal(step) {
      GateLinkedLocal(w, step, w');
    } else if step.Resolve? {
      GateLinkedResolve(w, step, w');
    } else {
      GateLinkedAside(w, step, w');
    }
  }

  lemma GateInvStep(w: World, step: Step, w': World)
    requires G.Inv(w.gate) && Next(w, step, w')
    ensures G.Inv(w'.gate)
  {
    if IsLocal(step) {
      var inner := GateStep(step, w.gets[step.g], w.entries[w.gets[step.g].entry], |w.requester|);
      if inner.Some? {
        G.InvStep(w.gate, inner.value, w'.gate);
      }
    }
  }

  /** Every step keeps the store's invariant. */
  lemma InvStep(w: World, step: Step, w': World)
    requires Inv(w) && Next(w, step, w')
    ensures Inv(w')
  {
    IndexedStep(w, step, w');
    LocksStep(w, step, w');
    DataStep(w, step, w');
    GateLinkedStep(w, step, w');
    GateInvStep(w, step, w');
  }

  ghost predicate IsRun(trace: seq<World>, steps: seq<Step>) {
    && |trace| == |steps| + 1
    && forall i {:trigger steps[i]} | 0 <= i < |steps| :: Next(trace[i], steps[i], trace[i + 1])
  }

  lemma InitIsSound(w: World)
    requires Init(w)
    ensures Inv(w)
  {
    assert G.Holders(w.gate.tasks) == {};
  }

  lemma {:induction false} InvRun(trace: seq<World>, steps: seq<Step>, i: nat)
    requires IsRun(trace, steps) && Init(trace[0]) && i < |trace|
    ensures Inv(trace[i])
  {
    if i == 0 {
      InitIsSound(trace[0]);
    } else {
      InvRun(trace, steps, i - 1);
      InvStep(trace[i - 1], steps[i - 1], trace[i]);
    }
  }

  /** Handles to one asset are handles to one entry: an asset is never live twice. */
  lemma OneLiveEntryPerAsset(trace: seq<World>, steps: seq<Step>, i: nat, g: GetId, h: GetId, d: EntryId, e: EntryId)
    requires IsRun(trace, steps) && Init(trace[0]) && i < |trace|
    requires Holds(trace[i].gets, g, d) && Holds(trace[i].gets, h, e)
    ensures d < |trace[i].entries| && e < |trace[i].entries|
    ensures trace[i].entries[d].ref == trace[i].entries[e].ref ==> d == e
  {
    InvRun(trace, steps, i);
  }

  /** Entries stay what they are, and their bytes only ever go from absent to present. */
  ghost predicate Kept(w: World, w': World) {
    && |w.entries| <= |w'.entries|
    && forall e | 0 <= e < |w.entries| ::
         && w'.entries[e].ref == w.entries[e].ref
         && (w.entries[e].data.Some? ==> w'.entries[e].data == w.entries[e].data)
  }

  lemma KeptLocal(w: World, step: Step, w': World)
    requires Indexed(w) && DataAccounted(w) && IsLocal(step) && Next(w, step, w')
    ensures Kept(w, w')
  {
    LocalMoves(w, step, w');
    var e := w.gets[step.g].entry;
    assert Holds(w.gets, step.g, e);
    WritesOverNothing(w, step, w.gets[step.g], w.entries[e]);
  }

  lemma WritesOverNothing(w: World, step: Step, phase: Phase, entry: Entry)
    requires IsLocal(step) && PhaseAllows(step, phase) && DataAgrees(phase, entry.data)
    ensures entry.data.Some? ==> NextEntry(w, step, phase, entry).data == entry.data
  {
  }

  lemma KeptStep(w: World, step: Step, w': World)
    requires Indexed(w) && DataAccounted(w) && Next(w, step, w')
    ensures Kept(w, w')
  {
    if IsLocal(step) {
      KeptLocal(w, step, w');
    }
  }

  lemma {:induction false} KeptRun(trace: seq<World>, steps: seq<Step>, i: nat, j: nat)
    requires IsRun(trace, steps) && Init(trace[0]) && i <= j < |trace|
    ensures Kept(trace[i], trace[j])
  {
    if i < j {
      KeptRun(trace, steps, i, j - 1);
      KeptNow(trace, steps, j);
      KeptTransitive(trace[i], trace[j - 1], trace[j]);
    }
  }

  lemma KeptNow(trace: seq<World>, steps: seq<Step>, j: nat)
    requires IsRun(trace, steps) && Init(trace[0]) && 0 < j < |trace|
    ensures Kept(trace[j - 1], trace[j])
  {
    InvRun(trace, steps, j - 1);
    KeptStep(trace[j - 1], steps[j - 1], trace[j]);
  }

  lemma KeptTransitive(a: World, b: World, c: World)
    requires Kept(a, b) && Kept(b, c)
    ensures Kept(a, c)
  {
  }

  /** Single flight: in every interleaving an entry is loaded successfully at most once, and
      whoever still holds an entry from an answered `get` sees the bytes of that one load. */
  lemma AtMostOneLoad(trace: seq<World>, steps: seq<Step>, i: nat, j: nat, g: GetId, h: GetId, e: EntryId)
    requires IsRun(trace, steps) && Init(trace[0]) && i <= j < |trace|
    requires g in trace[i].gets && trace[i].gets[g] == Returned(e)
    requires h in trace[j].gets && trace[j].gets[h] == Returned(e)
    ensures e < |trace[i].entries| && e < |trace[j].entries| && e < |trace[j].loads|
    ensures trace[j].loads[e] == 1
    ensures trace[i].entries[e].data.Some? && trace[j].entries[e].data == trace[i].entries[e].data
  {
    InvRun(trace, steps, i);
    InvRun(trace, steps, j);
    assert Holds(trace[i].gets, g, e) && Holds(trace[j].gets, h, e);
    KeptRun(trace, steps, i, j);
  }

  /** `step` resolves an asset whose entry in the index is dead. */
  ghost predicate Replaces(w: World, step: Step) {
    && step.Resolve? && step.g in w.gets && w.gets[step.g].Called?
    && w.gets[step.g].ref in w.index && w.index[w.gets[step.g].ref] !in LiveSet(w.gets)
  }

  ghost function Replacements(trace: seq<World>, steps: seq<Step>, i: nat): nat
    requires i <= |steps| <= |trace|
  {
    if i == 0 then 0
    else Replacements(trace, steps, i - 1) + if Replaces(trace[i - 1], steps[i - 1]) then 1 else 0
  }

  lemma CountedStep(w: World, step: Step, w': World)
    requires Next(w, step, w')
    ensures |w'.entries| - |w'.index| - w'.collected
            == |w.entries| - |w.index| - w.collected + if Replaces(w, step) then 1 else 0
  {
    if IsLocal(step) {
      LocalMoves(w, step, w');
    } else if step.Sweep? {
      assert w'.index.Keys == w.index.Keys - {step.ref};
      assert |w'.index| == |w'.index.Keys| && |w.index| == |w.index.Keys|;
    }
  }

  /** Every entry ever made is still in the index, has been swept, or was replaced at the next
      `get` of its asset, nobody holding it any more. */
  lemma {:induction false} EveryEntryIsAccounted(trace: seq<World>, steps: seq<Step>, i: nat)
    requires IsRun(trace, steps) && Init(trace[0]) && i < |trace|
    ensures |trace[i].entries| == |trace[i].index| + trace[i].collected + Replacements(trace, steps, i)
  {
    if i > 0 {
      EveryEntryIsAccounted(trace, steps, i - 1);
      CountedStep(trace[i - 1], steps[i - 1], trace[i]);
    }
  }

  /** `step` is taken by `g`, the only one whose phase it changes. */
  predicate IsOf(step: Step, g: GetId) { !step.Sweep? && step.g == g }

  lemma {:induction false} PhaseWaits(trace: seq<World>, steps: seq<Step>, i: nat, j: nat, g: GetId)
    requires IsRun(trace, steps) && i <= j < |trace| && g in trace[i].gets
    requires forall k | i <= k < j :: !IsOf(steps[k], g)
    ensures g in trace[j].gets && trace[j].gets[g] == trace[i].gets[g]
    decreases j - i
  {
    if i < j {
      PhaseWaits(trace, steps, i, j - 1, g);
      assert Next(trace[j - 1], steps[j - 1], trace[j]);
    }
  }

  lemma ResolvesToHeld(w: World, g: GetId, h: GetId, e: EntryId, w': World)
    requires Indexed(w) && DataAccounted(w) && Next(w, Resolve(g), w')
    requires h in w.gets && w.gets[h] == Returned(e) && e < |w.entries| && w.gets[g].ref == w.entries[e].ref
    ensures g in w'.gets && w'.gets[g] == Resolved(e) && w.entries[e].data.Some?
  {
    assert Holds(w.gets, h, e) && e in LiveSet(w.gets);
  }

  lemma LooksAtPresent(w: World, g: GetId, e: EntryId, w': World)
    requires Next(w, Look(g), w') && g in w.gets && w.gets[g] == Resolved(e)
    requires e < |w.entries| && w.entries[e].data.Some?
    ensures g in w'.gets && w'.gets[g] == Returned(e)
    ensures w'.gate == w.gate && w'.loads == w.loads && w'.entries == w.entries
  {
  }

  /** A `get` for an asset somebody holds when its entry is resolved is answered from memory,
      without the gate and without a load, whatever happens before it looks: steps of any other
      task, and the holder's own handle being dropped. */
  lemma ReferencedAssetIsNotRefetched(trace: seq<World>, steps: seq<Step>, i: nat, j: nat, h: GetId, e: EntryId,
                                      g: GetId)
    requires IsRun(trace, steps) && Init(trace[0]) && i < j < |steps|
    requires h in trace[i].gets && trace[i].gets[h] == Returned(e) && e < |trace[i].entries|
    requires g in trace[i].gets && trace[i].gets[g] == Called(trace[i].entries[e].ref) && steps[i] == Resolve(g)
    requires steps[j] == Look(g) && forall k | i < k < j :: !IsOf(steps[k], g)
    ensures var w, w' := trace[j], trace[j + 1];
            && w'.gets[g] == Returned(e) && w'.gate == w.gate && w'.loads == w.loads && w'.entries == w.entries
            && e < |w'.entries| && w'.entries[e].data.Some? && w'.entries[e].data == trace[i].entries[e].data
  {
    StepTaken(trace, steps, i, trace[i], Resolve(g), trace[i + 1]);
    ResolvesToHeld(trace[i], g, h, e, trace[i + 1]);
    PhaseWaits(trace, steps, i + 1, j, g);
    KeptRun(trace, steps, i, j);
    StepTaken(trace, steps, j, trace[j], Look(g), trace[j + 1]);
    LooksAtPresent(trace[j], g, e, trace[j + 1]);
  }

  lemma StepTaken(trace: seq<World>, steps: seq<Step>, i: nat, w: World, step: Step, w': World)
    requires IsRun(trace, steps) && Init(trace[0]) && i < |steps|
    requires w == trace[i] && step == steps[i] && w' == trace[i + 1]
    ensures Next(w, step, w') && Inv(w)
  {
    InvRun(trace, steps, i);
  }

  // ---------------------------------------------------------------------------------
  // Enabled steps have successors.

  /** The world that a local step leads to, once the gate's step is chosen. */
  function LocalAfter(w: World, step: Step, gate: G.World): World
    requires IsLocal(step) && step.g in w.gets && PhaseAllows(step, w.gets[step.g])
    requires w.gets[step.g].entry < |w.entries| && (step.Load? ==> w.gets[step.g].entry < |w.loads|)
  {
    var phase := w.gets[step.g];
    var entry := w.entries[phase.entry];
    var inner := GateStep(step, phase, entry, |w.requester|);
    w.(gets := w.gets[step.g := NextPhase(step, phase, entry, |w.requester|)],
       entries := w.entries[phase.entry := NextEntry(w, step, phase, entry)],
       gate := gate,
       requester := if inner.Some? && inner.value.Arrive? then w.requester + [step.g] else w.requester,
       loads := if step.Load? && step.found.Some? then w.loads[phase.entry := w.loads[phase.entry] + 1] else w.loads)
  }

  lemma LocalStepExists(w: World, step: Step)
    requires Inv(w) && IsLocal(step) && LocalEnabled(w, step)
    ensures exists w' :: Next(w, step, w')
  {
    var inner := GateStep(step, w.gets[step.g], w.entries[w.gets[step.g].entry], |w.requester|);
    var gate := w.gate;
    if inner.Some? {
      G.StepExists(w.gate, inner.value);
      gate :| G.Next(w.gate, inner.value, gate);
    }
    assert Next(w, step, LocalAfter(w, step, gate));
  }

  /** Every enabled step of the store can be carried out. */
  lemma StepExists(w: World, step: Step)
    requires Inv(w) && Enabled(w, step)
    ensures exists w' :: Next(w, step, w')
  {
    match step
    case Call(g, ref) => assert Next(w, step, w.(gets := w.gets[g := Called(ref)]));
    case Glance(g, ref) => assert Next(w, step, w.(gets := w.gets[g := Peeked(w.index[ref])]));
    case Sweep(ref) => assert Next(w, step, w.(index := w.index - {ref}, collected := w.collected + 1));
    case Resolve(g) =>
      var (table, e) := Resolving(Table(w.index, w.entries), LiveSet(w.gets), w.gets[g].ref);
      assert Next(w, step, w.(gets := w.gets[g := Resolved(e)], index := table.index, entries := table.entries,
                              loads := if |table.entries| > |w.entries| then w.loads + [0] else w.loads));
    case _ => LocalStepExists(w, step);
  }

  // ---------------------------------------------------------------------------------
  // Progress: taking the fetch lock first and the gate second leaves no deadlock.

  /** Neither a new call nor a dropped handle, future or dead reference. */
  predicate IsSystem(step: Step) {
    !(step.Call? || step.Glance? || step.Sweep? || step.DropHandle? || step.Cancel?)
  }

  function StepsToGate(phase: Phase): nat {
    match phase
    case Called(_) => 4
    case Resolved(_) => 3
    case AwaitingLock(_) => 2
    case Locked(_) => 1
    case _ => 0
  }

  function StepsToAnswer(phase: Phase): nat {
    match phase
    case Acquiring(_, _) => 9
    case Loading(_, _, source) => (match source case Static => 8 case Disk => 7 case Network => 6)
    case PermitHeld(_, _, _) => 5
    case Notifying(_, _, _) => 4
    case Publishing(_, _) => 3
    case Announcing(_, _) => 2
    case Unlocking(_, _) => 1
    case _ => 0
  }

  ghost function Outside(w: World): nat { Total(w.gets, StepsToGate, 4) }

  ghost function Inside(w: World): nat { Total(w.gets, StepsToAnswer, 9) }

  lemma RanksFall(step: Step, phase: Phase, entry: Entry, request: Request)
    requires IsLocal(step) && IsSystem(step) && PhaseAllows(step, phase)
    ensures var phase' := NextPhase(step, phase, entry, request);
            var inner := GateStep(step, phase, entry, request);
            && (step.AtGate? ==> phase' == phase)
            && (inner.Some? && !inner.value.Arrive? ==> G.IsSystem(inner.value))
            && (if step.Look? || step.Lock? || step.Recheck? then
                  StepsToGate(phase') < StepsToGate(phase)
                else
                  && StepsToGate(phase') == StepsToGate(phase)
                  && (inner.Some? <==> step.AtGate? || step.ReturnPermit? || step.SendNotify?)
                  && (inner.Some? ==> !inner.value.Arrive?)
                  && (inner.None? ==> StepsToAnswer(phase') < StepsToAnswer(phase)))
  {
  }

  /** Every system step decreases this triple in the lexicographic order. */
  lemma SystemStepDecreases(w: World, step: Step, w': World)
    requires Next(w, step, w') && IsSystem(step)
    ensures || Outside(w') < Outside(w)
            || (Outside(w') == Outside(w) && G.Potential(w'.gate) < G.Potential(w.gate))
            || (Outside(w') == Outside(w) && w'.gate == w.gate && Inside(w') < Inside(w))
  {
    var g, phase := step.g, w.gets[step.g];
    if IsLocal(step) {
      var entry := w.entries[phase.entry];
      var inner := GateStep(step, phase, entry, |w.requester|);
      RanksFall(step, phase, entry, |w.requester|);
      TotalAfter(w.gets, StepsToGate, g, w'.gets[g], 4);
      TotalAfter(w.gets, StepsToAnswer, g, w'.gets[g], 9);
      if inner.Some? && !inner.value.Arrive? {
        G.SystemStepDecreases(w.gate, inner.value, w'.gate);
      }
    } else {
      TotalAfter(w.gets, StepsToGate, g, w'.gets[g], 4);
    }
  }

  ghost predicate SystemNext(w: World, step: Step, w': World) {
    IsSystem(step) && Next(w, step, w')
  }

  /** The lexicographic order of the triples. */
  ghost predicate Below(w': World, w: World) {
    || Outside(w') < Outside(w)
    || (Outside(w') == Outside(w) && G.Potential(w'.gate) < G.Potential(w.gate))
    || (Outside(w') == Outside(w) && G.Potential(w'.gate) == G.Potential(w.gate) && Inside(w') < Inside(w))
  }

  lemma SystemNextIsBelow(w: World, step: Step, w': World)
    requires SystemNext(w, step, w')
    ensures Below(w', w)
  {
    SystemStepDecreases(w, step, w');
  }

  lemma NoEndlessDescent(trace: nat -> World, i: nat)
    requires forall k: nat :: Below(trace(k + 1), trace(k))
    ensures false
    decreases Outside(trace(i)), G.Potential(trace(i).gate), Inside(trace(i))
  {
    assert Below(trace(i + 1), trace(i));
    NoEndlessDescent(trace, i + 1);
  }

  /** Under every scheduler, a run without new calls, drops or sweeps ends. */
  lemma EverySystemRunEnds(trace: nat -> World, steps: nat -> Step)
    ensures exists k: nat :: !SystemNext(trace(k), steps(k), trace(k + 1))
  {
    if forall k: nat :: SystemNext(trace(k), steps(k), trace(k + 1)) {
      forall k: nat ensures Below(trace(k + 1), trace(k)) {
        SystemNextIsBelow(trace(k), steps(k), trace(k + 1));
      }
      NoEndlessDescent(trace, 0);
    }
  }

  ghost predicate Quiescent(w: World) {
    forall step | IsSystem(step) :: !Enabled(w, step)
  }

  lemma QuiescentAcquiring(w: World, g: GetId)
    requires Indexed(w) && GateLinked(w) && Quiescent(w) && g in w.gets && w.gets[g].Acquiring?
    ensures w.gets[g].request in w.gate.tasks && w.gate.tasks[w.gets[g].request] == G.Asleep(false)
  {
    var r := w.gets[g].request;
    assert Holds(w.gets, g, w.gets[g].entry);
    assert !Enabled(w, Begin(g));
    assert !Enabled(w, AtGate(g, G.Listen(r)));
    assert !Enabled(w, AtGate(g, G.Check(r)));
    assert !Enabled(w, AtGate(g, G.Wake(r)));
  }

  /** A local step that neither takes the lock nor waits for the gate is enabled where its phase allows it. */
  lemma FreeToMove(w: World, step: Step)
    requires Indexed(w) && IsLocal(step) && step.g in w.gets && PhaseAllows(step, w.gets[step.g])
    requires step.Look? || step.Publish? || step.Announce? || step.Unlock?
    ensures Enabled(w, step)
  {
    assert Holds(w.gets, step.g, w.gets[step.g].entry);
  }

  lemma QuiescentWithPermit(w: World, g: GetId)
    requires Indexed(w) && GateLinked(w) && Quiescent(w) && g in w.gets
    ensures !w.gets[g].Loading? && !w.gets[g].PermitHeld? && !w.gets[g].Notifying?
  {
    if RequestOf(w.gets[g]).Some? {
      assert g in w.gets.Keys && Holds(w.gets, g, w.gets[g].entry);
      assert !Enabled(w, Load(g, None));
      assert !Enabled(w, ReturnPermit(g));
      assert !Enabled(w, SendNotify(g));
    }
  }

  lemma QuiescentLooking(w: World, g: GetId)
    requires Indexed(w) && Quiescent(w) && g in w.gets
    ensures !w.gets[g].Called? && !w.gets[g].Resolved?
  {
    assert !Enabled(w, Resolve(g));
    if w.gets[g].Resolved? { FreeToMove(w, Look(g)); }
  }

  lemma QuiescentStoring(w: World, g: GetId)
    requires Indexed(w) && Quiescent(w) && g in w.gets
    ensures !w.gets[g].Publishing? && !w.gets[g].Announcing? && !w.gets[g].Unlocking?
  {
    match w.gets[g]
    case Publishing(_, _) => FreeToMove(w, Publish(g));
    case Announcing(_, _) => FreeToMove(w, Announce(g));
    case Unlocking(_, _) => FreeToMove(w, Unlock(g));
    case _ =>
  }

  lemma QuiescentLocked(w: World, g: GetId)
    requires Inv(w) && Quiescent(w) && g in w.gets
    ensures !w.gets[g].Locked?
  {
    if EntryOf(w.gets[g]).Some? {
      assert Holds(w.gets, g, w.gets[g].entry);
    }
    assert !Enabled(w, Recheck(g));
  }

  /** In a quiescent store every unanswered `get` waits for a lock or sleeps at the gate. */
  lemma QuiescentPhase(w: World, g: GetId)
    requires Inv(w) && Quiescent(w) && g in w.gets
    ensures w.gets[g].AwaitingLock? || w.gets[g].Acquiring? || w.gets[g].Returned? || w.gets[g].Peeked?
            || w.gets[g].Gone?
  {
    QuiescentLooking(w, g);
    QuiescentLocked(w, g);
    QuiescentWithPermit(w, g);
    QuiescentStoring(w, g);
  }

  lemma QuiescentGate(w: World)
    requires Inv(w) && Quiescent(w)
    ensures forall g <- w.gets.Keys :: !w.gets[g].Acquiring?
  {
    forall r <- w.gate.tasks.Keys
      ensures w.gate.tasks[r] in {G.Asleep(false), G.Finished, G.Cancelled}
    {
      if w.gate.tasks[r] !in {G.Finished, G.Cancelled} {
        QuiescentPhase(w, w.requester[r]);
        QuiescentAcquiring(w, w.requester[r]);
      }
    }
    assert G.Quiescent(w.gate);
    G.QuiescentIsIdle(w.gate);
    forall g <- w.gets.Keys ensures !w.gets[g].Acquiring? {
      if w.gets[g].Acquiring? { QuiescentAcquiring(w, g); }
    }
  }

  // ---------------------------------------------------------------------------------
  // Where the bytes come from.

  /** Step `k` asks `source` for the asset of `g` and finds nothing there. */
  ghost predicate MissesAt(trace: seq<World>, steps: seq<Step>, k: int, g: GetId, source: Source)
    requires |steps| <= |trace|
  {
    && 0 <= k < |steps| && steps[k] == Load(g, None)
    && g in trace[k].gets && trace[k].gets[g].Loading? && trace[k].gets[g].source == source
  }

  ghost predicate MissedStatic(trace: seq<World>, steps: seq<Step>, i: nat, g: GetId)
    requires |steps| <= |trace|
  {
    exists a :: a < i && MissesAt(trace, steps, a, g, Static)
  }

  ghost predicate MissedBoth(trace: seq<World>, steps: seq<Step>, i: nat, g: GetId)
    requires |steps| <= |trace|
  {
    exists a, b :: a < b < i && MissesAt(trace, steps, a, g, Static) && MissesAt(trace, steps, b, g, Disk)
  }

  /** The static library, the disk and the network had nothing, one after another. */
  ghost predicate MissedEverywhere(trace: seq<World>, steps: seq<Step>, i: nat, g: GetId)
    requires |steps| <= |trace|
  {
    exists a, b, c :: a < b < c < i && MissesAt(trace, steps, a, g, Static) && MissesAt(trace, steps, b, g, Disk)
                      && MissesAt(trace, steps, c, g, Network)
  }

  lemma LoadingFollowsPhase(step: Step, phase: Phase, entry: Entry, request: Request)
    requires IsLocal(step) && PhaseAllows(step, phase) && NextPhase(step, phase, entry, request).Loading?
    ensures var phase' := NextPhase(step, phase, entry, request);
            || phase' == phase
            || (step.Begin? && phase'.source.Static?)
            || (step.Load? && step.found.None? && phase.source.Static? && phase'.source.Disk?)
            || (step.Load? && step.found.None? && phase.source.Disk? && phase'.source.Network?)
  {
  }

  /** Whoever asks a source has asked those before it in vain. */
  ghost predicate AskedBefore(trace: seq<World>, steps: seq<Step>, i: nat, g: GetId, source: Source)
    requires |steps| <= |trace|
  {
    match source
    case Static => true
    case Disk => MissedStatic(trace, steps, i, g)
    case Network => MissedBoth(trace, steps, i, g)
  }

  lemma AskedStays(trace: seq<World>, steps: seq<Step>, i: nat, g: GetId, source: Source)
    requires |steps| <= |trace| && AskedBefore(trace, steps, i, g, source)
    ensures AskedBefore(trace, steps, i + 1, g, source)
  {
    match source
    case Static =>
    case Disk =>
      var a :| a < i && MissesAt(trace, steps, a, g, Static);
    case Network =>
      var a, b :| a < b < i && MissesAt(trace, steps, a, g, Static) && MissesAt(trace, steps, b, g, Disk);
  }

  lemma AskedNext(trace: seq<World>, steps: seq<Step>, i: nat, g: GetId, source: Source, next: Source)
    requires |steps| <= |trace| && AskedBefore(trace, steps, i, g, source) && MissesAt(trace, steps, i, g, source)
    requires (source == Static && next == Disk) || (source == Disk && next == Network)
    ensures AskedBefore(trace, steps, i + 1, g, next)
  {
    if source == Disk {
      var a :| a < i && MissesAt(trace, steps, a, g, Static);
    }
  }

  lemma AskingStep(trace: seq<World>, steps: seq<Step>, i: nat, g: GetId, w: World, step: Step, w': World)
    requires |steps| <= |trace| && i < |steps| && w == trace[i] && step == steps[i]
    requires Next(w, step, w') && g in w'.gets && w'.gets[g].Loading?
    requires g in w.gets && w.gets[g].Loading? ==> AskedBefore(trace, steps, i, g, w.gets[g].source)
    ensures AskedBefore(trace, steps, i + 1, g, w'.gets[g].source)
  {
    if IsLocal(step) && step.g == g {
      LocalMoves(w, step, w');
      var phase := w.gets[g];
      LoadingFollowsPhase(step, phase, w.entries[phase.entry], |w.requester|);
      if w'.gets[g] == phase {
        AskedStays(trace, steps, i, g, phase.source);
      } else if step.Load? {
        AskedNext(trace, steps, i, g, phase.source, w'.gets[g].source);
      }
    } else {
      OthersKeepPhase(w, step, w', g);
      AskedStays(trace, steps, i, g, w.gets[g].source);
    }
  }

  lemma OthersKeepPhase(w: World, step: Step, w': World, g: GetId)
    requires Next(w, step, w') && g in w'.gets && !(IsLocal(step) && step.g == g)
    ensures (g in w.gets && w'.gets[g] == w.gets[g]) || w'.gets[g].Called? || w'.gets[g].Resolved? || w'.gets[g].Peeked?
  {
    if IsLocal(step) { LocalMoves(w, step, w'); }
  }

  lemma {:induction false} SourcesInOrder(trace: seq<World>, steps: seq<Step>, i: nat, g: GetId)
    requires IsRun(trace, steps) && Init(trace[0]) && i < |trace| && g in trace[i].gets && trace[i].gets[g].Loading?
    ensures AskedBefore(trace, steps, i, g, trace[i].gets[g].source)
  {
    if i > 0 {
      StepTaken(trace, steps, i - 1, trace[i - 1], steps[i - 1], trace[i]);
      if g in trace[i - 1].gets && trace[i - 1].gets[g].Loading? { SourcesInOrder(trace, steps, i - 1, g); }
      AskingStep(trace, steps, i - 1, g, trace[i - 1], steps[i - 1], trace[i]);
    }
  }

  /** The load is over, with bytes or without. */
  predicate PastLoading(phase: Phase) {
    phase.PermitHeld? || phase.Notifying? || phase.Publishing? || phase.Announcing? || phase.Unlocking?
    || phase.Returned? || phase.Gone?
  }

  lemma PastLoadingStays(step: Step, phase: Phase, entry: Entry, request: Request)
    requires IsLocal(step) && PhaseAllows(step, phase)
    requires PastLoading(phase) || (step.Load? && step.found.Some?)
    ensures PastLoading(NextPhase(step, phase, entry, request))
  {
  }

  lemma PastLoadingStep(w: World, step: Step, w': World, g: GetId)
    requires Next(w, step, w') && g in w.gets
    requires PastLoading(w.gets[g]) || (step.Load? && step.g == g && step.found.Some?)
    ensures g in w'.gets && PastLoading(w'.gets[g])
  {
    if IsLocal(step) {
      LocalMoves(w, step, w');
      if step.g == g { PastLoadingStays(step, w.gets[g], w.entries[w.gets[g].entry], |w.requester|); }
    }
  }

  lemma {:induction false} StaysPastLoading(trace: seq<World>, steps: seq<Step>, i: nat, j: nat, g: GetId)
    requires IsRun(trace, steps) && Init(trace[0]) && i <= j < |trace|
    requires g in trace[i].gets && PastLoading(trace[i].gets[g])
    ensures g in trace[j].gets && PastLoading(trace[j].gets[g])
    decreases j
  {
    if i < j {
      StaysPastLoading(trace, steps, i, j - 1, g);
      StepTaken(trace, steps, j - 1, trace[j - 1], steps[j - 1], trace[j]);
      PastLoadingStep(trace[j - 1], steps[j - 1], trace[j], g);
    }
  }

  lemma NoLoadAfterBytes(trace: seq<World>, steps: seq<Step>, i: nat, j: nat, g: GetId)
    requires IsRun(trace, steps) && Init(trace[0]) && i < j < |steps|
    requires steps[i].Load? && steps[i].g == g && steps[i].found.Some?
    ensures !(steps[j].Load? && steps[j].g == g)
  {
    StepTaken(trace, steps, i, trace[i], steps[i], trace[i + 1]);
    PastLoadingStep(trace[i], steps[i], trace[i + 1], g);
    StaysPastLoading(trace, steps, i + 1, j, g);
    LoadAt(trace, steps, j);
  }

  lemma LoadAt(trace: seq<World>, steps: seq<Step>, i: nat)
    requires IsRun(trace, steps) && Init(trace[0]) && i < |steps|
    ensures steps[i].Load? ==> steps[i].g in trace[i].gets && trace[i].gets[steps[i].g].Loading?
  {
    if steps[i].Load? {
      StepTaken(trace, steps, i, trace[i], steps[i], trace[i + 1]);
      LoadsWhileLoading(trace[i], steps[i], trace[i + 1]);
    }
  }

  lemma LoadsWhileLoading(w: World, step: Step, w': World)
    requires Next(w, step, w') && step.Load?
    ensures step.g in w.gets && w.gets[step.g].Loading?
    ensures step.found.Some? ==> Configured(w, w.gets[step.g].source)
  {
  }

  /** A `get` asks the static library first, the disk only if that had nothing, and the network
      only if neither had; it finds bytes only at a source there is, and asks nobody afterwards. */
  lemma LoadsGoInOrder(trace: seq<World>, steps: seq<Step>, i: nat, g: GetId, found: Option<Bytes>)
    requires IsRun(trace, steps) && Init(trace[0]) && i < |steps| && steps[i] == Load(g, found)
    ensures g in trace[i].gets && trace[i].gets[g].Loading?
    ensures trace[i].gets[g].source == Disk ==> exists a :: a < i && MissesAt(trace, steps, a, g, Static)
    ensures trace[i].gets[g].source == Network ==> exists a, b ::
              a < b < i && MissesAt(trace, steps, a, g, Static) && MissesAt(trace, steps, b, g, Disk)
    ensures found.Some? && trace[i].gets[g].source == Static ==> trace[i].hasStatic
    ensures found.Some? && trace[i].gets[g].source == Disk ==> trace[i].hasDisk
    ensures found.Some? ==> forall j | i < j < |steps| :: !(steps[j].Load? && steps[j].g == g)
  {
    StepTaken(trace, steps, i, trace[i], steps[i], trace[i + 1]);
    LoadsWhileLoading(trace[i], steps[i], trace[i + 1]);
    SourcesInOrder(trace, steps, i, g);
    if found.Some? {
      forall j | i < j < |steps| ensures !(steps[j].Load? && steps[j].g == g) {
        NoLoadAfterBytes(trace, steps, i, j, g);
      }
    }
  }

  /** A `get` whose network load failed has missed everywhere. */
  lemma MissedAtLast(trace: seq<World>, steps: seq<Step>, i: nat, g: GetId, c: nat)
    requires IsRun(trace, steps) && Init(trace[0]) && c < i <= |steps| && MissesAt(trace, steps, c, g, Network)
    ensures MissedEverywhere(trace, steps, i, g)
  {
    LoadsGoInOrder(trace, steps, c, g, None);
    var a, b :| a < b < c && MissesAt(trace, steps, a, g, Static) && MissesAt(trace, steps, b, g, Disk);
  }

  /** Step `k` finds `bytes` for entry `e`. */
  ghost predicate LoadsAt(trace: seq<World>, steps: seq<Step>, k: int, e: EntryId, bytes: Bytes)
    requires |steps| <= |trace|
  {
    && 0 <= k < |steps| && steps[k].Load? && steps[k].found == Some(bytes)
    && steps[k].g in trace[k].gets && trace[k].gets[steps[k].g].Loading? && trace[k].gets[steps[k].g].entry == e
  }

  ghost predicate WasLoaded(trace: seq<World>, steps: seq<Step>, i: nat, e: EntryId, bytes: Bytes)
    requires |steps| <= |trace|
  {
    exists k :: k < i && LoadsAt(trace, steps, k, e, bytes)
  }

  /** The bytes on their way into the entry. */
  function BytesOf(phase: Phase): Option<Bytes> {
    match phase
    case PermitHeld(_, _, Loaded(bytes)) => Some(bytes)
    case Notifying(_, _, Loaded(bytes)) => Some(bytes)
    case Publishing(_, Loaded(bytes)) => Some(bytes)
    case _ => None
  }

  lemma BytesFollowPhase(w: World, step: Step, phase: Phase, entry: Entry, request: Request)
    requires IsLocal(step) && PhaseAllows(step, phase)
    ensures var phase' := NextPhase(step, phase, entry, request);
            BytesOf(phase').Some? ==>
              && phase'.entry == phase.entry
              && (BytesOf(phase) == BytesOf(phase') || (step.Load? && step.found == BytesOf(phase')))
    ensures var entry' := NextEntry(w, step, phase, entry);
            entry'.data.Some? ==> entry'.data == entry.data || entry'.data == BytesOf(phase)
  {
  }

  /** All bytes in entries, and on their way there, have been found for them. */
  ghost predicate AllLoaded(trace: seq<World>, steps: seq<Step>, i: nat, w: World)
    requires |steps| <= |trace|
  {
    && (forall g: GetId | g in w.gets && BytesOf(w.gets[g]).Some? ::
          WasLoaded(trace, steps, i, w.gets[g].entry, BytesOf(w.gets[g]).value))
    && forall e | 0 <= e < |w.entries| && w.entries[e].data.Some? ::
         WasLoaded(trace, steps, i, e, w.entries[e].data.value)
  }

  lemma WasLoadedStays(trace: seq<World>, steps: seq<Step>, i: nat, e: EntryId, bytes: Bytes)
    requires |steps| <= |trace| && WasLoaded(trace, steps, i, e, bytes)
    ensures WasLoaded(trace, steps, i + 1, e, bytes)
  {
    var k :| k < i && LoadsAt(trace, steps, k, e, bytes);
  }

  lemma BytesLoadedStep(trace: seq<World>, steps: seq<Step>, i: nat, w: World, step: Step, w': World, g: GetId)
    requires |steps| <= |trace| && i < |steps| && w == trace[i] && step == steps[i] && Next(w, step, w')
    requires AllLoaded(trace, steps, i, w) && g in w'.gets && BytesOf(w'.gets[g]).Some?
    ensures WasLoaded(trace, steps, i + 1, w'.gets[g].entry, BytesOf(w'.gets[g]).value)
  {
    if IsLocal(step) && step.g == g {
      LocalMoves(w, step, w');
      var phase := w.gets[g];
      BytesFollowPhase(w, step, phase, w.entries[phase.entry], |w.requester|);
      if BytesOf(phase) == BytesOf(w'.gets[g]) {
        WasLoadedStays(trace, steps, i, phase.entry, BytesOf(phase).value);
      } else {
        assert LoadsAt(trace, steps, i, phase.entry, BytesOf(w'.gets[g]).value);
      }
    } else {
      OthersKeepPhase(w, step, w', g);
      WasLoadedStays(trace, steps, i, w.gets[g].entry, BytesOf(w.gets[g]).value);
    }
  }

  lemma DataLoadedStep(trace: seq<World>, steps: seq<Step>, i: nat, w: World, step: Step, w': World, e: EntryId)
    requires |steps| <= |trace| && i < |steps| && w == trace[i] && step == steps[i] && Next(w, step, w')
    requires AllLoaded(trace, steps, i, w) && e < |w'.entries| && w'.entries[e].data.Some?
    ensures WasLoaded(trace, steps, i + 1, e, w'.entries[e].data.value)
  {
    if IsLocal(step) {
      LocalMoves(w, step, w');
      var phase := w.gets[step.g];
      BytesFollowPhase(w, step, phase, w.entries[phase.entry], |w.requester|);
    }
    WasLoadedStays(trace, steps, i, e, w'.entries[e].data.value);
  }

  lemma AllLoadedStep(trace: seq<World>, steps: seq<Step>, i: nat, w: World, step: Step, w': World)
    requires |steps| <= |trace| && i < |steps| && w == trace[i] && step == steps[i] && Next(w, step, w')
    requires AllLoaded(trace, steps, i, w)
    ensures AllLoaded(trace, steps, i + 1, w')
  {
    forall g: GetId | g in w'.gets && BytesOf(w'.gets[g]).Some?
      ensures WasLoaded(trace, steps, i + 1, w'.gets[g].entry, BytesOf(w'.gets[g]).value)
    {
      BytesLoadedStep(trace, steps, i, w, step, w', g);
    }
    forall e | 0 <= e < |w'.entries| && w'.entries[e].data.Some?
      ensures WasLoaded(trace, steps, i + 1, e, w'.entries[e].data.value)
    {
      DataLoadedStep(trace, steps, i, w, step, w', e);
    }
  }

  /** What an entry holds was found for it at one of its sources. */
  lemma {:induction false} BytesAreThoseLoaded(trace: seq<World>, steps: seq<Step>, i: nat)
    requires IsRun(trace, steps) && Init(trace[0]) && i < |trace|
    ensures AllLoaded(trace, steps, i, trace[i])
  {
    if i > 0 {
      BytesAreThoseLoaded(trace, steps, i - 1);
      StepTaken(trace, steps, i - 1, trace[i - 1], steps[i - 1], trace[i]);
      AllLoadedStep(trace, steps, i - 1, trace[i - 1], steps[i - 1], trace[i]);
    }
  }

  /** `g` was started, by `get` or by `peek`, for `ref`. */
  ghost predicate StartedFor(steps: seq<Step>, i: nat, g: GetId, ref: AssetRef) {
    exists k {:trigger steps[k]} :: 0 <= k < i <= |steps| && (steps[k] == Call(g, ref) || steps[k] == Glance(g, ref))
  }

  /** The asset that a call is about. */
  ghost predicate IsAbout(w: World, phase: Phase, ref: AssetRef) {
    match phase
    case Called(r) => r == ref
    case Gone => true
    case _ => phase.entry < |w.entries| && w.entries[phase.entry].ref == ref
  }

  lemma AboutStep(w: World, step: Step, w': World, g: GetId, ref: AssetRef)
    requires Indexed(w) && Next(w, step, w') && g in w'.gets
    requires if g in w.gets then IsAbout(w, w.gets[g], ref) else step == Call(g, ref) || step == Glance(g, ref)
    ensures IsAbout(w', w'.gets[g], ref)
  {
    if IsLocal(step) { LocalMoves(w, step, w'); }
  }

  lemma StartedStays(steps: seq<Step>, i: nat, g: GetId, ref: AssetRef)
    requires i < |steps| && (StartedFor(steps, i, g, ref) || steps[i] == Call(g, ref) || steps[i] == Glance(g, ref))
    ensures StartedFor(steps, i + 1, g, ref)
  {
    if StartedFor(steps, i, g, ref) {
      var k :| 0 <= k < i && (steps[k] == Call(g, ref) || steps[k] == Glance(g, ref));
    }
  }

  /** The handle a call is answered with is one to the asset it asked for. */
  lemma {:induction false} AnsweredWithItsAsset(trace: seq<World>, steps: seq<Step>, i: nat, g: GetId)
    returns (ref: AssetRef)
    requires IsRun(trace, steps) && Init(trace[0]) && i < |trace| && g in trace[i].gets
    ensures StartedFor(steps, i, g, ref) && IsAbout(trace[i], trace[i].gets[g], ref)
  {
    StepTaken(trace, steps, i - 1, trace[i - 1], steps[i - 1], trace[i]);
    if g in trace[i - 1].gets {
      ref := AnsweredWithItsAsset(trace, steps, i - 1, g);
    } else {
      ref := StartOf(trace[i - 1], steps[i - 1], trace[i], g);
    }
    StartedStays(steps, i - 1, g, ref);
    AboutStep(trace[i - 1], steps[i - 1], trace[i], g, ref);
  }

  lemma StartOf(w: World, step: Step, w': World, g: GetId) returns (ref: AssetRef)
    requires Next(w, step, w') && g in w'.gets && g !in w.gets
    ensures step == Call(g, ref) || step == Glance(g, ref)
  {
    if IsLocal(step) { LocalMoves(w, step, w'); }
    ref := step.ref;
  }

  // ---------------------------------------------------------------------------------
  // How calls end.

  /** `step` drops the future of `g`, its handle, or ends its last try without bytes. */
  predicate GivesUp(w: World, step: Step, g: GetId) {
    || step == Cancel(g)
    || step == DropHandle(g)
    || (step == Load(g, None) && g in w.gets && w.gets[g].Loading? && w.gets[g].source.Network?)
  }

  /** Nothing more comes of a `get` in this phase. */
  predicate GivenUp(phase: Phase) {
    match phase
    case PermitHeld(_, _, outcome) => !outcome.Loaded?
    case Notifying(_, _, outcome) => !outcome.Loaded?
    case Publishing(_, outcome) => !outcome.Loaded?
    case Unlocking(_, ok) => !ok
    case Gone => true
    case _ => false
  }

  lemma GivenUpFollowsPhase(step: Step, phase: Phase, entry: Entry, request: Request)
    requires IsLocal(step) && PhaseAllows(step, phase)
    ensures GivenUp(NextPhase(step, phase, entry, request)) <==>
            GivenUp(phase) || step.Cancel? || step.DropHandle?
            || (step.Load? && step.found.None? && phase.source.Network?)
  {
  }

  lemma GivenUpStep(w: World, step: Step, w': World, g: GetId)
    requires Next(w, step, w') && g in w'.gets
    ensures GivenUp(w'.gets[g]) <==> (g in w.gets && GivenUp(w.gets[g])) || GivesUp(w, step, g)
  {
    if IsLocal(step) {
      LocalMoves(w, step, w');
      GivenUpFollowsPhase(step, w.gets[step.g], w.entries[w.gets[step.g].entry], |w.requester|);
    }
  }

  /** A call is given up exactly if it was cancelled, its handle was dropped or its last source had no bytes. */
  lemma {:induction false} GivenUpExactlyWhen(trace: seq<World>, steps: seq<Step>, i: nat, g: GetId)
    requires IsRun(trace, steps) && Init(trace[0]) && i < |trace| && g in trace[i].gets
    ensures GivenUp(trace[i].gets[g]) <==> HasGivenUp(trace, steps, i, g)
  {
    if i > 0 {
      StepTaken(trace, steps, i - 1, trace[i - 1], steps[i - 1], trace[i]);
      GivenUpStep(trace[i - 1], steps[i - 1], trace[i], g);
      HasGivenUpNext(trace, steps, i, g);
      if g in trace[i - 1].gets {
        GivenUpExactlyWhen(trace, steps, i - 1, g);
      } else {
        NeverSeen(trace, steps, i - 1, g);
      }
    }
  }

  /** One of the first `i` steps gave the call up. */
  ghost predicate HasGivenUp(trace: seq<World>, steps: seq<Step>, i: nat, g: GetId)
    requires i <= |steps| <= |trace|
  {
    exists k {:trigger steps[k]} :: 0 <= k < i && GivesUp(trace[k], steps[k], g)
  }

  lemma HasGivenUpNext(trace: seq<World>, steps: seq<Step>, i: nat, g: GetId)
    requires 0 < i <= |steps| <= |trace|
    ensures HasGivenUp(trace, steps, i, g)
       <==> HasGivenUp(trace, steps, i - 1, g) || GivesUp(trace[i - 1], steps[i - 1], g)
  {
  }

  lemma {:induction false} NeverSeen(trace: seq<World>, steps: seq<Step>, i: nat, g: GetId)
    requires IsRun(trace, steps) && i < |trace| && g !in trace[i].gets
    ensures !HasGivenUp(trace, steps, i, g)
  {
    if i > 0 {
      assert Next(trace[i - 1], steps[i - 1], trace[i]);
      NeverSeen(trace, steps, i - 1, g);
      HasGivenUpNext(trace, steps, i, g);
    }
  }

  /** A waiter for the lock of an entry in a quiescent store would wait for an owner that can move. */
  lemma NobodyAwaitsLock(w: World, g: GetId)
    requires Inv(w) && Quiescent(w) && g in w.gets
    ensures !w.gets[g].AwaitingLock?
  {
    if w.gets[g].AwaitingLock? {
      var e := w.gets[g].entry;
      assert Holds(w.gets, g, e);
      assert !Enabled(w, Lock(g));
      var owner := w.entries[e].owner.value;
      assert Holds(w.gets, owner, e);
      QuiescentPhase(w, owner);
      QuiescentGate(w);
    }
  }

  lemma QuiescentIsAnswered(w: World, g: GetId)
    requires Inv(w) && Quiescent(w) && g in w.gets
    ensures w.gets[g].Gone? || w.gets[g].Peeked? ||
            (w.gets[g].Returned? && w.gets[g].entry < |w.entries| && w.entries[w.gets[g].entry].data.Some?)
  {
    QuiescentGate(w);
    QuiescentPhase(w, g);
    NobodyAwaitsLock(w, g);
    if w.gets[g].Returned? { assert Holds(w.gets, g, w.gets[g].entry); }
  }

  /** The future of `g`, or its handle, was dropped. */
  ghost predicate WasDropped(steps: seq<Step>, i: nat, g: GetId) {
    exists k {:trigger steps[k]} :: 0 <= k < i <= |steps| && (steps[k] == Cancel(g) || steps[k] == DropHandle(g))
  }

  lemma GivenUpMeans(trace: seq<World>, steps: seq<Step>, i: nat, g: GetId)
    requires IsRun(trace, steps) && Init(trace[0]) && i <= |steps|
    ensures HasGivenUp(trace, steps, i, g) <==> WasDropped(steps, i, g) || MissedEverywhere(trace, steps, i, g)
  {
    if HasGivenUp(trace, steps, i, g) && !WasDropped(steps, i, g) {
      var c :| 0 <= c < i && GivesUp(trace[c], steps[c], g);
      MissedAtLast(trace, steps, i, g, c);
    }
    if MissedEverywhere(trace, steps, i, g) {
      var a, b, c :| a < b < c < i && MissesAt(trace, steps, a, g, Static) && MissesAt(trace, steps, b, g, Disk)
          && MissesAt(trace, steps, c, g, Network);
      assert GivesUp(trace[c], steps[c], g);
    }
  }

  /** No deadlock: where no task can move, every `get` has been answered.  It is gone exactly if
      it was cancelled, found no bytes anywhere or has dropped its handle; otherwise the caller
      holds an entry with its bytes present.  Whoever only peeked holds the entry as it is. */
  lemma EveryGetIsAnswered(trace: seq<World>, steps: seq<Step>, g: GetId)
    requires IsRun(trace, steps) && Init(trace[0])
    requires Quiescent(trace[|steps|]) && g in trace[|steps|].gets
    ensures var w := trace[|steps|];
            w.gets[g].Gone? || w.gets[g].Peeked? ||
            (w.gets[g].Returned? && w.gets[g].entry < |w.entries| && w.entries[w.gets[g].entry].data.Some?)
    ensures trace[|steps|].gets[g].Gone? <==>
            WasDropped(steps, |steps|, g) || MissedEverywhere(trace, steps, |steps|, g)
  {
    InvRun(trace, steps, |steps|);
    QuiescentIsAnswered(trace[|steps|], g);
    GivenUpExactlyWhen(trace, steps, |steps|, g);
    GivenUpMeans(trace, steps, |steps|, g);
  }

  // ---------------------------------------------------------------------------------
  // What an entry shows of its progress.

  /** Bytes that are present show their length, unless that is just about to be announced; and an
      entry shows a download exactly while one is asked for, or was cut off. */
  ghost predicate ProgressAgrees(w: World) {
    && (forall e | 0 <= e < |w.entries| && w.entries[e].data.Some? ::
          w.entries[e].progress == Ready(|w.entries[e].data.value|) || IsAnnouncing(w, e))
    && forall g: GetId | g in w.gets && w.gets[g].Loading? && w.gets[g].source.Network? ::
         w.gets[g].entry < |w.entries| && w.entries[w.gets[g].entry].progress == Downloading
  }

  predicate IsAnnouncing(w: World, e: EntryId)
    requires e < |w.entries|
  {
    w.entries[e].owner.Some? && w.entries[e].owner.value in w.gets && w.gets[w.entries[e].owner.value].Announcing?
  }

  lemma ProgressFollowsPhase(w: World, step: Step, phase: Phase, entry: Entry, request: Request)
    requires IsLocal(step) && PhaseAllows(step, phase) && DataAgrees(phase, entry.data)
    requires phase.Loading? && phase.source.Network? ==> entry.progress == Downloading
    requires entry.data.Some? && (Owns(phase) || step.Lock?) ==>
               (entry.progress == Ready(|entry.data.value|) || phase.Announcing?)
    ensures var phase' := NextPhase(step, phase, entry, request); var entry' := NextEntry(w, step, phase, entry);
            && (phase'.Loading? && phase'.source.Network? ==> entry'.progress == Downloading)
            && ((Owns(phase) || step.Lock?) && entry'.data.Some? ==>
                  (entry'.progress == Ready(|entry'.data.value|) || phase'.Announcing?))
            && (!Owns(phase) && !step.Lock? ==> entry' == entry)
  {
  }

  lemma ProgressLocal(w: World, step: Step, w': World)
    requires Indexed(w) && LocksAgree(w) && LocksAgree(w') && DataAccounted(w) && ProgressAgrees(w)
    requires IsLocal(step) && Next(w, step, w')
    ensures ProgressAgrees(w')
  {
    LocalMoves(w, step, w');
    var phase := w.gets[step.g];
    var entry := w.entries[phase.entry];
    assert step.g in w.gets.Keys && Holds(w.gets, step.g, phase.entry);
    ProgressFollowsPhase(w, step, phase, entry, |w.requester|);
    LockFollowsPhase(w, step, phase, entry, |w.requester|);
    ProgressMoved(w, step.g, NextPhase(step, phase, entry, |w.requester|), NextEntry(w, step, phase, entry), w');
  }

  lemma ProgressMoved(w: World, g: GetId, phase': Phase, entry': Entry, w': World)
    requires LocksAgree(w) && LocksAgree(w') && ProgressAgrees(w) && Moved(w, g, phase', entry', w')
    requires phase'.Loading? && phase'.source.Network? ==> entry'.progress == Downloading
    requires (Owns(w.gets[g]) || Owns(phase')) && entry'.data.Some? ==>
               (entry'.progress == Ready(|entry'.data.value|) || (phase'.Announcing? && entry'.owner == Some(g)))
    requires !Owns(w.gets[g]) && !Owns(phase') ==> entry' == w.entries[w.gets[g].entry]
    ensures ProgressAgrees(w')
  {
  }

  lemma ProgressElsewhere(w: World, step: Step, w': World)
    requires Indexed(w) && LocksAgree(w) && ProgressAgrees(w) && !IsLocal(step) && Next(w, step, w')
    ensures ProgressAgrees(w')
  {
    forall e | 0 <= e < |w'.entries| && w'.entries[e].data.Some?
      ensures w'.entries[e].progress == Ready(|w'.entries[e].data.value|) || IsAnnouncing(w', e)
    {
      assert e < |w.entries| && w'.entries[e] == w.entries[e];
      if w.entries[e].owner.Some? { assert Holds(w.gets, w.entries[e].owner.value, e); }
    }
  }

  lemma ProgressStep(w: World, step: Step, w': World)
    requires Inv(w) && ProgressAgrees(w) && Next(w, step, w')
    ensures ProgressAgrees(w')
  {
    if IsLocal(step) {
      LocksLocal(w, step, w');
      ProgressLocal(w, step, w');
    } else {
      ProgressElsewhere(w, step, w');
    }
  }

  lemma {:induction false} ProgressIsTrue(trace: seq<World>, steps: seq<Step>, i: nat)
    requires IsRun(trace, steps) && Init(trace[0]) && i < |trace|
    ensures ProgressAgrees(trace[i])
  {
    if i > 0 {
      ProgressIsTrue(trace, steps, i - 1);
      StepTaken(trace, steps, i - 1, trace[i - 1], steps[i - 1], trace[i]);
      ProgressStep(trace[i - 1], steps[i - 1], trace[i]);
    }
  }
}
