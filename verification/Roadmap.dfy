/** The roadmap validator: ids, placement, and a `blocked_by` order that agrees with the statuses. */
module Roadmap {
  import opened CycleDetection
  import opened Digraph
  import opened Sequences

  /** The status directories. */
  datatype Status = Ideas | Ready | Blocked | InProgress | Bugs | Done | Deferred | WontDo

  function StatusName(s: Status): string {
    match s
    case Ideas => "ideas"
    case Ready => "ready"
    case Blocked => "blocked"
    case InProgress => "in-progress"
    case Bugs => "bugs"
    case Done => "done"
    case Deferred => "deferred"
    case WontDo => "wont-do"
  }

  /** One task file: absent front-matter entries are empty. */
  datatype Task = Task(id: Id, status: Status, declared: string, topic: string, refs: seq<Id>, blockedBy: seq<Id>)

  const TOPICS: set<string> := {
    "protocol", "viewer", "idiomatic", "chat", "permission", "inventory", "missing", "test", "api", "repl", "aditi",
    "server", "gridspec"}

  /** The statuses that rule out open blockers. */
  predicate BlockIntolerant(s: Status) { s.Ready? || s.InProgress? || s.Done? }

  datatype Error =
    | MissingId
    | DuplicateId(id: Id)
    | StatusMismatch(declared: string)
    | UnknownTopic(topic: string)
    | BlocksItself
    | DanglingBlocker(blocker: Id)
    | NoBlockerDeclared
    | EveryBlockerDone
    | OpenBlockers(open: seq<Id>)
    | Cycle(chain: seq<Id>)

  datatype Warning = DanglingRef(ref: Id) | PermanentBlock(blocker: Id)

  // ---------------------------------------------------------------------------------
  // The id table.

  /** Tasks by id, with the ids in the order they were first seen. */
  datatype Table = Table(tasks: map<Id, Task>, order: seq<Id>)

  function Enter(t: Table, task: Task): (Table, seq<Error>) {
    if task.id == "" then (t, [MissingId])
    else if task.id in t.tasks then (Table(t.tasks[task.id := task], t.order), [DuplicateId(task.id)])
    else (Table(t.tasks[task.id := task], t.order + [task.id]), [])
  }

  function TableOf(tasks: seq<Task>): (Table, seq<Error>) {
    if tasks == [] then (Table(map[], []), [])
    else
      var n := |tasks| - 1;
      var (t, errors) := TableOf(tasks[..n]);
      var (t', more) := Enter(t, tasks[n]);
      (t', errors + more)
  }

  function Ids(tasks: seq<Task>): map<Id, Task> { TableOf(tasks).0.tasks }

  // ---------------------------------------------------------------------------------
  // The checks on one task.

  function PlacementErrors(task: Task): seq<Error> {
    (if task.declared != "" && task.declared != StatusName(task.status) then [StatusMismatch(task.declared)] else [])
    + if task.topic != "" && task.topic !in TOPICS then [UnknownTopic(task.topic)] else []
  }

  function RefWarnings(refs: seq<Id>, ids: map<Id, Task>): seq<Warning> {
    if refs == [] then [] else (if refs[0] !in ids then [DanglingRef(refs[0])] else []) + RefWarnings(refs[1..], ids)
  }

  /** The list without repetitions, in first-seen order. */
  function Dedup(s: seq<Id>): seq<Id> {
    if s == [] then []
    else
      var n := |s| - 1;
      if s[n] in s[..n] then Dedup(s[..n]) else Dedup(s[..n]) + [s[n]]
  }

  function BlockersOf(task: Task): seq<Id> { Dedup(task.blockedBy) }

  function ErrorOf(task: Task, blocker: Id, ids: map<Id, Task>): seq<Error> {
    if blocker == task.id then [BlocksItself] else if blocker !in ids then [DanglingBlocker(blocker)] else []
  }

  function WarningOf(task: Task, blocker: Id, ids: map<Id, Task>): seq<Warning> {
    if blocker != task.id && blocker in ids && ids[blocker].status.WontDo? then [PermanentBlock(ids[blocker].id)]
        else []
  }

  function ResolvedOf(task: Task, blocker: Id, ids: map<Id, Task>): seq<Task> {
    if blocker != task.id && blocker in ids then [ids[blocker]] else []
  }

  function LinkErrors(task: Task, blockers: seq<Id>, ids: map<Id, Task>): seq<Error> {
    if blockers == [] then []
    else ErrorOf(task, blockers[0], ids) + LinkErrors(task, blockers[1..], ids)
  }

  function Resolved(task: Task, blockers: seq<Id>, ids: map<Id, Task>): seq<Task> {
    if blockers == [] then []
    else ResolvedOf(task, blockers[0], ids) + Resolved(task, blockers[1..], ids)
  }

  function LinkWarnings(resolved: seq<Task>): seq<Warning> {
    if resolved == [] then []
    else (if resolved[0].status.WontDo? then [PermanentBlock(resolved[0].id)] else []) + LinkWarnings(resolved[1..])
  }

  function OpenOf(resolved: seq<Task>): seq<Id> {
    if resolved == [] then []
    else (if !resolved[0].status.Done? then [resolved[0].id] else []) + OpenOf(resolved[1..])
  }

  function StatusErrors(task: Task, blockers: seq<Id>, resolved: seq<Task>): seq<Error> {
    var open := OpenOf(resolved);
    (if task.status.Blocked? && open == [] then
       if blockers == [] then [NoBlockerDeclared] else if resolved != [] then [EveryBlockerDone] else []
     else [])
    + if BlockIntolerant(task.status) && open != [] then [OpenBlockers(open)] else []
  }

  function BlockedByErrors(task: Task, ids: map<Id, Task>): seq<Error> {
    var blockers := BlockersOf(task);
    LinkErrors(task, blockers, ids) + StatusErrors(task, blockers, Resolved(task, blockers, ids))
  }

  function AllPlacementErrors(tasks: seq<Task>): seq<Error> {
    if tasks == [] then [] else PlacementErrors(tasks[0]) + AllPlacementErrors(tasks[1..])
  }

  function AllBlockedByErrors(tasks: seq<Task>, ids: map<Id, Task>): seq<Error> {
    if tasks == [] then [] else BlockedByErrors(tasks[0], ids) + AllBlockedByErrors(tasks[1..], ids)
  }

  function AllWarnings(tasks: seq<Task>, ids: map<Id, Task>): seq<Warning> {
    if tasks == [] then [] else RefWarnings(tasks[0].refs, ids) + AllWarnings(tasks[1..], ids)
  }

  function AllLinkWarnings(tasks: seq<Task>, ids: map<Id, Task>): seq<Warning> {
    if tasks == [] then []
    else LinkWarnings(Resolved(tasks[0], BlockersOf(tasks[0]), ids)) + AllLinkWarnings(tasks[1..], ids)
  }

  /** Everything but the cycles. */
  function LocalErrors(tasks: seq<Task>): seq<Error> {
    TableOf(tasks).1 + AllPlacementErrors(tasks) + AllBlockedByErrors(tasks, Ids(tasks))
  }

  function BlockerMap(ids: map<Id, Task>): Blockers { map id | id in ids :: BlockersOf(ids[id]) }

  // ---------------------------------------------------------------------------------
  // The validator.

  method BuildTable(tasks: seq<Task>) returns (t: Table, errors: seq<Error>)
    ensures (t, errors) == TableOf(tasks)
  {
    t, errors := Table(map[], []), [];
    var k := 0;
    while k < |tasks|
      invariant 0 <= k <= |tasks| && (t, errors) == TableOf(tasks[..k])
    {
      assert tasks[..k + 1][..k] == tasks[..k] && errors + [] == errors;
      var task := tasks[k];
      if task.id == "" {
        errors := errors + [MissingId];
      } else {
        if task.id in t.tasks {
          errors := errors + [DuplicateId(task.id)];
          t := t.(tasks := t.tasks[task.id := task]);
        } else {
          t := Table(t.tasks[task.id := task], t.order + [task.id]);
        }
      }
      k := k + 1;
    }
    assert tasks[..k] == tasks;
  }

  /** What one blocker contributes. */
  lemma ResolveStep(task: Task, blockers: seq<Id>, ids: map<Id, Task>)
    requires blockers != []
    ensures LinkErrors(task, blockers, ids) == ErrorOf(task, blockers[0], ids) + LinkErrors(task, blockers[1..], ids)
    ensures Resolved(task, blockers, ids) == ResolvedOf(task, blockers[0], ids) + Resolved(task, blockers[1..], ids)
    ensures LinkWarnings(Resolved(task, blockers, ids))
         == WarningOf(task, blockers[0], ids) + LinkWarnings(Resolved(task, blockers[1..], ids))
  {
    var rest := Resolved(task, blockers[1..], ids);
    if blockers[0] != task.id && blockers[0] in ids {
      assert ([ids[blockers[0]]] + rest)[1..] == rest;
    } else {
      assert [] + rest == rest;
    }
  }

  method ResolveBlocker(task: Task, blocker: Id, ids: map<Id, Task>)
    returns (errors: seq<Error>, warnings: seq<Warning>, resolved: seq<Task>)
    ensures errors == ErrorOf(task, blocker, ids)
    ensures warnings == WarningOf(task, blocker, ids)
    ensures resolved == ResolvedOf(task, blocker, ids)
  {
    if blocker == task.id {
      return [BlocksItself], [], [];
    }
    if blocker !in ids {
      return [DanglingBlocker(blocker)], [], [];
    }
    var other := ids[blocker];
    return [], if other.status.WontDo? then [PermanentBlock(other.id)] else [], [other];
  }

  /** `done` and what `rest` adds make `all`. */
  predicate Completes<T(==)>(done: seq<T>, rest: seq<T>, all: seq<T>) { done + rest == all }

  lemma CompletesMore<T>(done: seq<T>, next: seq<T>, rest: seq<T>, all: seq<T>)
    requires Completes(done, next + rest, all)
    ensures Completes(done + next, rest, all)
  {
    Associates(done, next, rest);
  }

  /** Sorts the blockers of one task into those that resolve and those that do not. */
  method ResolveBlockers(task: Task, blockers: seq<Id>, ids: map<Id, Task>, errors0: seq<Error>,
                         warnings0: seq<Warning>)
    returns (errors: seq<Error>, warnings: seq<Warning>, resolved: seq<Task>)
    ensures errors == errors0 + LinkErrors(task, blockers, ids)
    ensures resolved == Resolved(task, blockers, ids)
    ensures warnings == warnings0 + LinkWarnings(Resolved(task, blockers, ids))
  {
    errors, warnings, resolved := errors0, warnings0, [];
    ghost var allErrors, allResolved := errors0 + LinkErrors(task, blockers, ids), Resolved(task, blockers, ids);
    ghost var allWarnings := warnings0 + LinkWarnings(allResolved);
    var k := 0;
    assert blockers[0..] == blockers;
    while k < |blockers|
      invariant 0 <= k <= |blockers|
      invariant Completes(errors, LinkErrors(task, blockers[k..], ids), allErrors)
      invariant Completes(resolved, Resolved(task, blockers[k..], ids), allResolved)
      invariant Completes(warnings, LinkWarnings(Resolved(task, blockers[k..], ids)), allWarnings)
    {
      ghost var left := blockers[k + 1..];
      assert blockers[k..][0] == blockers[k] && blockers[k..][1..] == left;
      ResolveStep(task, blockers[k..], ids);
      var error, warning, found := ResolveBlocker(task, blockers[k], ids);
      CompletesMore(errors, error, LinkErrors(task, left, ids), allErrors);
      CompletesMore(resolved, found, Resolved(task, left, ids), allResolved);
      CompletesMore(warnings, warning, LinkWarnings(Resolved(task, left, ids)), allWarnings);
      errors, warnings, resolved := errors + error, warnings + warning, resolved + found;
      k := k + 1;
    }
  }

  method ValidateLinks(task: Task, ids: map<Id, Task>, errors0: seq<Error>, warnings0: seq<Warning>)
    returns (errors: seq<Error>, warnings: seq<Warning>)
    ensures errors == errors0 + BlockedByErrors(task, ids)
    ensures warnings == warnings0 + LinkWarnings(Resolved(task, BlockersOf(task), ids))
  {
    var blockers, resolved := BlockersOf(task), [];
    errors, warnings, resolved := ResolveBlockers(task, blockers, ids, errors0, warnings0);
    var open := OpenOf(resolved);
    if task.status.Blocked? && open == [] {
      if blockers == [] {
        errors := errors + [NoBlockerDeclared];
      } else if resolved != [] {
        errors := errors + [EveryBlockerDone];
      }
    }
    if BlockIntolerant(task.status) && open != [] {
      errors := errors + [OpenBlockers(open)];
    }
  }

  method ValidateBlockedBy(tasks: seq<Task>, ids: map<Id, Task>, errors0: seq<Error>, warnings0: seq<Warning>)
    returns (errors: seq<Error>, warnings: seq<Warning>)
    ensures errors == errors0 + AllBlockedByErrors(tasks, ids)
    ensures warnings == warnings0 + AllLinkWarnings(tasks, ids)
  {
    errors, warnings := errors0, warnings0;
    var k := 0;
    assert tasks[0..] == tasks;
    while k < |tasks|
      invariant 0 <= k <= |tasks|
      invariant errors + AllBlockedByErrors(tasks[k..], ids) == errors0 + AllBlockedByErrors(tasks, ids)
      invariant warnings + AllLinkWarnings(tasks[k..], ids) == warnings0 + AllLinkWarnings(tasks, ids)
    {
      assert tasks[k..][1..] == tasks[k + 1..];
      Associates(errors, BlockedByErrors(tasks[k], ids), AllBlockedByErrors(tasks[k + 1..], ids));
      Associates(warnings, LinkWarnings(Resolved(tasks[k], BlockersOf(tasks[k]), ids)),
                 AllLinkWarnings(tasks[k + 1..], ids));
      errors, warnings := ValidateLinks(tasks[k], ids, errors, warnings);
      k := k + 1;
    }
    assert errors + [] == errors && warnings + [] == warnings;
  }

  method CheckPlacement(tasks: seq<Task>, errors0: seq<Error>) returns (errors: seq<Error>)
    ensures errors == errors0 + AllPlacementErrors(tasks)
  {
    errors := errors0;
    var k := 0;
    assert tasks[0..] == tasks;
    while k < |tasks|
      invariant 0 <= k <= |tasks|
      invariant errors + AllPlacementErrors(tasks[k..]) == errors0 + AllPlacementErrors(tasks)
    {
      var task := tasks[k];
      assert tasks[k..][1..] == tasks[k + 1..];
      ghost var before := errors;
      if task.declared != "" && task.declared != StatusName(task.status) {
        errors := errors + [StatusMismatch(task.declared)];
      }
      if task.topic != "" && task.topic !in TOPICS {
        errors := errors + [UnknownTopic(task.topic)];
      }
      assert errors == before + PlacementErrors(task);
      Associates(before, PlacementErrors(task), AllPlacementErrors(tasks[k + 1..]));
      k := k + 1;
    }
    assert errors + [] == errors;
  }

  /** Everything but the search for cycles. */
  method ValidateLocally(tasks: seq<Task>) returns (t: Table, errors: seq<Error>, warnings: seq<Warning>)
    ensures t == TableOf(tasks).0 && errors == LocalErrors(tasks)
    ensures warnings == AllWarnings(tasks, Ids(tasks)) + AllLinkWarnings(tasks, Ids(tasks))
  {
    t, errors := BuildTable(tasks);
    errors := CheckPlacement(tasks, errors);
    warnings := AllWarnings(tasks, t.tasks);
    errors, warnings := ValidateBlockedBy(tasks, t.tasks, errors, warnings);
  }

  /** `errors == []` is the whole verdict: the report is clean exactly if the roadmap is a well-formed partial order. */
  method Validate(tasks: seq<Task>) returns (errors: seq<Error>, warnings: seq<Warning>)
    ensures errors == [] <==> Sound(tasks)
    ensures LocalErrors(tasks) <= errors
    ensures forall k | |LocalErrors(tasks)| <= k < |errors| ::
              errors[k].Cycle? && IsSimpleCycle(LinksOf(tasks), errors[k].chain)
    ensures |errors| > |LocalErrors(tasks)| <==> Cyclic(LinksOf(tasks))
    ensures warnings == AllWarnings(tasks, Ids(tasks)) + AllLinkWarnings(tasks, Ids(tasks))
  {
    var t;
    t, errors, warnings := ValidateLocally(tasks);
    var detector := new Detector(BlockerMap(t.tasks));
    OrderListsIds(tasks);
    detector.DetectCycles(t.order);
    errors := errors
        + seq(|detector.chains|, k requires 0 <= k < |detector.chains| reads detector => Cycle(detector.chains[k]));
    LocalErrorsMean(tasks);
  }

  lemma {:induction false} OrderListsIds(tasks: seq<Task>)
    ensures forall id :: id in TableOf(tasks).0.order <==> id in Ids(tasks)
    ensures forall id <- Ids(tasks) :: Ids(tasks)[id].id == id && Ids(tasks)[id] in tasks
  {
    if tasks != [] {
      var n := |tasks| - 1;
      OrderListsIds(tasks[..n]);
      assert tasks == tasks[..n] + [tasks[n]];
    }
  }

  // ---------------------------------------------------------------------------------
  // What a clean report means.

  ghost predicate UniqueIds(tasks: seq<Task>) {
    && (forall k | 0 <= k < |tasks| :: tasks[k].id != "")
    && forall j, k | 0 <= j < k < |tasks| :: tasks[j].id != tasks[k].id
  }

  predicate WellPlaced(task: Task) {
    && (task.declared != "" ==> task.declared == StatusName(task.status))
    && (task.topic != "" ==> task.topic in TOPICS)
  }

  /** The links of `task` resolve and agree with its status. */
  ghost predicate WellBlocked(task: Task, ids: map<Id, Task>) {
    && (forall b <- task.blockedBy :: b != task.id && b in ids)
    && (task.status.Blocked? ==> exists b :: b in task.blockedBy && b in ids && !ids[b].status.Done?)
    && (BlockIntolerant(task.status) ==> forall b <- task.blockedBy :: b in ids && ids[b].status.Done?)
  }

  lemma {:induction false} DedupSame(s: seq<Id>)
    ensures forall x :: x in Dedup(s) <==> x in s
  {
    if s != [] {
      DedupSame(s[..|s| - 1]);
      assert s == s[..|s| - 1] + [s[|s| - 1]];
    }
  }

  lemma {:induction false} LinkErrorsMean(task: Task, blockers: seq<Id>, ids: map<Id, Task>)
    ensures LinkErrors(task, blockers, ids) == [] <==> forall b <- blockers :: b != task.id && b in ids
  {
    if blockers != [] {
      LinkErrorsMean(task, blockers[1..], ids);
      assert forall b :: b in blockers <==> b == blockers[0] || b in blockers[1..];
    }
  }

  /** `b` is a blocker that resolves to an open task. */
  predicate IsOpen(task: Task, b: Id, ids: map<Id, Task>) { b != task.id && b in ids && !ids[b].status.Done? }

  lemma {:induction false} OpenMeans(task: Task, blockers: seq<Id>, ids: map<Id, Task>)
    requires forall id <- ids :: ids[id].id == id
    ensures OpenOf(Resolved(task, blockers, ids)) == [] <==> forall b <- blockers :: !IsOpen(task, b, ids)
    ensures Resolved(task, blockers, ids) == [] <==> forall b <- blockers :: !(b != task.id && b in ids)
  {
    if blockers != [] {
      OpenMeans(task, blockers[1..], ids);
      assert forall b :: b in blockers <==> b == blockers[0] || b in blockers[1..];
      var rest := Resolved(task, blockers[1..], ids);
      if blockers[0] != task.id && blockers[0] in ids {
        var first := ids[blockers[0]];
        assert Resolved(task, blockers, ids) == [first] + rest && ([first] + rest)[1..] == rest;
        OpenOfMore(first, rest);
        assert first.status.Done? <==> !IsOpen(task, blockers[0], ids);
      } else {
        assert Resolved(task, blockers, ids) == rest;
      }
    }
  }

  lemma OpenOfMore(first: Task, rest: seq<Task>)
    ensures OpenOf([first] + rest) == [] <==> first.status.Done? && OpenOf(rest) == []
  {
    assert ([first] + rest)[1..] == rest;
  }

  lemma BlockedByMeans(task: Task, ids: map<Id, Task>)
    requires forall id <- ids :: ids[id].id == id
    ensures BlockedByErrors(task, ids) == [] <==> WellBlocked(task, ids)
  {
    var blockers := BlockersOf(task);
    DedupSame(task.blockedBy);
    LinkErrorsMean(task, blockers, ids);
    OpenMeans(task, blockers, ids);
    assert blockers == [] <==> task.blockedBy == [] by {
      if blockers != [] { assert blockers[0] in task.blockedBy; }
      if task.blockedBy != [] { assert task.blockedBy[0] in blockers; }
    }
    if BlockedByErrors(task, ids) == [] && task.status.Blocked? {
      assert LinkErrors(task, blockers, ids) == [] && StatusErrors(task, blockers, Resolved(task, blockers, ids)) == [];
      if task.blockedBy != [] { assert task.blockedBy[0] in blockers; }
      assert exists b :: b in blockers && IsOpen(task, b, ids);
    }
  }

  lemma BothEmpty<T>(a: seq<T>, b: seq<T>)
    ensures a + b == [] <==> a == [] && b == []
  {
  }

  /** `id` names a task. */
  predicate Taken(tasks: seq<Task>, id: Id) {
    exists k :: 0 <= k < |tasks| && tasks[k].id == id
  }

  lemma TakenMore(tasks: seq<Task>, id: Id)
    requires tasks != []
    ensures var n := |tasks| - 1; Taken(tasks, id) <==> Taken(tasks[..n], id) || tasks[n].id == id
  {
    var n := |tasks| - 1;
    assert forall k | 0 <= k < n :: tasks[k] == tasks[..n][k];
  }

  lemma UniqueMore(tasks: seq<Task>)
    requires tasks != []
    ensures var n := |tasks| - 1;
            UniqueIds(tasks) <==> UniqueIds(tasks[..n]) && tasks[n].id != "" && !Taken(tasks[..n], tasks[n].id)
  {
    var n := |tasks| - 1;
    assert forall k | 0 <= k < n :: tasks[k] == tasks[..n][k];
  }

  lemma {:induction false} TableErrorsMean(tasks: seq<Task>)
    ensures TableOf(tasks).1 == [] <==> UniqueIds(tasks)
    ensures forall id :: id in Ids(tasks) <==> id != "" && Taken(tasks, id)
  {
    if tasks != [] {
      var n := |tasks| - 1;
      var (t, errors) := TableOf(tasks[..n]);
      TableErrorsMean(tasks[..n]);
      BothEmpty(errors, Enter(t, tasks[n]).1);
      UniqueMore(tasks);
      forall id ensures id in Ids(tasks) <==> id != "" && Taken(tasks, id) {
        TakenMore(tasks, id);
      }
    }
  }

  lemma PlacementMeans(task: Task)
    ensures PlacementErrors(task) == [] <==> WellPlaced(task)
  {
    var misplaced := task.declared != "" && task.declared != StatusName(task.status);
    assert misplaced ==> PlacementErrors(task)[0].StatusMismatch?;
    assert !misplaced ==> (task.topic != "" && task.topic !in TOPICS <==> PlacementErrors(task) != []);
  }

  lemma {:induction false} PlacementErrorsMean(tasks: seq<Task>)
    ensures AllPlacementErrors(tasks) == [] <==> forall task <- tasks :: WellPlaced(task)
  {
    if tasks != [] {
      PlacementErrorsMean(tasks[1..]);
      BothEmpty(PlacementErrors(tasks[0]), AllPlacementErrors(tasks[1..]));
      PlacementMeans(tasks[0]);
      assert forall task :: task in tasks <==> task == tasks[0] || task in tasks[1..];
    }
  }

  lemma {:induction false} BlockedByErrorsMean(tasks: seq<Task>, ids: map<Id, Task>)
    requires forall id <- ids :: ids[id].id == id
    ensures AllBlockedByErrors(tasks, ids) == [] <==> forall task <- tasks :: WellBlocked(task, ids)
  {
    if tasks != [] {
      BlockedByMeans(tasks[0], ids);
      BlockedByErrorsMean(tasks[1..], ids);
      BothEmpty(BlockedByErrors(tasks[0], ids), AllBlockedByErrors(tasks[1..], ids));
      assert forall task :: task in tasks <==> task == tasks[0] || task in tasks[1..];
    }
  }

  ghost function LinksOf(tasks: seq<Task>): set<(Id, Id)> { Links(BlockerMap(Ids(tasks))) }

  ghost predicate LocallySound(tasks: seq<Task>) {
    UniqueIds(tasks) && forall task <- tasks :: WellPlaced(task) && WellBlocked(task, Ids(tasks))
  }

  /** Ids are unique, every task is in the right place, its links agree with its status, and the links are acyclic. */
  ghost predicate Sound(tasks: seq<Task>) { LocallySound(tasks) && !Cyclic(LinksOf(tasks)) }

  lemma LocalErrorsMean(tasks: seq<Task>)
    ensures LocalErrors(tasks) == [] <==> LocallySound(tasks)
  {
    OrderListsIds(tasks);
    TableErrorsMean(tasks);
    PlacementErrorsMean(tasks);
    BlockedByErrorsMean(tasks, Ids(tasks));
  }

  // ---------------------------------------------------------------------------------
  // Which errors and warnings are reported, told without the functions that list them.

  predicate Resolves(task: Task, b: Id, ids: map<Id, Task>) { b != task.id && b in ids }

  /** `open` names the open blockers of the task, each once. */
  ghost predicate NamesOpen(task: Task, ids: map<Id, Task>, open: seq<Id>) {
    && (forall b :: b in open <==> b in task.blockedBy && IsOpen(task, b, ids))
    && forall i, j | 0 <= i < j < |open| :: open[i] != open[j]
  }

  /** The task gives cause for the error. */
  ghost predicate GivesCause(task: Task, ids: map<Id, Task>, e: Error) {
    match e
    case MissingId => task.id == ""
    case DuplicateId(_) => false
    case StatusMismatch(declared) => declared == task.declared != "" && declared != StatusName(task.status)
    case UnknownTopic(topic) => topic == task.topic != "" && topic !in TOPICS
    case BlocksItself => task.id in task.blockedBy
    case DanglingBlocker(b) => b in task.blockedBy && b != task.id && b !in ids
    case NoBlockerDeclared => task.status.Blocked? && task.blockedBy == []
    case EveryBlockerDone =>
      && task.status.Blocked? && (exists b <- task.blockedBy :: Resolves(task, b, ids))
      && forall b <- task.blockedBy :: !IsOpen(task, b, ids)
    case OpenBlockers(open) =>
      && (task.status.Ready? || task.status.InProgress? || task.status.Done?)
      && open != [] && NamesOpen(task, ids, open)
    case Cycle(_) => false
  }

  predicate IsRepeated(tasks: seq<Task>, id: Id) {
    id != "" && exists j, k :: 0 <= j < k < |tasks| && tasks[j].id == id && tasks[k].id == id
  }

  ghost predicate IsDue(tasks: seq<Task>, ids: map<Id, Task>, e: Error) {
    if e.DuplicateId? then IsRepeated(tasks, e.id) else exists task <- tasks :: GivesCause(task, ids, e)
  }

  lemma RepeatedMore(tasks: seq<Task>, id: Id)
    requires tasks != []
    ensures var n := |tasks| - 1; (IsRepeated(tasks, id)
       <==> IsRepeated(tasks[..n], id) || (id != "" && tasks[n].id == id && Taken(tasks[..n], id)))
  {
    var n := |tasks| - 1;
    assert forall k | 0 <= k < n :: tasks[k] == tasks[..n][k];
  }

  lemma {:induction false} TableErrorsAre(tasks: seq<Task>)
    ensures forall e <- TableOf(tasks).1 :: e.MissingId? || e.DuplicateId?
    ensures MissingId in TableOf(tasks).1 <==> exists task <- tasks :: task.id == ""
    ensures forall id :: DuplicateId(id) in TableOf(tasks).1 <==> IsRepeated(tasks, id)
  {
    if tasks != [] {
      var n := |tasks| - 1;
      TableErrorsAre(tasks[..n]);
      TableErrorsMean(tasks[..n]);
      assert tasks == tasks[..n] + [tasks[n]];
      forall id ensures DuplicateId(id) in TableOf(tasks).1 <==> IsRepeated(tasks, id) {
        RepeatedMore(tasks, id);
      }
    }
  }

  lemma {:induction false} PlacementErrorsAre(tasks: seq<Task>, e: Error)
    ensures e in AllPlacementErrors(tasks) <==> exists task <- tasks :: e in PlacementErrors(task)
  {
    if tasks != [] {
      PlacementErrorsAre(tasks[1..], e);
      assert forall task :: task in tasks <==> task == tasks[0] || task in tasks[1..];
    }
  }

  lemma {:induction false} BlockedByErrorsAre(tasks: seq<Task>, ids: map<Id, Task>, e: Error)
    ensures e in AllBlockedByErrors(tasks, ids) <==> exists task <- tasks :: e in BlockedByErrors(task, ids)
  {
    if tasks != [] {
      BlockedByErrorsAre(tasks[1..], ids, e);
      assert forall task :: task in tasks <==> task == tasks[0] || task in tasks[1..];
    }
  }

  lemma {:induction false} LinkErrorsAre(task: Task, blockers: seq<Id>, ids: map<Id, Task>, e: Error)
    ensures e in LinkErrors(task, blockers, ids)
       <==> (e == BlocksItself && task.id in blockers)
            || (e.DanglingBlocker? && e.blocker in blockers && e.blocker != task.id && e.blocker !in ids)
  {
    if blockers != [] {
      LinkErrorsAre(task, blockers[1..], ids, e);
      assert forall b :: b in blockers <==> b == blockers[0] || b in blockers[1..];
    }
  }

  lemma {:induction false} DedupHasNoRepeats(s: seq<Id>)
    ensures forall i, j | 0 <= i < j < |Dedup(s)| :: Dedup(s)[i] != Dedup(s)[j]
  {
    if s != [] {
      var n := |s| - 1;
      DedupHasNoRepeats(s[..n]);
      DedupSame(s[..n]);
    }
  }

  /** What `OpenOf` makes of the first blocker. */
  lemma OpenStep(task: Task, blockers: seq<Id>, ids: map<Id, Task>)
    requires blockers != [] && forall id <- ids :: ids[id].id == id
    ensures OpenOf(Resolved(task, blockers, ids))
         == (if IsOpen(task, blockers[0], ids) then [blockers[0]] else [])
            + OpenOf(Resolved(task, blockers[1..], ids))
  {
    var rest := Resolved(task, blockers[1..], ids);
    if Resolves(task, blockers[0], ids) {
      assert ([ids[blockers[0]]] + rest)[1..] == rest;
    } else {
      assert [] + rest == rest;
    }
  }

  lemma {:induction false} OpenAre(task: Task, blockers: seq<Id>, ids: map<Id, Task>, open: seq<Id>)
    requires (forall id <- ids :: ids[id].id == id) && open == OpenOf(Resolved(task, blockers, ids))
    requires forall i, j | 0 <= i < j < |blockers| :: blockers[i] != blockers[j]
    ensures forall b :: b in open <==> b in blockers && IsOpen(task, b, ids)
    ensures forall i, j | 0 <= i < j < |open| :: open[i] != open[j]
    decreases |blockers|
  {
    if blockers != [] {
      var rest := OpenOf(Resolved(task, blockers[1..], ids));
      OpenStep(task, blockers, ids);
      OpenAre(task, blockers[1..], ids, rest);
      assert forall b :: b in blockers <==> b == blockers[0] || b in blockers[1..];
      assert blockers[0] !in blockers[1..];
    }
  }

  lemma OpenAreNamed(task: Task, ids: map<Id, Task>)
    requires forall id <- ids :: ids[id].id == id
    ensures NamesOpen(task, ids, OpenOf(Resolved(task, BlockersOf(task), ids)))
  {
    DedupSame(task.blockedBy);
    DedupHasNoRepeats(task.blockedBy);
    OpenAre(task, BlockersOf(task), ids, OpenOf(Resolved(task, BlockersOf(task), ids)));
  }

  lemma BlockersAre(task: Task, ids: map<Id, Task>)
    requires forall id <- ids :: ids[id].id == id
    ensures BlockersOf(task) == [] <==> task.blockedBy == []
    ensures Resolved(task, BlockersOf(task), ids) == [] <==> forall b <- task.blockedBy :: !Resolves(task, b, ids)
    ensures OpenOf(Resolved(task, BlockersOf(task), ids)) == [] <==> forall b <- task.blockedBy :: !IsOpen(task, b, ids)
  {
    DedupSame(task.blockedBy);
    OpenMeans(task, BlockersOf(task), ids);
    if BlockersOf(task) != [] { assert BlockersOf(task)[0] in task.blockedBy; }
    if task.blockedBy != [] { assert task.blockedBy[0] in BlockersOf(task); }
  }

  /** The errors about one task's blockers, those with a list of open ones told apart by the list. */
  lemma TaskErrorsAre(task: Task, ids: map<Id, Task>, e: Error)
    requires forall id <- ids :: ids[id].id == id
    ensures e in BlockedByErrors(task, ids) ==>
              GivesCause(task, ids, e) && !(e.MissingId? || e.StatusMismatch? || e.UnknownTopic?)
    ensures GivesCause(task, ids, e) && (e.BlocksItself? || e.DanglingBlocker?) ==> e in BlockedByErrors(task, ids)
    ensures GivesCause(task, ids, e) && (e.NoBlockerDeclared? || e.EveryBlockerDone?) ==>
              e in BlockedByErrors(task, ids)
    ensures GivesCause(task, ids, e) && e.OpenBlockers? ==>
              exists open :: OpenBlockers(open) in BlockedByErrors(task, ids) && NamesOpen(task, ids, open)
  {
    var blockers := BlockersOf(task);
    var open := OpenOf(Resolved(task, blockers, ids));
    DedupSame(task.blockedBy);
    LinkErrorsAre(task, blockers, ids, e);
    BlockersAre(task, ids);
    OpenAreNamed(task, ids);
    if GivesCause(task, ids, e) && e.OpenBlockers? {
      assert e.open[0] in e.open && IsOpen(task, e.open[0], ids);
      assert OpenBlockers(open) in StatusErrors(task, blockers, Resolved(task, blockers, ids));
    }
  }

  lemma PlacementErrorIsDue(task: Task, ids: map<Id, Task>, e: Error)
    requires e in PlacementErrors(task)
    ensures GivesCause(task, ids, e) && (e.StatusMismatch? || e.UnknownTopic?)
  {
  }

  /** Nothing is reported but what some task gives cause for. */
  lemma ReportedIsDue(tasks: seq<Task>, e: Error)
    requires e in LocalErrors(tasks)
    ensures IsDue(tasks, Ids(tasks), e)
  {
    var ids := Ids(tasks);
    OrderListsIds(tasks);
    TableErrorsAre(tasks);
    PlacementErrorsAre(tasks, e);
    BlockedByErrorsAre(tasks, ids, e);
    if e in AllBlockedByErrors(tasks, ids) {
      var task :| task in tasks && e in BlockedByErrors(task, ids);
      TaskErrorsAre(task, ids, e);
    } else if e in AllPlacementErrors(tasks) {
      var task :| task in tasks && e in PlacementErrors(task);
      PlacementErrorIsDue(task, ids, e);
    } else if e.MissingId? {
      var task :| task in tasks && task.id == "";
      assert GivesCause(task, ids, e);
    }
  }

  /** Everything that some task gives cause for is reported; open blockers in one list that names them all. */
  lemma DueIsReported(tasks: seq<Task>, e: Error)
    requires IsDue(tasks, Ids(tasks), e)
    ensures !e.OpenBlockers? ==> e in LocalErrors(tasks)
    ensures e.OpenBlockers? ==>
              exists task <- tasks, open ::
                NamesOpen(task, Ids(tasks), open) && OpenBlockers(open) in LocalErrors(tasks)
  {
    var ids := Ids(tasks);
    OrderListsIds(tasks);
    TableErrorsAre(tasks);
    if !e.DuplicateId? {
      var task :| task in tasks && GivesCause(task, ids, e);
      TaskErrorsAre(task, ids, e);
      if e.OpenBlockers? {
        var open :| OpenBlockers(open) in BlockedByErrors(task, ids) && NamesOpen(task, ids, open);
        BlockedByErrorsAre(tasks, ids, OpenBlockers(open));
      } else if e.StatusMismatch? || e.UnknownTopic? {
        assert e in PlacementErrors(task);
        PlacementErrorsAre(tasks, e);
      } else {
        BlockedByErrorsAre(tasks, ids, e);
      }
    }
  }

  /** The task gives cause for the warning. */
  predicate Warns(task: Task, ids: map<Id, Task>, w: Warning) {
    match w
    case DanglingRef(ref) => ref in task.refs && ref !in ids
    case PermanentBlock(b) => b in task.blockedBy && Resolves(task, b, ids) && ids[b].status.WontDo?
  }

  lemma {:induction false} RefWarningsAre(refs: seq<Id>, ids: map<Id, Task>, w: Warning)
    ensures w in RefWarnings(refs, ids) <==> w.DanglingRef? && w.ref in refs && w.ref !in ids
  {
    if refs != [] {
      RefWarningsAre(refs[1..], ids, w);
      assert forall r :: r in refs <==> r == refs[0] || r in refs[1..];
    }
  }

  lemma {:induction false} LinkWarningsAre(task: Task, blockers: seq<Id>, ids: map<Id, Task>, w: Warning)
    requires forall id <- ids :: ids[id].id == id
    ensures w in LinkWarnings(Resolved(task, blockers, ids))
       <==> w.PermanentBlock? && w.blocker in blockers && Resolves(task, w.blocker, ids)
            && ids[w.blocker].status.WontDo?
  {
    if blockers != [] {
      LinkWarningsAre(task, blockers[1..], ids, w);
      ResolveStep(task, blockers, ids);
      assert forall b :: b in blockers <==> b == blockers[0] || b in blockers[1..];
    }
  }

  predicate SomeWarn(tasks: seq<Task>, ids: map<Id, Task>, w: Warning) {
    exists k :: 0 <= k < |tasks| && Warns(tasks[k], ids, w)
  }

  lemma SomeWarnMore(tasks: seq<Task>, ids: map<Id, Task>, w: Warning)
    requires tasks != []
    ensures SomeWarn(tasks, ids, w) <==> Warns(tasks[0], ids, w) || SomeWarn(tasks[1..], ids, w)
  {
    if SomeWarn(tasks[1..], ids, w) {
      var k :| 0 <= k < |tasks[1..]| && Warns(tasks[1..][k], ids, w);
      assert Warns(tasks[k + 1], ids, w);
    }
    if SomeWarn(tasks, ids, w) && !Warns(tasks[0], ids, w) {
      var k :| 0 <= k < |tasks| && Warns(tasks[k], ids, w);
      assert Warns(tasks[1..][k - 1], ids, w);
    }
  }

  lemma {:induction false} AllRefWarningsAre(tasks: seq<Task>, ids: map<Id, Task>, w: Warning)
    ensures w in AllWarnings(tasks, ids) <==> w.DanglingRef? && SomeWarn(tasks, ids, w)
  {
    if tasks != [] {
      AllRefWarningsAre(tasks[1..], ids, w);
      RefWarningsAre(tasks[0].refs, ids, w);
      SomeWarnMore(tasks, ids, w);
    }
  }

  lemma {:induction false} AllLinkWarningsAre(tasks: seq<Task>, ids: map<Id, Task>, w: Warning)
    requires forall id <- ids :: ids[id].id == id
    ensures w in AllLinkWarnings(tasks, ids) <==> w.PermanentBlock? && SomeWarn(tasks, ids, w)
  {
    if tasks != [] {
      AllLinkWarningsAre(tasks[1..], ids, w);
      DedupSame(tasks[0].blockedBy);
      LinkWarningsAre(tasks[0], BlockersOf(tasks[0]), ids, w);
      SomeWarnMore(tasks, ids, w);
    }
  }

  /** Exactly the references that lead nowhere and the blockers that will never be done are warned of. */
  lemma WarningsAre(tasks: seq<Task>, w: Warning)
    ensures w in AllWarnings(tasks, Ids(tasks)) + AllLinkWarnings(tasks, Ids(tasks))
       <==> SomeWarn(tasks, Ids(tasks), w)
  {
    OrderListsIds(tasks);
    AllRefWarningsAre(tasks, Ids(tasks), w);
    AllLinkWarningsAre(tasks, Ids(tasks), w);
  }

  // ---------------------------------------------------------------------------------
  // What a sound roadmap promises about transitive blockers.

  lemma LinkMeans(tasks: seq<Task>, a: Id, b: Id)
    requires LocallySound(tasks)
    ensures (a, b) in LinksOf(tasks) <==> a in Ids(tasks) && b in Ids(tasks)[a].blockedBy
    ensures a in Ids(tasks) ==> WellBlocked(Ids(tasks)[a], Ids(tasks)) && Ids(tasks)[a].id == a
  {
    OrderListsIds(tasks);
    if a in Ids(tasks) {
      DedupSame(Ids(tasks)[a].blockedBy);
    }
  }

  /** Whatever a startable, started or finished task waits for, however indirectly, is done. */
  lemma {:induction false} TransitiveBlockersAreDone(tasks: seq<Task>, walk: seq<Id>, n: nat)
    requires Sound(tasks) && IsWalk(LinksOf(tasks), walk) && 0 < n < |walk|
    requires walk[0] in Ids(tasks) && BlockIntolerant(Ids(tasks)[walk[0]].status)
    ensures walk[n] in Ids(tasks) && Ids(tasks)[walk[n]].status.Done?
  {
    if n > 1 {
      TransitiveBlockersAreDone(tasks, walk, n - 1);
    }
    assert Linked(LinksOf(tasks), walk, n - 1);
    LinkMeans(tasks, walk[n - 1], walk[n]);
  }

  /** `walk` leads through blocked tasks to an open task that is not itself blocked. */
  ghost predicate LeadsToOpen(links: set<(Id, Id)>, ids: map<Id, Task>, walk: seq<Id>) {
    && IsWalk(links, walk) && |walk| >= 2
    && (forall i | 0 <= i < |walk| :: walk[i] in ids)
    && (forall i | 0 <= i < |walk| - 1 :: ids[walk[i]].status.Blocked?)
    && var last := ids[walk[|walk| - 1]].status; !last.Done? && !last.Blocked?
  }

  ghost predicate Waits(links: set<(Id, Id)>, ids: map<Id, Task>, id: Id) {
    exists walk :: LeadsToOpen(links, ids, walk) && walk[0] == id
  }

  lemma WaitsThrough(links: set<(Id, Id)>, ids: map<Id, Task>, a: Id, b: Id)
    requires (a, b) in links && Waits(links, ids, b)
    requires a in ids && ids[a].status.Blocked?
    ensures Waits(links, ids, a)
  {
    var rest :| LeadsToOpen(links, ids, rest) && rest[0] == b;
    var walk := [a] + rest;
    forall i: nat | i < |walk| - 1 ensures Linked(links, walk, i) {
      if i > 0 { assert Linked(links, rest, i - 1); }
    }
    assert LeadsToOpen(links, ids, walk) && walk[0] == a;
  }

  lemma WaitsDirectly(links: set<(Id, Id)>, ids: map<Id, Task>, a: Id, b: Id)
    requires (a, b) in links
    requires a in ids && ids[a].status.Blocked?
    requires b in ids && !ids[b].status.Done? && !ids[b].status.Blocked?
    ensures Waits(links, ids, a)
  {
    var walk := [a, b];
    assert Linked(links, walk, 0);
    assert LeadsToOpen(links, ids, walk) && walk[0] == a;
  }

  /** Every task in `blocked/` waits, through blocked tasks, for an open task outside `blocked/`. */
  lemma BlockedTasksWait(tasks: seq<Task>, id: Id)
    requires Sound(tasks) && id in Ids(tasks) && Ids(tasks)[id].status.Blocked?
    ensures Waits(LinksOf(tasks), Ids(tasks), id)
  {
    var ids, links := Ids(tasks), LinksOf(tasks);
    var stuck := set x | x in ids && ids[x].status.Blocked? && !Waits(links, ids, x);
    if stuck != {} {
      forall x | x in stuck ensures CanStay(links, stuck, x) {
        LinkMeans(tasks, x, x);
        var b :| b in ids[x].blockedBy && b in ids && !ids[b].status.Done?;
        LinkMeans(tasks, x, b);
        if !ids[b].status.Blocked? {
          WaitsDirectly(links, ids, x, b);
        } else if Waits(links, ids, b) {
          WaitsThrough(links, ids, x, b);
        }
        assert b in stuck;
      }
      TrapIsCyclic(links, stuck);
    }
    assert id !in stuck;
  }
}
