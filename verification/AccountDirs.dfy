/**
 The per-avatar directories of one grid, and the index by agent id that lets data follow a change of name.
 */
module AccountDirs {
  import opened Wrappers
  import Text = SelectorText

  type Uuid = nat

  type Name = string

  /** What a directory holds. */
  type Data = seq<int>

  const EMPTY: Data := []

  const BY_UUID_DIR: Name := ".by-uuid"

  /** The directories under the grid and the names its index entries point at. */
  datatype Grid = Grid(dirs: map<Name, Data>, index: map<Uuid, Name>)

  datatype Reconciliation = Settled | Renamed(previous: Name) | NameTaken(previous: Name)

  datatype AccountDir = AccountDir(path: Name, outcome: Reconciliation)

  /** Creates the directory unless it is there. */
  function Created(dirs: map<Name, Data>, name: Name): map<Name, Data> {
    if name in dirs then dirs else dirs[name := EMPTY]
  }

  predicate ClaimedByOther(index: map<Uuid, Name>, name: Name, uuid: Uuid) {
    exists other :: other in index && other != uuid && index[other] == name
  }

  /** The name an existing index entry makes the avatar's, once it logs in as `name`. */
  function Outcome(g: Grid, name: Name, uuid: Uuid): Reconciliation {
    if uuid !in g.index || g.index[uuid] == name then Settled
    else if name in g.dirs || ClaimedByOther(g.index, name, uuid) then NameTaken(g.index[uuid])
    else if g.index[uuid] in g.dirs then Renamed(g.index[uuid])
    else Settled
  }

  function PathOf(outcome: Reconciliation, name: Name): Name {
    if outcome.NameTaken? then outcome.previous else name
  }

  /** The directories once the avatar's has been renamed, if it is to be. */
  function Moved(g: Grid, name: Name, uuid: Uuid): map<Name, Data> {
    var outcome := Outcome(g, name, uuid);
    if outcome.Renamed? then (g.dirs - {outcome.previous})[name := g.dirs[outcome.previous]] else g.dirs
  }

  /** The avatar's entry names the index directory, and the name it logs in as is free: the whole
      index is renamed away, and the login fails as it writes the new entry. */
  predicate LosesIndex(g: Grid, name: Name, uuid: Uuid) {
    && uuid in g.index && g.index[uuid] == BY_UUID_DIR
    && name != BY_UUID_DIR && name !in g.dirs && !ClaimedByOther(g.index, name, uuid)
  }

  /** The grid after a login in which no file operation fails that could have succeeded. */
  function LoggedIn(g0: Grid, name: Name, uuid: Uuid): Grid {
    var g := g0.(dirs := Created(g0.dirs, BY_UUID_DIR));
    var outcome := Outcome(g, name, uuid);
    var dirs := Moved(g, name, uuid);
    if outcome == Renamed(BY_UUID_DIR) then Grid(dirs, map[])
    else Grid(Created(dirs, PathOf(outcome, name)), if outcome.NameTaken? then g.index else g.index[uuid := name])
  }

  function LoginPath(g0: Grid, name: Name, uuid: Uuid): AccountDir {
    var outcome := Outcome(g0.(dirs := Created(g0.dirs, BY_UUID_DIR)), name, uuid);
    AccountDir(PathOf(outcome, name), outcome)
  }

  // ---------------------------------------------------------------------------------
  // The operation, one file operation after another.

  /** The operation that fails, if any. */
  datatype Fault =
    | NoFault | AtCreateIndexDir | AtReadIndex | AtReadOthers | AtRename | AtRemoveIndex | AtWriteIndex | AtCreateDir

  class GridDir {
    var dirs: map<Name, Data>
    var index: map<Uuid, Name>

    constructor (g: Grid)
      ensures State() == g
    {
      dirs, index := g.dirs, g.index;
    }

    function State(): Grid
      reads this
    {
      Grid(dirs, index)
    }

    method CreateDir(name: Name)
      modifies this`dirs
      ensures dirs == Created(old(dirs), name)
    {
      if name !in dirs {
        dirs := dirs[name := EMPTY];
      }
    }

    /** Looks through the other avatars' entries. */
    method NameClaimedByOther(name: Name, uuid: Uuid) returns (claimed: bool)
      ensures claimed == ClaimedByOther(index, name, uuid)
    {
      var left := index.Keys - {uuid};
      claimed := false;
      while left != {}
        invariant left <= index.Keys - {uuid}
        invariant forall other <- index.Keys - {uuid} - left :: index[other] != name
        decreases |left|
      {
        var other :| other in left;
        if index[other] == name {
          return true;
        }
        left := left - {other};
      }
    }

    /** Removes an existing entry, then writes the new one, if the index directory is there. */
    method WriteIndex(uuid: Uuid, name: Name, fault: Fault) returns (ok: bool)
      modifies this`index
      ensures ok <==> BY_UUID_DIR in dirs && !fault.AtRemoveIndex? && !fault.AtWriteIndex?
      ensures index == if BY_UUID_DIR !in dirs then old(index) else
                         match fault
                         case AtRemoveIndex => old(index)
                         case AtWriteIndex => old(index) - {uuid}
                         case _ => old(index)[uuid := name]
    {
      if BY_UUID_DIR !in dirs {
        return false;
      }
      if fault.AtRemoveIndex? {
        return false;
      }
      index := index - {uuid};
      if fault.AtWriteIndex? {
        return false;
      }
      index := index[uuid := name];
      return true;
    }

    /** Renames a directory; the index goes with the directory that holds it. */
    method RenameDir(previous: Name, name: Name)
      requires previous in dirs
      modifies this
      ensures dirs == (old(dirs) - {previous})[name := old(dirs)[previous]]
      ensures index == if previous == BY_UUID_DIR then map[] else old(index)
    {
      dirs := (dirs - {previous})[name := dirs[previous]];
      if previous == BY_UUID_DIR {
        index := map[];
      }
    }

    method Reconcile(name: Name, uuid: Uuid, fault: Fault) returns (r: Option<AccountDir>)
      modifies this
      ensures r.Some? ==>
                State() == LoggedIn(old(State()), name, uuid) && r.value == LoginPath(old(State()), name, uuid)
      ensures r.None? ==> State() == Interrupted(old(State()), name, uuid, fault)
      ensures fault == NoFault ==> (r.None? <==> LosesIndex(old(State()), name, uuid))
    {
      if fault.AtCreateIndexDir? {
        return None;
      }
      CreateDir(BY_UUID_DIR);
      ghost var g := State();
      if fault.AtReadIndex? {
        return None;
      }
      var outcome := Settled;
      if uuid in index && index[uuid] != name {
        var previous := index[uuid];
        var taken := name in dirs;
        if !taken {
          if fault.AtReadOthers? {
            return None;
          }
          taken := NameClaimedByOther(name, uuid);
        }
        if taken {
          outcome := NameTaken(previous);
        } else {
          var moved := previous in dirs;
          if moved {
            if fault.AtRename? {
              return None;
            }
            RenameDir(previous, name);
          }
          var ok := WriteIndex(uuid, name, fault);
          if !ok {
            return None;
          }
          outcome := if moved then Renamed(previous) else Settled;
        }
      } else if uuid !in index {
        var ok := WriteIndex(uuid, name, fault);
        if !ok {
          return None;
        }
      }
      assert outcome == Outcome(g, name, uuid);
      assert g.index == g.index[uuid := name] || outcome.NameTaken? || index == g.index[uuid := name];
      if fault.AtCreateDir? {
        return None;
      }
      var path := if outcome.NameTaken? then outcome.previous else name;
      CreateDir(path);
      return Some(AccountDir(path, outcome));
    }
  }

  /** The grid that a login leaves when it stops at a failing file operation; once the index has
      been renamed away, that is what is left whichever operation is to fail. */
  function Interrupted(g0: Grid, name: Name, uuid: Uuid, fault: Fault): Grid {
    var g := g0.(dirs := Created(g0.dirs, BY_UUID_DIR));
    var outcome := Outcome(g, name, uuid);
    var moved := Moved(g, name, uuid);
    match fault
    case AtCreateIndexDir => g0
    case AtReadIndex => g
    case AtReadOthers => g
    case AtRename => g
    case _ =>
      if outcome == Renamed(BY_UUID_DIR) then Grid(moved, map[])
      else
        match fault
        case AtRemoveIndex => g.(dirs := moved)
        case AtWriteIndex => Grid(moved, g.index - {uuid})
        case _ => Grid(moved, if outcome.NameTaken? then g.index else g.index[uuid := name])
  }

  // ---------------------------------------------------------------------------------
  // What a login keeps.

  /** The index is lost exactly where the rename would move its directory. */
  lemma LosesIndexMeans(g: Grid, name: Name, uuid: Uuid)
    ensures LosesIndex(g, name, uuid) <==> LoginPath(g, name, uuid).outcome == Renamed(BY_UUID_DIR)
    ensures LosesIndex(g, name, uuid) ==> LoggedIn(g, name, uuid).index == map[]
    ensures BY_UUID_DIR in LoggedIn(g, name, uuid).dirs <==> !LosesIndex(g, name, uuid)
  {
  }

  /** The entry of `uuid` names `path`, and its directory holds `data`. */
  predicate Finds(g: Grid, uuid: Uuid, path: Name, data: Data) {
    uuid in g.index && g.index[uuid] == path && path in g.dirs && g.dirs[path] == data
  }

  /** A known avatar finds its data under the returned path, whatever the outcome, exactly unless
      the login renames the index away. */
  lemma DataFollowsAvatar(g: Grid, name: Name, uuid: Uuid)
    requires uuid in g.index && g.index[uuid] in g.dirs
    ensures Finds(LoggedIn(g, name, uuid), uuid, LoginPath(g, name, uuid).path, g.dirs[g.index[uuid]])
       <==> !LosesIndex(g, name, uuid)
  {
    LosesIndexMeans(g, name, uuid);
  }

  /** No directory is overwritten: each keeps its data, in place or moved by this rename. */
  lemma NothingIsOverwritten(g: Grid, name: Name, uuid: Uuid, dir: Name)
    requires dir in g.dirs
    ensures var login := LoginPath(g, name, uuid); var after := LoggedIn(g, name, uuid);
            if login.outcome == Renamed(dir)
                then dir !in after.dirs && name !in g.dirs && name in after.dirs && after.dirs[name] == g.dirs[dir]
            else dir in after.dirs && after.dirs[dir] == g.dirs[dir]
  {
  }

  /** A name that was taken still is. */
  lemma StillTaken(g: Grid, name: Name, uuid: Uuid)
    requires LoginPath(g, name, uuid).outcome.NameTaken?
    ensures var after := LoggedIn(g, name, uuid); name in after.dirs || ClaimedByOther(after.index, name, uuid)
    ensures LoggedIn(g, name, uuid).index == g.index && g.index[uuid] != name
  {
    if ClaimedByOther(g.index, name, uuid) {
      var other :| other in g.index && other != uuid && g.index[other] == name;
      assert LoggedIn(g, name, uuid).index[other] == name;
    }
  }

  lemma LoginSettles(g: Grid, name: Name, uuid: Uuid)
    requires !LosesIndex(g, name, uuid)
    ensures var after, path := LoggedIn(g, name, uuid), LoginPath(g, name, uuid).path;
            && BY_UUID_DIR in after.dirs && path in after.dirs && uuid in after.index && after.index[uuid] == path
  {
    LosesIndexMeans(g, name, uuid);
  }

  /** Logging in again changes nothing and returns the same path, exactly unless the index was lost. */
  lemma LoginIsIdempotent(g: Grid, name: Name, uuid: Uuid)
    ensures LoggedIn(LoggedIn(g, name, uuid), name, uuid) == LoggedIn(g, name, uuid) <==> !LosesIndex(g, name, uuid)
    ensures !LosesIndex(g, name, uuid) ==>
              var again, first := LoginPath(LoggedIn(g, name, uuid), name, uuid), LoginPath(g, name, uuid);
              again.path == first.path && (again.outcome.NameTaken? <==> first.outcome.NameTaken?)
  {
    var after := LoggedIn(g, name, uuid);
    LosesIndexMeans(g, name, uuid);
    if LosesIndex(g, name, uuid) {
      LosesIndexMeans(after, name, uuid);
    } else {
      LoginSettles(g, name, uuid);
      if LoginPath(g, name, uuid).outcome.NameTaken? {
        StillTaken(g, name, uuid);
      } else {
        assert after.index[uuid := name] == after.index;
      }
    }
  }

  // ---------------------------------------------------------------------------------
  // Two avatars, one name.

  ghost predicate Injective(index: map<Uuid, Name>) {
    forall a, b | a in index && b in index && index[a] == index[b] :: a == b
  }

  /** Each avatar keeps its own name exactly as long as no avatar first seen logs in under a name already claimed. */
  lemma InjectiveExactlyWhen(g: Grid, name: Name, uuid: Uuid)
    requires Injective(g.index)
    ensures Injective(LoggedIn(g, name, uuid).index) <==> uuid in g.index || !ClaimedByOther(g.index, name, uuid)
  {
    var after := LoggedIn(g, name, uuid).index;
    if ClaimedByOther(g.index, name, uuid) {
      var other :| other in g.index && other != uuid && g.index[other] == name;
      if uuid !in g.index {
        assert after[other] == after[uuid];
      }
    }
    if uuid in g.index || !ClaimedByOther(g.index, name, uuid) {
      forall a, b | a in after && b in after && after[a] == after[b] ensures a == b {
        assert a != uuid ==> a in g.index && after[a] == g.index[a];
        assert b != uuid ==> b in g.index && after[b] == g.index[b];
      }
    }
  }

  /** An avatar first seen under the name of another is given the other's data. */
  lemma FirstSeenTakesOver()
    ensures var g := Grid(map[BY_UUID_DIR := EMPTY, "Ann" := [7]], map[1 := "Ann"]);
            var after := LoggedIn(g, "Ann", 2);
            && Injective(g.index) && !Injective(after.index)
            && LoginPath(g, "Ann", 2) == AccountDir("Ann", Settled) && after.dirs["Ann"] == [7]
  {
    var g := Grid(map[BY_UUID_DIR := EMPTY, "Ann" := [7]], map[1 := "Ann"]);
    var after := LoggedIn(g, "Ann", 2);
    assert after.index[1] == after.index[2];
  }

  datatype Login = Login(name: Name, uuid: Uuid)

  ghost function AfterLogins(g: Grid, logins: seq<Login>): Grid {
    if logins == [] then g
    else
      var last := logins[|logins| - 1];
      LoggedIn(AfterLogins(g, logins[..|logins| - 1]), last.name, last.uuid)
  }

  /** Whoever is first seen logs in under a name nobody claims. */
  ghost predicate NewcomersAreNew(g: Grid, logins: seq<Login>) {
    logins == [] ||
    (var front, last := logins[..|logins| - 1], logins[|logins| - 1];
     var before := AfterLogins(g, front).index;
     NewcomersAreNew(g, front) && (last.uuid in before || !ClaimedByOther(before, last.name, last.uuid)))
  }

  lemma {:induction false} NamesStayDistinct(g: Grid, logins: seq<Login>)
    requires Injective(g.index) && NewcomersAreNew(g, logins)
    ensures Injective(AfterLogins(g, logins).index)
  {
    if logins != [] {
      var front, last := logins[..|logins| - 1], logins[|logins| - 1];
      NamesStayDistinct(g, front);
      InjectiveExactlyWhen(AfterLogins(g, front), last.name, last.uuid);
    }
  }

  /** Another avatar's login leaves the avatar's name and data alone, exactly unless it loses the index. */
  lemma OthersKeepTheirData(g: Grid, name: Name, uuid: Uuid, other: Uuid)
    requires Injective(g.index) && other in g.index && other != uuid && g.index[other] in g.dirs
    ensures Finds(LoggedIn(g, name, uuid), other, g.index[other], g.dirs[g.index[other]])
       <==> !LosesIndex(g, name, uuid)
  {
    LosesIndexMeans(g, name, uuid);
  }

  /** No login of the run renames the index away. */
  ghost predicate IndexKept(g: Grid, logins: seq<Login>) {
    logins == [] ||
    (var front, last := logins[..|logins| - 1], logins[|logins| - 1];
     IndexKept(g, front) && !LosesIndex(AfterLogins(g, front), last.name, last.uuid))
  }

  /** Through any run of logins that keeps the index, every avatar that has data keeps it, under
      the name its index entry has. */
  lemma {:induction false} DataSurvivesLogins(g: Grid, logins: seq<Login>, uuid: Uuid)
    requires Injective(g.index) && NewcomersAreNew(g, logins) && IndexKept(g, logins)
    requires uuid in g.index && g.index[uuid] in g.dirs
    ensures var after := AfterLogins(g, logins);
            uuid in after.index && Finds(after, uuid, after.index[uuid], g.dirs[g.index[uuid]])
  {
    if logins != [] {
      var front, last := logins[..|logins| - 1], logins[|logins| - 1];
      var before := AfterLogins(g, front);
      DataSurvivesLogins(g, front, uuid);
      NamesStayDistinct(g, front);
      if last.uuid == uuid {
        DataFollowsAvatar(before, last.name, uuid);
      } else {
        OthersKeepTheirData(before, last.name, last.uuid, uuid);
      }
    }
  }

  // ---------------------------------------------------------------------------------
  // An avatar called like the index directory.

  /** No avatar's entry names the index directory. */
  ghost predicate Proper(g: Grid) { forall uuid <- g.index :: g.index[uuid] != BY_UUID_DIR }

  ghost predicate ProperNames(logins: seq<Login>) {
    forall i | 0 <= i < |logins| :: logins[i].name != BY_UUID_DIR
  }

  lemma {:induction false} ProperStays(g: Grid, logins: seq<Login>)
    requires Proper(g) && ProperNames(logins)
    ensures Proper(AfterLogins(g, logins)) && IndexKept(g, logins)
  {
    if logins != [] { ProperStays(g, logins[..|logins| - 1]); }
  }

  lemma {:induction false} EntriesStay(g: Grid, logins: seq<Login>)
    requires IndexKept(g, logins)
    ensures g.index.Keys <= AfterLogins(g, logins).index.Keys
  {
    if logins != [] {
      var front, last := logins[..|logins| - 1], logins[|logins| - 1];
      EntriesStay(g, front);
      LosesIndexMeans(AfterLogins(g, front), last.name, last.uuid);
    }
  }

  ghost function LongestOf(names: set<Name>): (n: nat)
    ensures forall name <- names :: |name| <= n
  {
    if names == {} then 0
    else
      var name :| name in names;
      Larger(|name|, LongestOf(names - {name}))
  }

  function Larger(a: nat, b: nat): nat { if a < b then b else a }

  /** No avatar is ever forgotten, whatever names they log in under, exactly if no entry names the
      index directory; nobody is to log in under that name. */
  lemma IndexSurvivesExactlyWhen(g: Grid)
    ensures (forall logins | ProperNames(logins) :: g.index.Keys <= AfterLogins(g, logins).index.Keys) <==> Proper(g)
  {
    if Proper(g) {
      forall logins | ProperNames(logins) ensures g.index.Keys <= AfterLogins(g, logins).index.Keys {
        ProperStays(g, logins);
        EntriesStay(g, logins);
      }
    } else {
      var uuid :| uuid in g.index && g.index[uuid] == BY_UUID_DIR;
      var name := FreeName(g);
      LosesIndexMeans(g, name, uuid);
      var logins := [Login(name, uuid)];
      assert logins[..0] == [] && AfterLogins(g, []) == g;
      assert AfterLogins(g, logins) == LoggedIn(g, name, uuid);
      assert ProperNames(logins) && uuid in g.index.Keys && uuid !in AfterLogins(g, logins).index.Keys;
    }
  }

  lemma FreeName(g: Grid) returns (name: Name)
    ensures name != BY_UUID_DIR && name !in g.dirs && forall other <- g.index :: g.index[other] != name
  {
    var names := g.dirs.Keys + g.index.Values + {BY_UUID_DIR};
    name := seq(LongestOf(names) + 1, _ => 'a');
  }

  /** An avatar seen as `.by-uuid` takes the name Bob: the index is gone, and Ann, who takes the name
      Bea next, is given an empty directory. */
  lemma LosingIndexLosesData()
    ensures var g := Grid(map[BY_UUID_DIR := EMPTY, "Ann" := [7]], map[1 := "Ann", 2 := BY_UUID_DIR]);
            var lost := LoggedIn(g, "Bob", 2);
            && LosesIndex(g, "Bob", 2) && lost == Grid(map["Ann" := [7], "Bob" := EMPTY], map[])
            && LoginPath(lost, "Bea", 1) == AccountDir("Bea", Settled)
            && var after := LoggedIn(lost, "Bea", 1).dirs; "Bea" in after && after["Bea"] == EMPTY
  {
    assert "Bob" != "Ann" && BY_UUID_DIR != "Ann" && BY_UUID_DIR != "Bob" && "Bea" != "Ann" && "Bea" != "Bob"
           && "Bea" != BY_UUID_DIR by {
      assert "Bob"[0] == 'B' && "Ann"[0] == 'A' && BY_UUID_DIR[0] == '.' && "Bea"[0] == 'B';
      assert "Bob"[1] == 'o' && "Bea"[1] == 'e';
    }
    var g := Grid(map[BY_UUID_DIR := EMPTY, "Ann" := [7]], map[1 := "Ann", 2 := BY_UUID_DIR]);
    assert !ClaimedByOther(g.index, "Bob", 2);
    LosesIndexMeans(g, "Bob", 2);
    assert LoggedIn(g, "Bob", 2).dirs == map["Ann" := [7], "Bob" := EMPTY];
  }

  // ---------------------------------------------------------------------------------
  // Logins that stop at a failing file operation.

  /** Whether the login that follows a failed one finds the data. */
  ghost predicate RecoversData(g: Grid, name: Name, uuid: Uuid, fault: Fault)
    requires uuid in g.index && g.index[uuid] in g.dirs
  {
    var left := Interrupted(g, name, uuid, fault);
    var path := LoginPath(left, name, uuid).path;
    var after := LoggedIn(left, name, uuid);
    path in after.dirs && after.dirs[path] == g.dirs[g.index[uuid]]
  }

  /**
   A failed rename is made up for by the next login unless the old index entry could not be
   removed: the directory has moved then, and the entry still names the old one, which is created anew.
   */
  lemma RecoversExactlyWhen(g: Grid, name: Name, uuid: Uuid, fault: Fault)
    requires uuid in g.index && g.index[uuid] in g.dirs && g.dirs[g.index[uuid]] != EMPTY
    requires LoginPath(g, name, uuid).outcome.Renamed? && fault != NoFault
    ensures RecoversData(g, name, uuid, fault) <==> !fault.AtRemoveIndex? || LosesIndex(g, name, uuid)
  {
  }

  /** A rename that loses sight of the data: it moves Ann's directory to `Bea`, cannot remove the old
      entry, and the next login as `Bea` finds that name taken and creates `Ann` anew, empty. */
  lemma InterruptedRenameLosesData()
    ensures var g := Grid(map[BY_UUID_DIR := EMPTY, "Ann" := [7]], map[1 := "Ann"]);
            var left := Interrupted(g, "Bea", 1, AtRemoveIndex);
            && !RecoversData(g, "Bea", 1, AtRemoveIndex)
            && LoginPath(left, "Bea", 1) == AccountDir("Ann", NameTaken("Ann"))
            && var after := LoggedIn(left, "Bea", 1).dirs;
               "Ann" in after && after["Ann"] == EMPTY && "Bea" in after && after["Bea"] == [7]
  {
    var g := Grid(map[BY_UUID_DIR := EMPTY, "Ann" := [7]], map[1 := "Ann"]);
    assert "Bea" != "Ann" && BY_UUID_DIR != "Ann" && BY_UUID_DIR != "Bea" by {
      assert "Bea"[0] == 'B' && "Ann"[0] == 'A' && BY_UUID_DIR[0] == '.';
    }
    assert !ClaimedByOther(g.index, "Bea", 1);
  }

  // ---------------------------------------------------------------------------------
  // Names of directories.

  predicate IsSafe(alnum: char -> bool, c: char) { alnum(c) || c in " .-_" }

  function Mapped(alnum: char -> bool, s: string): (r: string)
    ensures |r| == |s|
    ensures forall i | 0 <= i < |s| :: r[i] == if IsSafe(alnum, s[i]) then s[i] else '_'
  {
    seq(|s|, i requires 0 <= i < |s| => if IsSafe(alnum, s[i]) then s[i] else '_')
  }

  predicate OnlyDots(s: string) { forall i | 0 <= i < |s| :: s[i] == '.' }

  /** One path component for `raw`; `alnum` says which characters are letters and digits. */
  function SanitizeSegment(alnum: char -> bool, raw: string): string {
    var mapped := Mapped(alnum, Text.Trim(raw));
    if OnlyDots(mapped) then "unknown" else mapped
  }

  ghost predicate LettersOnly(alnum: char -> bool) {
    (forall c | 'a' <= c <= 'z' :: alnum(c)) && forall c {:trigger alnum(c)} ::
        Text.IsSpace(c) || c in "/\\" || c == '\0' ==> !alnum(c)
  }

  lemma {:induction false} TrimEndStops(s: string)
    ensures Text.TrimEnd(s) != "" ==> !Text.IsSpace(Text.TrimEnd(s)[|Text.TrimEnd(s)| - 1])
    ensures Text.TrimEnd(s) <= s
  {
    if s != "" && Text.IsSpace(s[|s| - 1]) { TrimEndStops(s[..|s| - 1]); }
  }

  lemma {:induction false} TrimStartStops(s: string)
    ensures Text.TrimStart(s) != "" ==> !Text.IsSpace(Text.TrimStart(s)[0])
  {
    if s != "" && Text.IsSpace(s[0]) { TrimStartStops(s[1..]); }
  }

  lemma TrimStops(s: string)
    ensures var t := Text.Trim(s); t != "" ==> !Text.IsSpace(t[0]) && !Text.IsSpace(t[|t| - 1])
  {
    TrimStartStops(s);
    TrimEndStops(Text.TrimStart(s));
  }

  /** A segment is one component that is neither empty, `.` nor `..`, and its own segment. */
  lemma SegmentIsSafe(alnum: char -> bool, raw: string)
    requires LettersOnly(alnum)
    ensures var s := SanitizeSegment(alnum, raw);
            && s != "" && !OnlyDots(s) && '/' !in s && '\\' !in s && '\0' !in s
            && SanitizeSegment(alnum, s) == s
  {
    var s, mapped := SanitizeSegment(alnum, raw), Mapped(alnum, Text.Trim(raw));
    TrimStops(raw);
    assert !OnlyDots("unknown") by { assert "unknown"[0] == 'u'; }
    assert forall i | 0 <= i < |s| :: IsSafe(alnum, s[i]);
    assert s != "" && !Text.IsSpace(s[0]) && !Text.IsSpace(s[|s| - 1]);
    Keeps(s);
    assert Mapped(alnum, s) == s;
  }

  /** It is the trimmed name with an underscore for each character that is neither a letter, a digit, a space, a dot, a
      hyphen nor an underscore; a name of nothing but dots is unknown. */
  lemma SegmentSpells(alnum: char -> bool, raw: string)
    ensures var s, t := SanitizeSegment(alnum, raw), Text.Trim(raw);
            if forall i | 0 <= i < |t| :: t[i] == '.' then s == "unknown"
            else |s| == |t| && forall i | 0 <= i < |t| :: s[i] == if alnum(t[i]) || t[i] in " .-_" then t[i] else '_'
  {
    var t := Text.Trim(raw);
    assert OnlyDots(Mapped(alnum, t)) <==> OnlyDots(t);
  }

  /** The index directory has the name that an avatar called so is given. */
  lemma IndexDirIsASegment(alnum: char -> bool)
    requires LettersOnly(alnum)
    ensures SanitizeSegment(alnum, BY_UUID_DIR) == BY_UUID_DIR
  {
    assert BY_UUID_DIR[1] == 'b';
    Keeps(BY_UUID_DIR);
    assert Mapped(alnum, BY_UUID_DIR) == BY_UUID_DIR;
  }

  lemma Keeps(s: string)
    requires s != "" && !Text.IsSpace(s[0]) && !Text.IsSpace(s[|s| - 1])
    ensures Text.Trim(s) == s
  {
  }
}
