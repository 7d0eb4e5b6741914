/** Snapshots, their retention and the ratchet (storage/db.rs of omnivore-core). */
module SnapshotStore {
  import opened Text
  import opened Wrappers

  datatype Snapshot = Snapshot(
    id: Text, projectId: Text, target: Text, source: Text, branch: Option<Name>,
    createdAt: int, lineRate: real, branchRate: real, files: Option<Text>)

  /** Retention is by project, target and source. */
  datatype Series = Series(projectId: Text, target: Text, source: Text)

  function SeriesOf(s: Snapshot): Series {
    Series(s.projectId, s.target, s.source)
  }

  datatype Project = Project(ratchetEnabled: bool, lineFloor: Option<real>, branchFloor: Option<real>)

  const NEW_PROJECT := Project(false, None, None)

  datatype RatchetResult = RatchetResult(lineFloorViolated: bool, branchFloorViolated: bool, lineFloor: Option<real>, branchFloor: Option<real>)

  const NO_VERDICT := RatchetResult(false, false, None, None)

  datatype Settings = Settings(retentionFull: nat, retentionSummary: nat)

  // ---- RatchetPolicy ----

  /** Branch names character by character: Unicode scalar values, which is what `str::trim` looks at. */
  type Char = c: int | 0 <= c < 0x11_0000

  type Name = seq<Char>

  /** Unicode's `White_Space`. */
  predicate IsSpace(c: Char) {
    0x09 <= c <= 0x0D || c == 0x20 || c == 0x85 || c == 0xA0 || c == 0x1680 || 0x2000 <= c <= 0x200A
    || c == 0x2028 || c == 0x2029 || c == 0x202F || c == 0x205F || c == 0x3000
  }

  function TrimStart(t: Name): Name {
    if t != [] && IsSpace(t[0]) then TrimStart(t[1..]) else t
  }

  function TrimEnd(t: Name): Name {
    if t != [] && IsSpace(t[|t| - 1]) then TrimEnd(t[..|t| - 1]) else t
  }

  function Lower(c: Char): Char {
    if 0x41 <= c <= 0x5A then c + 0x20 else c
  }

  predicate EqIgnoreAsciiCase(a: Name, b: Name) {
    |a| == |b| && forall i :: 0 <= i < |a| ==> Lower(a[i]) == Lower(b[i])
  }

  datatype RatchetPolicy = RatchetPolicy(branches: seq<Name>, requireBranch: bool) {
    predicate Allows(branch: Option<Name>) {
      var name := if branch.Some? then TrimEnd(TrimStart(branch.value)) else [];
      if name == [] then !requireBranch
      else exists b :: b in branches && EqIgnoreAsciiCase(b, name)
    }
  }

  // ---- Retention ----

  function InsertByAge(sorted: seq<Snapshot>, s: Snapshot): seq<Snapshot> {
    if sorted == [] || sorted[0].createdAt <= s.createdAt then [s] + sorted else [sorted[0]] + InsertByAge(sorted[1..], s)
  }

  /** `WHERE` the series is this one `ORDER BY created_at DESC` */
  function NewestFirst(rows: seq<Snapshot>, series: Series): seq<Snapshot> {
    if rows == [] then []
    else
      var front, last := rows[..|rows| - 1], rows[|rows| - 1];
      if SeriesOf(last) == series then InsertByAge(NewestFirst(front, series), last) else NewestFirst(front, series)
  }

  /** `SELECT id ... LIMIT -1 OFFSET offset` */
  function IdsBeyond(rows: seq<Snapshot>, series: Series, offset: nat): set<Text> {
    var sorted := NewestFirst(rows, series);
    set k | offset <= k < |sorted| :: sorted[k].id
  }

  function Stripped(rows: seq<Snapshot>, ids: set<Text>): (r: seq<Snapshot>)
    ensures |r| == |rows|
  {
    seq(|rows|, k requires 0 <= k < |rows| => if rows[k].id in ids then rows[k].(files := None) else rows[k])
  }

  function Deleted(rows: seq<Snapshot>, ids: set<Text>): seq<Snapshot> {
    if rows == [] then []
    else Deleted(rows[..|rows| - 1], ids) + if rows[|rows| - 1].id in ids then [] else [rows[|rows| - 1]]
  }

  function Pruned(rows: seq<Snapshot>, series: Series, settings: Settings): seq<Snapshot> {
    var stripped := Stripped(rows, IdsBeyond(rows, series, settings.retentionFull));
    Deleted(stripped, IdsBeyond(stripped, series, settings.retentionFull + settings.retentionSummary))
  }

  // ---- The ratchet ----

  function Max(a: real, b: real): real {
    if a < b then b else a
  }

  /** `MAX(COALESCE(floor, 0), rate)` */
  function Raised(floor: Option<real>, rate: real): Option<real> {
    Some(Max(if floor.Some? then floor.value else 0.0, rate))
  }

  predicate IsBelow(rate: real, floor: Option<real>) {
    floor.Some? && rate < floor.value
  }

  function Verdict(p: Project, s: Snapshot): RatchetResult {
    if p.ratchetEnabled then RatchetResult(IsBelow(s.lineRate, p.lineFloor), IsBelow(s.branchRate, p.branchFloor), p.lineFloor, p.branchFloor)
    else NO_VERDICT
  }

  function Advanced(p: Project, s: Snapshot, policy: RatchetPolicy): Project {
    if p.ratchetEnabled && policy.Allows(s.branch) then
      p.(lineFloor := Raised(p.lineFloor, s.lineRate), branchFloor := Raised(p.branchFloor, s.branchRate))
    else p
  }

  // ---- Ingest ----

  datatype Config = Config(allowAutocreate: bool, policy: RatchetPolicy, settings: Settings)

  datatype State = State(projects: map<Text, Project>, snapshots: seq<Snapshot>)

  predicate HasId(rows: seq<Snapshot>, id: Text) {
    exists k :: 0 <= k < |rows| && rows[k].id == id
  }

  predicate IsRefused(config: Config, state: State, s: Snapshot) {
    s.projectId !in state.projects && !config.allowAutocreate
  }

  predicate IsTaken(config: Config, state: State, s: Snapshot) {
    !IsRefused(config, state, s) && !HasId(state.snapshots, s.id)
  }

  /** What an ingest leaves; one with an id already stored fails after its project may have been created. */
  function AfterIngest(config: Config, state: State, s: Snapshot): State {
    if IsRefused(config, state, s) then state
    else
      var projects := if s.projectId in state.projects then state.projects else state.projects[s.projectId := NEW_PROJECT];
      if HasId(state.snapshots, s.id) then State(projects, state.snapshots)
      else State(projects[s.projectId := Advanced(projects[s.projectId], s, config.policy)],
                 Pruned(state.snapshots + [s], SeriesOf(s), config.settings))
  }

  function AnswerTo(config: Config, state: State, s: Snapshot): Result<RatchetResult> {
    if !IsTaken(config, state, s) then Error
    else Ok(Verdict(if s.projectId in state.projects then state.projects[s.projectId] else NEW_PROJECT, s))
  }

  class Database {
    const allowProjectAutocreate: bool
    const ratchet: RatchetPolicy
    var projects: map<Text, Project>
    var snapshots: seq<Snapshot>

    constructor (allowProjectAutocreate: bool, ratchet: RatchetPolicy, projects: map<Text, Project>)
      ensures this.allowProjectAutocreate == allowProjectAutocreate && this.ratchet == ratchet
      ensures Contents() == State(projects, [])
    {
      this.allowProjectAutocreate, this.ratchet := allowProjectAutocreate, ratchet;
      this.projects, snapshots := projects, [];
    }

    function Contents(): State
      reads this
    {
      State(projects, snapshots)
    }

    method InsertSnapshot(snapshot: Snapshot) returns (r: Result<()>)
      modifies this`snapshots
      ensures r.Ok? <==> !HasId(old(snapshots), snapshot.id)
      ensures snapshots == if r.Ok? then old(snapshots) + [snapshot] else old(snapshots)
    {
      if HasId(snapshots, snapshot.id) {
        return Error;
      }
      snapshots := snapshots + [snapshot];
      r := Ok(());
    }

    method AdvanceRatchetFloor(projectId: Text, newLineRate: real, newBranchRate: real)
      requires projectId in projects
      modifies this`projects
      ensures
        var p := old(projects)[projectId];
        projects == if p.ratchetEnabled then
          old(projects)[projectId := p.(lineFloor := Raised(p.lineFloor, newLineRate), branchFloor := Raised(p.branchFloor, newBranchRate))]
        else old(projects)
    {
      var p := projects[projectId];
      if p.ratchetEnabled {
        projects := projects[projectId := p.(lineFloor := Raised(p.lineFloor, newLineRate), branchFloor := Raised(p.branchFloor, newBranchRate))];
      }
    }

    method PruneSnapshots(projectId: Text, target: Text, source: Text, settings: Settings)
      modifies this`snapshots
      ensures snapshots == Pruned(old(snapshots), Series(projectId, target, source), settings)
    {
      var series := Series(projectId, target, source);
      snapshots := Stripped(snapshots, IdsBeyond(snapshots, series, settings.retentionFull));
      snapshots := Deleted(snapshots, IdsBeyond(snapshots, series, settings.retentionFull + settings.retentionSummary));
    }

    method IngestSnapshot(snapshot: Snapshot, settings: Settings) returns (r: Result<RatchetResult>)
      modifies this
      ensures
        var config := Config(allowProjectAutocreate, ratchet, settings);
        && r == AnswerTo(config, old(Contents()), snapshot)
        && Contents() == AfterIngest(config, old(Contents()), snapshot)
    {
      hide Pruned;
      if snapshot.projectId !in projects {
        if !allowProjectAutocreate {
          return Error;
        }
        projects := projects[snapshot.projectId := NEW_PROJECT];
      }
      var _ :- InsertSnapshot(snapshot);
      var project := projects[snapshot.projectId];
      var result := NO_VERDICT;
      if project.ratchetEnabled {
        var lineViolated := IsBelow(snapshot.lineRate, project.lineFloor);
        var branchViolated := IsBelow(snapshot.branchRate, project.branchFloor);
        if ratchet.Allows(snapshot.branch) {
          AdvanceRatchetFloor(snapshot.projectId, snapshot.lineRate, snapshot.branchRate);
        }
        result := RatchetResult(lineViolated, branchViolated, project.lineFloor, project.branchFloor);
      }
      PruneSnapshots(snapshot.projectId, snapshot.target, snapshot.source, settings);
      r := Ok(result);
    }
  }
}
