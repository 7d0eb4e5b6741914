/** Answers, projects and ages over whole runs of ingests, in terms of the snapshots alone. */
module RetentionLaws {
  import opened Retention
  import opened SnapshotStore
  import opened Text
  import opened Wrappers

  // ---- Series and ages ----

  /** The same project, target and source. */
  predicate SameSeries(a: Snapshot, b: Snapshot) {
    a.projectId == b.projectId && a.target == b.target && a.source == b.source
  }

  function NewerPositions(rows: seq<Snapshot>, s: Snapshot): set<int> {
    set k | 0 <= k < |rows| && SameSeries(rows[k], s) && rows[k].createdAt > s.createdAt
  }

  /** Newer are the snapshots of the same project, target and source with a later timestamp. */
  lemma {:induction false} NewerAreLater(rows: seq<Snapshot>, s: Snapshot)
    ensures Newer(rows, s) == |NewerPositions(rows, s)|
  {
    if rows != [] {
      var front, last := rows[..|rows| - 1], rows[|rows| - 1];
      NewerAreLater(front, s);
      assert NewerPositions(rows, s)
          == NewerPositions(front, s) + if SameSeries(last, s) && last.createdAt > s.createdAt then {|front|} else {};
    } else {
      assert NewerPositions(rows, s) == {};
    }
  }

  // ---- Answers ----

  predicate IsStored(rows: seq<Snapshot>, id: Text) {
    exists k :: 0 <= k < |rows| && rows[k].id == id
  }

  /** The ingest is turned away: its project is unknown and may not be created, or its id is stored. */
  predicate IsTurnedAway(config: Config, state: State, s: Snapshot) {
    (s.projectId !in state.projects && !config.allowAutocreate) || IsStored(state.snapshots, s.id)
  }

  /**
   * The answer after any run: an error exactly when the ingest is turned away; with the ratchet off, as
   * in a project just created, nothing is violated and there are no floors; with it on, a rate below
   * its floor is a violation and the floors are those from before.
   */
  lemma AnswersAre(config: Config, projects: map<Text, Project>, ingests: seq<Snapshot>, s: Snapshot)
    ensures
      var state := StateAfter(config, projects, ingests);
      var answer := AnswerTo(config, state, s);
      && (answer == Error <==> IsTurnedAway(config, state, s))
      && (answer.Ok? && (s.projectId !in state.projects || !state.projects[s.projectId].ratchetEnabled) ==>
            answer.value == RatchetResult(false, false, None, None))
      && (answer.Ok? && s.projectId in state.projects && state.projects[s.projectId].ratchetEnabled ==>
            var p := state.projects[s.projectId];
            && answer.value.lineFloor == p.lineFloor && answer.value.branchFloor == p.branchFloor
            && (answer.value.lineFloorViolated <==> p.lineFloor.Some? && s.lineRate < p.lineFloor.value)
            && (answer.value.branchFloorViolated <==> p.branchFloor.Some? && s.branchRate < p.branchFloor.value))
  {
    hide StateAfter;
  }

  /** What an ingest that is not turned away leaves: one more snapshot taken; one turned away is not. */
  lemma TakenOneMore(config: Config, projects: map<Text, Project>, ingests: seq<Snapshot>, s: Snapshot)
    ensures Taken(config, projects, ingests + [s])
         == Taken(config, projects, ingests) + if IsTurnedAway(config, StateAfter(config, projects, ingests), s) then [] else [s]
  {
    hide StateAfter;
    assert (ingests + [s])[..|ingests|] == ingests;
  }

  /** A snapshot raises floors when it is taken for the project and its branch is allowed. */
  lemma RaisingOneMore(config: Config, projects: map<Text, Project>, ingests: seq<Snapshot>, s: Snapshot, id: Text)
    ensures Raising(config, projects, ingests + [s], id)
         == Raising(config, projects, ingests, id)
            + if !IsTurnedAway(config, StateAfter(config, projects, ingests), s) && s.projectId == id && config.policy.Allows(s.branch) then [s] else []
  {
    hide StateAfter;
    assert (ingests + [s])[..|ingests|] == ingests;
  }

  lemma NothingYet(config: Config, projects: map<Text, Project>, id: Text)
    ensures StateAfter(config, projects, []) == State(projects, [])
    ensures Taken(config, projects, []) == [] == Raising(config, projects, [], id)
  {
  }

  // ---- Projects ----

  /** The run has an ingest for the project. */
  predicate IsMentioned(ingests: seq<Snapshot>, id: Text) {
    exists k :: 0 <= k < |ingests| && ingests[k].projectId == id
  }

  lemma MentionedOneMore(front: seq<Snapshot>, s: Snapshot, id: Text)
    ensures IsMentioned(front + [s], id) <==> IsMentioned(front, id) || s.projectId == id
  {
    var all := front + [s];
    if k :| 0 <= k < |front| && front[k].projectId == id {
      assert all[k].projectId == id;
    }
    if s.projectId == id {
      assert all[|front|].projectId == id;
    }
  }

  /**
   * Projects are created by ingests where that is allowed, with the ratchet off and without floors, and
   * no ingest changes that.
   */
  lemma {:induction false} CreatedProjectsStayOff(config: Config, projects: map<Text, Project>, ingests: seq<Snapshot>, id: Text)
    requires id !in projects
    ensures id in StateAfter(config, projects, ingests).projects <==> config.allowAutocreate && IsMentioned(ingests, id)
    ensures id in StateAfter(config, projects, ingests).projects ==>
      StateAfter(config, projects, ingests).projects[id] == SnapshotStore.Project(false, None, None)
  {
    hide Pruned, HasId, IsMentioned;
    if ingests == [] {
      assert !IsMentioned([], id) by { NothingMentioned(id); }
    } else {
      var front, last := ingests[..|ingests| - 1], ingests[|ingests| - 1];
      CreatedProjectsStayOff(config, projects, front, id);
      MentionedOneMore(front, last, id);
      assert ingests == front + [last];
    }
  }

  lemma NothingMentioned(id: Text)
    ensures !IsMentioned([], id)
  {
  }

  // ---- Branch names ----

  /** The characters that `str::trim` removes. */
  lemma SpacesAre(c: Char)
    ensures IsSpace(c) <==> c in {0x09, 0x0A, 0x0B, 0x0C, 0x0D, 0x20, 0x85, 0xA0, 0x1680,
                                  0x2000, 0x2001, 0x2002, 0x2003, 0x2004, 0x2005, 0x2006, 0x2007, 0x2008, 0x2009, 0x200A,
                                  0x2028, 0x2029, 0x202F, 0x205F, 0x3000}
  {
  }

  /** Names that are equal but for the case of ASCII letters. */
  lemma CaseIsIgnored(a: Name, b: Name)
    ensures EqIgnoreAsciiCase(a, b) <==>
      && |a| == |b|
      && forall i :: 0 <= i < |a| ==>
           a[i] == b[i] || (0x41 <= a[i] <= 0x5A && b[i] == a[i] + 32) || (0x41 <= b[i] <= 0x5A && a[i] == b[i] + 32)
  {
    if EqIgnoreAsciiCase(a, b) {
      forall i | 0 <= i < |a|
        ensures a[i] == b[i] || (0x41 <= a[i] <= 0x5A && b[i] == a[i] + 32) || (0x41 <= b[i] <= 0x5A && a[i] == b[i] + 32)
      {
        assert Lower(a[i]) == Lower(b[i]);
      }
    }
  }
}
