/** The board an analysis run reasons over, kept in memory and written through to its rows. */
module AnalysisBoard {
  import opened Wrappers

  datatype Fact = Fact(metric: string, value: string, period: Option<string>, producer: nat)

  datatype ConflictStatus = Open | Resolved | Documented

  datatype Conflict = Conflict(id: nat, metric: string, period: Option<string>, former: string, latter: string, status: ConflictStatus)

  datatype Gap = Gap(id: nat, description: string, resolved: bool)

  datatype Board = Board(facts: seq<Fact>, conflicts: seq<Conflict>, gaps: seq<Gap>)

  const EMPTY := Board([], [], [])

  // ---- Facts and conflicts

  /** Two measurements of one metric over one period that do not agree. */
  predicate Disagree(f: Fact, g: Fact) {
    f.metric == g.metric && f.period == g.period && f.value != g.value
  }

  /** The first fact on the board that a new one disagrees with. */
  function ContradictedBy(facts: seq<Fact>, f: Fact): Option<Fact> {
    if facts == [] then None
    else if Disagree(facts[0], f) then Some(facts[0])
    else ContradictedBy(facts[1..], f)
  }

  lemma {:induction false} ContradictedByFinds(facts: seq<Fact>, f: Fact)
    ensures ContradictedBy(facts, f).None? <==> forall g :: g in facts ==> !Disagree(g, f)
    ensures ContradictedBy(facts, f).Some? ==> ContradictedBy(facts, f).value in facts && Disagree(ContradictedBy(facts, f).value, f)
  {
    if facts != [] {
      ContradictedByFinds(facts[1..], f);
    }
  }

  /** Recording one fact: it joins the board, and opens a conflict with the fact it disagrees with. */
  function Recorded(b: Board, f: Fact, id: nat): Board {
    match ContradictedBy(b.facts, f)
    case None => b.(facts := b.facts + [f])
    case Some(g) =>
      b.(facts := b.facts + [f],
         conflicts := b.conflicts + [Conflict(id, f.metric, f.period, g.value, f.value, Open)])
  }

  function Merged(b: Board, evidence: seq<Fact>, ids: seq<nat>): Board
    requires |ids| == |evidence|
  {
    if evidence == [] then b
    else
      var last := |evidence| - 1;
      Recorded(Merged(b, evidence[..last], ids[..last]), evidence[last], ids[last])
  }

  ghost predicate Contradicted(facts: seq<Fact>, j: nat)
    requires j < |facts|
  {
    exists i :: 0 <= i < j && Disagree(facts[i], facts[j])
  }

  /** How many facts disagreed with an earlier one. */
  ghost function Contradictions(facts: seq<Fact>): nat {
    if facts == [] then 0
    else Contradictions(facts[..|facts| - 1]) + if Contradicted(facts, |facts| - 1) then 1 else 0
  }

  /** The conflict is about these two facts. */
  predicate Names(c: Conflict, f: Fact, g: Fact) {
    && Disagree(f, g)
    && c.metric == f.metric && c.period == f.period && c.former == f.value && c.latter == g.value
  }

  ghost predicate Explained(facts: seq<Fact>, c: Conflict) {
    exists f, g :: f in facts && g in facts && Names(c, f, g)
  }

  /** Conflicts are neither missed nor invented: as many as there are facts that disagreed on arrival,
      and each names two facts on the board. */
  ghost predicate ConflictsMatch(b: Board) {
    && |b.conflicts| == Contradictions(b.facts)
    && forall c :: c in b.conflicts ==> Explained(b.facts, c)
  }

  lemma RecordKeepsMatch(b: Board, f: Fact, id: nat)
    requires ConflictsMatch(b)
    ensures ConflictsMatch(Recorded(b, f, id))
  {
    ContradictedByFinds(b.facts, f);
    var t := Recorded(b, f, id);
    assert t.facts[..|b.facts|] == b.facts;
    assert forall i :: 0 <= i < |b.facts| ==> t.facts[i] == b.facts[i] && b.facts[i] in b.facts;
    if ContradictedBy(b.facts, f).Some? {
      var i :| 0 <= i < |b.facts| && b.facts[i] == ContradictedBy(b.facts, f).value;
      assert Disagree(t.facts[i], t.facts[|b.facts|]);
    }
    forall c | c in t.conflicts ensures Explained(t.facts, c) {
      ExplainedByMore(b, t, f, c);
    }
  }

  lemma ExplainedByMore(b: Board, t: Board, f: Fact, c: Conflict)
    requires (forall d :: d in b.conflicts ==> Explained(b.facts, d)) && t.facts == b.facts + [f]
    requires c in b.conflicts || exists g :: g in b.facts && Names(c, g, f)
    ensures Explained(t.facts, c)
  {
  }

  lemma {:induction false} MergeKeepsMatch(b: Board, evidence: seq<Fact>, ids: seq<nat>)
    requires ConflictsMatch(b) && |ids| == |evidence|
    ensures ConflictsMatch(Merged(b, evidence, ids))
    decreases |evidence|
  {
    if evidence != [] {
      var last := |evidence| - 1;
      MergeKeepsMatch(b, evidence[..last], ids[..last]);
      RecordKeepsMatch(Merged(b, evidence[..last], ids[..last]), evidence[last], ids[last]);
    }
  }

  lemma MergeOneMore(b: Board, evidence: seq<Fact>, ids: seq<nat>, k: nat)
    requires k < |evidence| == |ids|
    ensures Merged(b, evidence[..k + 1], ids[..k + 1]) == Recorded(Merged(b, evidence[..k], ids[..k]), evidence[k], ids[k])
  {
    assert evidence[..k + 1][..k] == evidence[..k] && ids[..k + 1][..k] == ids[..k];
  }

  // ---- Which conflicts a measurement opens

  /** The first fact before the j-th that measured the same metric over the same period as something else. */
  ghost predicate FirstAgainst(facts: seq<Fact>, i: int, j: int) {
    && 0 <= i < j < |facts|
    && facts[i].metric == facts[j].metric && facts[i].period == facts[j].period && facts[i].value != facts[j].value
    && forall h :: 0 <= h < i && facts[h].metric == facts[j].metric && facts[h].period == facts[j].period ==>
         facts[h].value == facts[j].value
  }

  /** The conflict between the j-th fact and the first it was against. */
  ghost predicate ConflictOver(facts: seq<Fact>, j: int, id: nat, status: ConflictStatus, c: Conflict) {
    && 0 <= j < |facts|
    && exists i ::
         FirstAgainst(facts, i, j) && c == Conflict(id, facts[j].metric, facts[j].period, facts[i].value, facts[j].value, status)
  }

  ghost predicate IsAgainst(facts: seq<Fact>, j: int) {
    exists i :: FirstAgainst(facts, i, j)
  }

  /** These conflicts are those of the facts from a place on, with the ids drawn for those facts: one for each that
      was against an earlier one, in the order in which they came; `at` are their places. */
  ghost predicate ConflictsOf(facts: seq<Fact>, from: nat, ids: seq<nat>, status: ConflictStatus, conflicts: seq<Conflict>, at: seq<nat>) {
    && |facts| == from + |ids| && |at| == |conflicts|
    && (forall i, j :: 0 <= i < j < |at| ==> at[i] < at[j])
    && (forall j :: from <= j < |facts| ==> (j in at <==> IsAgainst(facts, j)))
    && (forall k :: 0 <= k < |at| ==>
          from <= at[k] < |facts| && ConflictOver(facts, at[k], ids[at[k] - from], status, conflicts[k]))
  }

  lemma {:induction false} ContradictedByFirst(facts: seq<Fact>, f: Fact) returns (i: nat)
    requires ContradictedBy(facts, f).Some?
    ensures FirstAgainst(facts + [f], i, |facts|) && ContradictedBy(facts, f) == Some(facts[i])
  {
    if Disagree(facts[0], f) {
      i := 0;
    } else {
      var k := ContradictedByFirst(facts[1..], f);
      assert facts[1..] + [f] == (facts + [f])[1..];
      i := k + 1;
    }
  }

  lemma EarlierStandsSo(facts: seq<Fact>, f: Fact, i: int, j: int)
    requires j < |facts|
    ensures FirstAgainst(facts + [f], i, j) <==> FirstAgainst(facts, i, j)
  {
    var more := facts + [f];
    assert forall h :: 0 <= h < |facts| ==> more[h] == facts[h];
    if FirstAgainst(more, i, j) {
      forall h | 0 <= h < i && facts[h].metric == facts[j].metric && facts[h].period == facts[j].period
        ensures facts[h].value == facts[j].value
      {
        assert more[h] == facts[h];
      }
    }
  }

  /** Recording a fact that is against none adds no conflict. */
  lemma NoneMore(facts: seq<Fact>, from: nat, ids: seq<nat>, status: ConflictStatus, conflicts: seq<Conflict>, at: seq<nat>, f: Fact, id: nat)
    requires ConflictsOf(facts, from, ids, status, conflicts, at) && !IsAgainst(facts + [f], |facts|)
    ensures ConflictsOf(facts + [f], from, ids + [id], status, conflicts, at)
  {
    var more := facts + [f];
    forall j | from <= j < |more| ensures j in at <==> IsAgainst(more, j) {
      StillAgainst(facts, f, j);
    }
    AllStillOver(facts, from, ids, status, conflicts, at, f, id);
  }

  lemma StillAgainst(facts: seq<Fact>, f: Fact, j: int)
    ensures j < |facts| ==> (IsAgainst(facts + [f], j) <==> IsAgainst(facts, j))
  {
    if j < |facts| {
      forall i ensures FirstAgainst(facts + [f], i, j) <==> FirstAgainst(facts, i, j) {
        EarlierStandsSo(facts, f, i, j);
      }
    }
  }

  lemma StillOver(facts: seq<Fact>, f: Fact, j: int, id: nat, status: ConflictStatus, c: Conflict)
    requires ConflictOver(facts, j, id, status, c)
    ensures ConflictOver(facts + [f], j, id, status, c)
  {
    var i :| FirstAgainst(facts, i, j) && c == Conflict(id, facts[j].metric, facts[j].period, facts[i].value, facts[j].value, status);
    EarlierStandsSo(facts, f, i, j);
  }

  lemma AllStillOver(facts: seq<Fact>, from: nat, ids: seq<nat>, status: ConflictStatus, conflicts: seq<Conflict>, at: seq<nat>, f: Fact, id: nat)
    requires ConflictsOf(facts, from, ids, status, conflicts, at)
    ensures var more, drawn := facts + [f], ids + [id];
      forall k :: 0 <= k < |at| ==> ConflictOver(more, at[k], drawn[at[k] - from], status, conflicts[k])
  {
    forall k | 0 <= k < |at| ensures ConflictOver(facts + [f], at[k], (ids + [id])[at[k] - from], status, conflicts[k]) {
      StillOver(facts, f, at[k], ids[at[k] - from], status, conflicts[k]);
    }
  }

  /** Recording a fact that is against an earlier one adds the conflict between them. */
  lemma OneConflictMore(facts: seq<Fact>, from: nat, ids: seq<nat>, status: ConflictStatus, conflicts: seq<Conflict>, at: seq<nat>,
                        f: Fact, id: nat, c: Conflict)
    requires ConflictsOf(facts, from, ids, status, conflicts, at) && ConflictOver(facts + [f], |facts|, id, status, c)
    ensures ConflictsOf(facts + [f], from, ids + [id], status, conflicts + [c], at + [|facts|])
  {
    var more, places := facts + [f], at + [|facts|];
    forall j | from <= j < |more| ensures j in places <==> IsAgainst(more, j) {
      StillAgainst(facts, f, j);
      assert j in places <==> j in at || j == |facts|;
    }
    AllStillOver(facts, from, ids, status, conflicts, at, f, id);
  }

  /** What recording one fact adds to the conflicts from a place on. */
  lemma RecordOpens(b: Board, n: nat, from: nat, ids: seq<nat>, at: seq<nat>, f: Fact, id: nat) returns (places: seq<nat>)
    requires n <= |b.conflicts| && ConflictsOf(b.facts, from, ids, Open, b.conflicts[n..], at)
    ensures var t := Recorded(b, f, id);
      && t.facts == b.facts + [f] && t.gaps == b.gaps && b.conflicts <= t.conflicts
      && ConflictsOf(t.facts, from, ids + [id], Open, t.conflicts[n..], places)
  {
    var t := Recorded(b, f, id);
    if ContradictedBy(b.facts, f).Some? {
      var i := ContradictedByFirst(b.facts, f);
      var c := t.conflicts[|b.conflicts|];
      assert ConflictOver(t.facts, |b.facts|, id, Open, c);
      OneConflictMore(b.facts, from, ids, Open, b.conflicts[n..], at, f, id, c);
      assert t.conflicts[n..] == b.conflicts[n..] + [c];
      places := at + [|b.facts|];
    } else {
      ContradictedByFinds(b.facts, f);
      NotAgainst(b.facts, f);
      NoneMore(b.facts, from, ids, Open, b.conflicts[n..], at, f, id);
      places := at;
    }
  }

  lemma NotAgainst(facts: seq<Fact>, f: Fact)
    requires forall g :: g in facts ==> !Disagree(g, f)
    ensures !IsAgainst(facts + [f], |facts|)
  {
    forall i ensures !FirstAgainst(facts + [f], i, |facts|) {
      if 0 <= i < |facts| {
        assert facts[i] in facts;
      }
    }
  }

  /** Merging a measurement: its facts follow the board's, in order, and each that is against an earlier one, of the
      board or its own, opens the conflict with the first such; what was there before stays as it was. */
  lemma {:induction false} MergeOpens(b: Board, evidence: seq<Fact>, ids: seq<nat>, n: nat, from: nat, drawn: seq<nat>, at: seq<nat>)
    returns (places: seq<nat>)
    requires |ids| == |evidence|
    requires n <= |b.conflicts| && ConflictsOf(b.facts, from, drawn, Open, b.conflicts[n..], at)
    ensures var t := Merged(b, evidence, ids);
      && t.facts == b.facts + evidence && t.gaps == b.gaps && b.conflicts <= t.conflicts
      && ConflictsOf(t.facts, from, drawn + ids, Open, t.conflicts[n..], places)
    decreases |evidence|
  {
    if evidence == [] {
      places := at;
      assert drawn + ids == drawn && b.facts + evidence == b.facts;
    } else {
      var last := |evidence| - 1;
      var before := MergeOpens(b, evidence[..last], ids[..last], n, from, drawn, at);
      var q := Merged(b, evidence[..last], ids[..last]);
      places := RecordOpens(q, n, from, drawn + ids[..last], before, evidence[last], ids[last]);
      assert drawn + ids == drawn + ids[..last] + [ids[last]];
      assert b.facts + evidence == b.facts + evidence[..last] + [evidence[last]];
    }
  }

  /** A merge took the board from one state to the next: the facts follow, the gaps stay, and so do the conflicts,
      which the open conflicts of the new facts follow. */
  ghost predicate Measures(b: Board, t: Board, evidence: seq<Fact>, ids: seq<nat>) {
    && t.facts == b.facts + evidence && t.gaps == b.gaps && b.conflicts <= t.conflicts
    && exists at :: ConflictsOf(t.facts, |b.facts|, ids, Open, t.conflicts[|b.conflicts|..], at)
  }

  lemma MergeMeasures(b: Board, evidence: seq<Fact>, ids: seq<nat>)
    requires |ids| == |evidence|
    ensures Measures(b, Merged(b, evidence, ids), evidence, ids)
  {
    assert b.conflicts[|b.conflicts|..] == [];
    var at := MergeOpens(b, evidence, ids, |b.conflicts|, |b.facts|, [], []);
    assert [] + ids == ids;
  }

  /** New ids keep the board's conflicts apart. */
  lemma {:induction false} MergeKeepsDistinct(b: Board, evidence: seq<Fact>, ids: seq<nat>)
    requires |evidence| == |ids| && DistinctConflicts(b.conflicts)
    requires forall i, j :: 0 <= i < j < |ids| ==> ids[i] != ids[j]
    requires forall i, c :: 0 <= i < |ids| && c in b.conflicts ==> c.id != ids[i]
    ensures DistinctConflicts(Merged(b, evidence, ids).conflicts)
    ensures forall c :: c in Merged(b, evidence, ids).conflicts ==> c in b.conflicts || c.id in ids
  {
    if evidence != [] {
      var last := |evidence| - 1;
      assert ids == ids[..last] + [ids[last]];
      MergeKeepsDistinct(b, evidence[..last], ids[..last]);
    }
  }

  lemma {:induction false} NoContradictionIff(facts: seq<Fact>)
    ensures Contradictions(facts) == 0 <==> forall i, j :: 0 <= i < j < |facts| ==> !Disagree(facts[i], facts[j])
    decreases |facts|
  {
    if facts != [] {
      var front := facts[..|facts| - 1];
      NoContradictionIff(front);
      assert forall i :: 0 <= i < |front| ==> front[i] == facts[i];
    }
  }

  /** Two facts measured one metric over one period as different values. */
  ghost predicate Disagreement(facts: seq<Fact>) {
    exists f, g | f in facts && g in facts :: f.metric == g.metric && f.period == g.period && f.value != g.value
  }

  /** A board has a conflict exactly when two of its facts disagree, in whatever order they came. */
  lemma ConflictIffDisagreement(b: Board)
    requires ConflictsMatch(b)
    ensures b.conflicts != [] <==> Disagreement(b.facts)
  {
    NoContradictionIff(b.facts);
    if Disagreement(b.facts) {
      var f, g :| f in b.facts && g in b.facts && Disagree(f, g);
      var i :| 0 <= i < |b.facts| && b.facts[i] == f;
      var j :| 0 <= j < |b.facts| && b.facts[j] == g;
      assert Disagree(f, g) && Disagree(g, f);
    } else {
      forall i, j | 0 <= i < j < |b.facts| ensures !Disagree(b.facts[i], b.facts[j]) {
        assert b.facts[i] in b.facts && b.facts[j] in b.facts;
      }
    }
  }

  // ---- Settling

  predicate Unsettled(b: Board) {
    exists c :: c in b.conflicts && c.status.Open?
  }

  function Settled(c: Conflict): Conflict {
    if c.status.Open? then c.(status := Documented) else c
  }

  /** The board with every open conflict documented. */
  function AllDocumented(b: Board): Board {
    b.(conflicts := seq(|b.conflicts|, i requires 0 <= i < |b.conflicts| => Settled(b.conflicts[i])))
  }

  ghost predicate DistinctConflicts(conflicts: seq<Conflict>) {
    forall i, j :: 0 <= i < j < |conflicts| ==> conflicts[i].id != conflicts[j].id
  }

  /** Every open conflict has become documented, and nothing else has changed. */
  ghost predicate Documents(b: Board, t: Board) {
    && t.facts == b.facts && t.gaps == b.gaps && |t.conflicts| == |b.conflicts|
    && forall i :: 0 <= i < |b.conflicts| ==>
         t.conflicts[i] == if b.conflicts[i].status == Open then b.conflicts[i].(status := Documented) else b.conflicts[i]
  }

  /** Documenting settles everything and forgets nothing. */
  lemma DocumentingSettles(b: Board)
    ensures Documents(b, AllDocumented(b))
    ensures !Unsettled(AllDocumented(b))
    ensures ConflictsMatch(b) ==> ConflictsMatch(AllDocumented(b))
    ensures !Unsettled(b) ==> AllDocumented(b) == b
  {
    var t := AllDocumented(b);
    forall c | c in t.conflicts ensures exists d :: d in b.conflicts && c == Settled(d) {
      var i :| 0 <= i < |t.conflicts| && t.conflicts[i] == c;
      assert b.conflicts[i] in b.conflicts;
    }
    if ConflictsMatch(b) {
      forall c | c in t.conflicts ensures Explained(t.facts, c) {
        var d :| d in b.conflicts && c == Settled(d);
        assert Explained(b.facts, d);
      }
    }
    if !Unsettled(b) {
      forall i | 0 <= i < |b.conflicts| ensures t.conflicts[i] == b.conflicts[i] {
        assert b.conflicts[i] in b.conflicts;
      }
      assert t.conflicts == b.conflicts;
    }
  }

  /** Documenting turns open conflicts into documented ones over the same facts. */
  lemma SettledConflicts(b: Board, from: nat, ids: seq<nat>, at: seq<nat>)
    requires ConflictsOf(b.facts, from, ids, Open, b.conflicts, at)
    ensures ConflictsOf(b.facts, from, ids, Documented, AllDocumented(b).conflicts, at)
  {
  }

  function Closed(g: Gap, closing: set<string>, norm: string -> string): Gap {
    if norm(g.description) in closing then g.(resolved := true) else g
  }

  function GapsClosed(gaps: seq<Gap>, closing: set<string>, norm: string -> string): (t: seq<Gap>)
    ensures |t| == |gaps|
    ensures forall i :: 0 <= i < |t| ==> t[i] == Closed(gaps[i], closing, norm)
  {
    seq(|gaps|, i requires 0 <= i < |gaps| => Closed(gaps[i], closing, norm))
  }

  // ---- The coordinator: memory and rows

  class BoardCoordinator {
    var board: Board
    var rows: Board

    /** What the loop reasons over is what was persisted. */
    ghost predicate Valid()
      reads this
    {
      board == rows && ConflictsMatch(board) && DistinctConflicts(board.conflicts)
    }

    constructor ()
      ensures board == EMPTY && Valid()
    {
      board, rows := EMPTY, EMPTY;
    }

    /** Merges a measurement, one fact at a time, each with its conflict in one commit. `commits` says
        which commits go through; at the first that does not, the merge is abandoned. */
    method Merge(evidence: seq<Fact>, ids: seq<nat>, commits: seq<bool>) returns (ok: bool)
      requires Valid() && |evidence| == |ids| == |commits|
      requires forall i, j :: 0 <= i < j < |ids| ==> ids[i] != ids[j]
      requires forall i, c :: 0 <= i < |ids| && c in board.conflicts ==> c.id != ids[i]
      modifies this
      ensures ok <==> forall i :: 0 <= i < |commits| ==> commits[i]
      ensures ok ==> Valid() && board == Merged(old(board), evidence, ids) && Measures(old(board), board, evidence, ids)
      ensures !ok ==> exists k ::
                        && 0 <= k < |evidence| && !commits[k] && (forall i :: 0 <= i < k ==> commits[i])
                        && rows == Merged(old(board), evidence[..k], ids[..k])
                        && board == Merged(old(board), evidence[..k + 1], ids[..k + 1])
                        && Measures(old(board), rows, evidence[..k], ids[..k])
                        && Measures(old(board), board, evidence[..k + 1], ids[..k + 1])
    {
      for k := 0 to |evidence|
        invariant board == rows == Merged(old(board), evidence[..k], ids[..k])
        invariant forall i :: 0 <= i < k ==> commits[i]
      {
        MergeOneMore(old(board), evidence, ids, k);
        var f := evidence[k];
        var incumbent := ContradictedBy(board.facts, f);
        board := board.(facts := board.facts + [f]);
        if incumbent.Some? {
          board := board.(conflicts := board.conflicts
            + [Conflict(ids[k], f.metric, f.period, incumbent.value.value, f.value, Open)]);
        }
        assert board == Recorded(rows, f, ids[k]);
        if !commits[k] {
          MergeMeasures(old(board), evidence[..k], ids[..k]);
          MergeMeasures(old(board), evidence[..k + 1], ids[..k + 1]);
          return false;
        }
        rows := Recorded(rows, f, ids[k]);
      }
      assert evidence[..|evidence|] == evidence && ids[..|ids|] == ids;
      MergeKeepsMatch(old(board), evidence, ids);
      MergeKeepsDistinct(old(board), evidence, ids);
      MergeMeasures(old(board), evidence, ids);
      return true;
    }

    /** Documents every open conflict in memory, then writes the settled ones through in one commit; when
        nothing is open there is nothing to commit. */
    method DocumentConflicts(commit: bool) returns (ok: bool)
      requires Valid()
      modifies this
      ensures ok <==> commit || !Unsettled(old(board))
      ensures board == AllDocumented(old(board)) && Documents(old(board), board)
      ensures if ok then Valid() else rows == old(rows)
    {
      DocumentingSettles(board);
      if !Unsettled(board) {
        return true;
      }
      var conflicts := board.conflicts;
      for i := 0 to |conflicts|
        invariant |board.conflicts| == |conflicts| && conflicts == old(board).conflicts
        invariant board == old(board).(conflicts := board.conflicts) && rows == old(rows)
        invariant forall j :: 0 <= j < i ==> board.conflicts[j] == Settled(conflicts[j])
        invariant forall j :: i <= j < |conflicts| ==> board.conflicts[j] == conflicts[j]
      {
        if conflicts[i].status.Open? {
          board := board.(conflicts := board.conflicts[i := conflicts[i].(status := Documented)]);
        }
      }
      assert board.conflicts == AllDocumented(old(board)).conflicts;
      if !commit {
        return false;
      }
      rows := rows.(conflicts := board.conflicts);
      return true;
    }

    /** Closes the open gaps whose description was answered, by its normalised form, in one commit; when none
        was there is nothing to commit. */
    method CloseBoard(answered: seq<string>, norm: string -> string, commit: bool) returns (ok: bool)
      requires Valid()
      modifies this
      ensures board == old(board).(gaps := GapsClosed(old(board).gaps, set d | d in answered :: norm(d), norm))
      ensures forall i :: 0 <= i < |board.gaps| ==>
                && board.gaps[i].id == old(board).gaps[i].id && board.gaps[i].description == old(board).gaps[i].description
                && (board.gaps[i].resolved <==>
                      old(board).gaps[i].resolved || exists d :: d in answered && norm(d) == norm(old(board).gaps[i].description))
      ensures ok <==> commit || board == old(board)
      ensures if ok then Valid() else rows == old(rows)
    {
      var closing := set d | d in answered :: norm(d);
      var before, gaps, written := board, board.gaps, rows;
      for i := 0 to |gaps|
        invariant |board.gaps| == |gaps| && gaps == old(board).gaps
        invariant board == old(board).(gaps := board.gaps) && written == board && rows == old(rows)
        invariant forall j :: 0 <= j < i ==> board.gaps[j] == Closed(gaps[j], closing, norm)
        invariant forall j :: i <= j < |gaps| ==> board.gaps[j] == gaps[j]
      {
        if !gaps[i].resolved && norm(gaps[i].description) in closing {
          board := board.(gaps := board.gaps[i := gaps[i].(resolved := true)]);
          written := written.(gaps := written.gaps[i := gaps[i].(resolved := true)]);
        }
      }
      assert board.gaps == GapsClosed(old(board).gaps, closing, norm);
      ok := commit || board == before;
      if ok {
        rows := written;
      }
    }

    /** Opens a gap for each follow-up, in memory and in its row, in one commit. */
    method OpenGaps(gaps: seq<Gap>, commit: bool) returns (ok: bool)
      requires Valid()
      modifies this
      ensures board == old(board).(gaps := old(board).gaps + gaps)
      ensures ok <==> commit
      ensures if ok then Valid() else rows == old(rows)
    {
      var written := rows;
      for i := 0 to |gaps|
        invariant board == written == old(board).(gaps := old(board).gaps + gaps[..i]) && rows == old(rows)
      {
        board := board.(gaps := board.gaps + [gaps[i]]);
        written := written.(gaps := written.gaps + [gaps[i]]);
        assert gaps[..i + 1] == gaps[..i] + [gaps[i]];
      }
      assert gaps[..|gaps|] == gaps;
      if commit {
        rows := written;
      }
      return commit;
    }
  }
}
