/** `buildTable`: folds finished matches into one row per team and ranks the
    rows by points, then point difference, then points for, then name. */
module Standings {
  import opened Common
  import opened Domain
  import Sorting

  datatype Row = Row(id: Id, nombre: string, pj: int, pg: int, pp: int, pf: int, pc: int, dif: int, pts: int)

  /** The dictionary `table` together with the order its keys were inserted
      in, which is the order `Object.values` gives them back. */
  datatype Acc = Acc(rows: map<Id, Row>, order: seq<Id>)

  /** The keys are the ids of the insertion order, and every row carries its
      own key. */
  ghost predicate Keyed(acc: Acc) {
    && (forall id :: id in acc.rows <==> id in acc.order)
    && (forall id :: id in acc.rows ==> acc.rows[id].id == id)
  }

  /** Besides, the insertion order has no repetitions. */
  ghost predicate WellFormed(acc: Acc) {
    Keyed(acc) && Distinct(acc.order)
  }

  function NewRow(id: Id, names: map<Id, string>): Row {
    Row(id, DisplayName(names, id), 0, 0, 0, 0, 0, 0, 0)
  }

  /** `ensure(id)`: the row of `id`, created with zeros on first use. */
  function Ensure(acc: Acc, id: Id, names: map<Id, string>): (r: Acc)
    ensures r.rows.Keys == acc.rows.Keys + {id}
  {
    if id in acc.rows then acc
    else Acc(acc.rows[id := NewRow(id, names)], acc.order + [id])
  }

  /** `t.pj++; t.pf += own; t.pc += opp` */
  function Played(acc: Acc, id: Id, own: int, opp: int): (r: Acc)
    requires id in acc.rows
    ensures r.order == acc.order && r.rows.Keys == acc.rows.Keys
  {
    var t := acc.rows[id];
    acc.(rows := acc.rows[id := t.(pj := t.pj + 1, pf := t.pf + own, pc := t.pc + opp)])
  }

  function Won(acc: Acc, id: Id): (r: Acc)
    requires id in acc.rows
    ensures r.order == acc.order && r.rows.Keys == acc.rows.Keys
  {
    var t := acc.rows[id];
    acc.(rows := acc.rows[id := t.(pg := t.pg + 1)])
  }

  function Lost(acc: Acc, id: Id): (r: Acc)
    requires id in acc.rows
    ensures r.order == acc.order && r.rows.Keys == acc.rows.Keys
  {
    var t := acc.rows[id];
    acc.(rows := acc.rows[id := t.(pp := t.pp + 1)])
  }

  /** The updates of one counted match once both rows exist. */
  function Score(a1: Acc, L: Id, V: Id, sl: int, sv: int): (r: Acc)
    requires L in a1.rows && V in a1.rows
    ensures r.order == a1.order && r.rows.Keys == a1.rows.Keys
  {
    var a2 := Played(Played(a1, L, sl, sv), V, sv, sl);
    if sl == sv then a2
    else if sl > sv then Lost(Won(a2, L), V)
    else Lost(Won(a2, V), L)
  }

  /** One iteration of the loop over the matches. */
  function Step(acc: Acc, p: Match, names: map<Id, string>): Acc {
    if !p.HasScores() then acc
    else
      var L, V := p.localId, p.visitanteId;
      Score(Ensure(Ensure(acc, L, names), V, names), L, V, p.scoreLocal.value, p.scoreVisitante.value)
  }

  lemma EnsureWellFormed(acc: Acc, id: Id, names: map<Id, string>)
    requires WellFormed(acc)
    ensures WellFormed(Ensure(acc, id, names))
  {
  }

  lemma StepWellFormed(acc: Acc, p: Match, names: map<Id, string>)
    requires WellFormed(acc)
    ensures WellFormed(Step(acc, p, names))
  {
    if p.HasScores() {
      var L, V := p.localId, p.visitanteId;
      var a0 := Ensure(acc, L, names);
      EnsureWellFormed(acc, L, names);
      EnsureWellFormed(a0, V, names);
      ScoreKeyed(Ensure(a0, V, names), L, V, p.scoreLocal.value, p.scoreVisitante.value);
    }
  }

  /** Replacing a row by one with the same id keeps the table keyed. */
  lemma SetKeyed(acc: Acc, x: Id, t: Row)
    requires Keyed(acc) && x in acc.rows && t.id == x
    ensures Keyed(acc.(rows := acc.rows[x := t]))
  {
  }

  lemma ScoreKeyed(a1: Acc, L: Id, V: Id, sl: int, sv: int)
    requires Keyed(a1) && L in a1.rows && V in a1.rows
    ensures Keyed(Score(a1, L, V, sl, sv))
  {
    var b1 := Played(a1, L, sl, sv);
    SetKeyed(a1, L, b1.rows[L]);
    var b2 := Played(b1, V, sv, sl);
    SetKeyed(b1, V, b2.rows[V]);
    if sl != sv {
      var W, P := if sl > sv then L else V, if sl > sv then V else L;
      var c1 := Won(b2, W);
      SetKeyed(b2, W, c1.rows[W]);
      SetKeyed(c1, P, Lost(c1, P).rows[P]);
    }
  }

  /** The table after the loop has seen the matches of `ms`, in order. */
  function Tally(ms: seq<Match>, names: map<Id, string>): Acc {
    if |ms| == 0 then Acc(map[], [])
    else Step(Tally(ms[..|ms| - 1], names), ms[|ms| - 1], names)
  }

  lemma {:induction false} TallyWellFormed(ms: seq<Match>, names: map<Id, string>)
    ensures WellFormed(Tally(ms, names))
  {
    if |ms| > 0 {
      TallyWellFormed(ms[..|ms| - 1], names);
      StepWellFormed(Tally(ms[..|ms| - 1], names), ms[|ms| - 1], names);
    }
  }

  /** The closing loop: `dif = pf - pc` and `pts = pg * 2 + pp * 1`. */
  function Finalize(t: Row): Row {
    t.(dif := t.pf - t.pc, pts := t.pg * 2 + t.pp)
  }

  function RowsOf(acc: Acc): (rs: seq<Row>)
    requires WellFormed(acc)
    ensures |rs| == |acc.order|
  {
    seq(|acc.order|, k requires 0 <= k < |acc.order| => Finalize(acc.rows[acc.order[k]]))
  }

  /** The comparator of the final sort, as "a ranks strictly before b". */
  predicate RanksBefore(a: Row, b: Row) {
    || a.pts > b.pts
    || (a.pts == b.pts && a.dif > b.dif)
    || (a.pts == b.pts && a.dif == b.dif && a.pf > b.pf)
    || (a.pts == b.pts && a.dif == b.dif && a.pf == b.pf && StrLess(a.nombre, b.nombre))
  }

  /** `buildTable(partidosFinalizados, equiposMap)` as a value. */
  function Table(ms: seq<Match>, names: map<Id, string>): seq<Row> {
    TallyWellFormed(ms, names);
    Sorting.SortBy(RowsOf(Tally(ms, names)), RanksBefore)
  }

  function Ids(rows: seq<Row>): (ids: seq<Id>)
    ensures |ids| == |rows|
    ensures forall k :: 0 <= k < |rows| ==> ids[k] == rows[k].id
  {
    seq(|rows|, k requires 0 <= k < |rows| => rows[k].id)
  }

  /** The imperative `buildTable`: the loop over the matches mutates the
      dictionary, the second loop fills in `dif` and `pts`, then the rows are
      sorted. */
  method BuildTable(partidosFinalizados: seq<Match>, names: map<Id, string>) returns (rows: seq<Row>)
    ensures rows == Table(partidosFinalizados, names)
  {
    var ms := partidosFinalizados;
    var table: map<Id, Row> := map[];
    var order: seq<Id> := [];
    var i := 0;
    while i < |ms|
      invariant 0 <= i <= |ms|
      invariant Acc(table, order) == Tally(ms[..i], names)
    {
      var p := ms[i];
      assert ms[..i + 1][..i] == ms[..i];
      if p.scoreLocal.Some? && p.scoreVisitante.Some? {
        var L, V := p.localId, p.visitanteId;
        var sl, sv := p.scoreLocal.value, p.scoreVisitante.value;
        table, order := EnsureRow(table, order, L, names);
        table, order := EnsureRow(table, order, V, names);
        table := CountScore(table, order, L, V, sl, sv);
      }
      i := i + 1;
    }
    assert ms[..|ms|] == ms;
    TallyWellFormed(ms, names);
    table := FinalizeRows(table, order);
    rows := Sorting.SortBy(seq(|order|, k requires 0 <= k < |order| => table[order[k]]), RanksBefore);
  }

  /** `ensure(id)` */
  method EnsureRow(table: map<Id, Row>, order: seq<Id>, id: Id, names: map<Id, string>)
    returns (table': map<Id, Row>, order': seq<Id>)
    ensures Acc(table', order') == Ensure(Acc(table, order), id, names)
  {
    table', order' := table, order;
    if id !in table' {
      table' := table'[id := NewRow(id, names)];
      order' := order' + [id];
    }
  }

  /** The updates of one counted match, in the order the loop body makes
      them; `tL` and `tV` are the same row when a team meets itself. */
  method CountScore(table: map<Id, Row>, order: seq<Id>, L: Id, V: Id, sl: int, sv: int)
    returns (table': map<Id, Row>)
    requires L in table && V in table
    ensures Acc(table', order) == Score(Acc(table, order), L, V, sl, sv)
  {
    table' := table;
    var tL := table'[L];
    table' := table'[L := tL.(pj := tL.pj + 1, pf := tL.pf + sl, pc := tL.pc + sv)];
    var tV := table'[V];
    table' := table'[V := tV.(pj := tV.pj + 1, pf := tV.pf + sv, pc := tV.pc + sl)];
    ghost var b2 := Acc(table', order);
    assert b2 == Played(Played(Acc(table, order), L, sl, sv), V, sv, sl);
    if sl != sv {
      if sl > sv {
        var w := table'[L];
        table' := table'[L := w.(pg := w.pg + 1)];
        var l := table'[V];
        table' := table'[V := l.(pp := l.pp + 1)];
        assert Acc(table', order) == Lost(Won(b2, L), V);
      } else {
        var w := table'[V];
        table' := table'[V := w.(pg := w.pg + 1)];
        var l := table'[L];
        table' := table'[L := l.(pp := l.pp + 1)];
        assert Acc(table', order) == Lost(Won(b2, V), L);
      }
    }
  }

  /** The closing loop over the keys. */
  method FinalizeRows(table: map<Id, Row>, order: seq<Id>) returns (table': map<Id, Row>)
    requires WellFormed(Acc(table, order))
    ensures table'.Keys == table.Keys
    ensures seq(|order|, k requires 0 <= k < |order| => table'[order[k]]) == RowsOf(Acc(table, order))
  {
    table' := table;
    var j := 0;
    while j < |order|
      invariant 0 <= j <= |order|
      invariant table'.Keys == table.Keys
      invariant forall k :: 0 <= k < j ==> table'[order[k]] == Finalize(table[order[k]])
      invariant forall k :: j <= k < |order| ==> table'[order[k]] == table[order[k]]
    {
      var id := order[j];
      var t := table'[id];
      table' := table'[id := t.(dif := t.pf - t.pc, pts := t.pg * 2 + t.pp * 1)];
      j := j + 1;
    }
  }

  // ---------------------------------------------------------------------
  // An independent per-team reading of the fold

  /** What one team has accumulated: played, won, lost, for, against. */
  datatype Stats = Stats(pj: int, pg: int, pp: int, pf: int, pc: int)

  function Plus(a: Stats, b: Stats): Stats {
    Stats(a.pj + b.pj, a.pg + b.pg, a.pp + b.pp, a.pf + b.pf, a.pc + b.pc)
  }

  /** What the match `m` gives team `id` on one side: one game, its own and
      the opponent's score, a win when strictly higher, a loss when lower. */
  function Side(isThis: bool, own: int, opp: int): Stats {
    if !isThis then Stats(0, 0, 0, 0, 0)
    else Stats(1, if own > opp then 1 else 0, if own < opp then 1 else 0, own, opp)
  }

  function Contribution(m: Match, id: Id): Stats
    requires m.HasScores()
  {
    var sl, sv := m.scoreLocal.value, m.scoreVisitante.value;
    Plus(Side(m.localId == id, sl, sv), Side(m.visitanteId == id, sv, sl))
  }

  /** The sum of the contributions of the counted matches of `ms` to `id`. */
  function TeamStats(ms: seq<Match>, id: Id): Stats {
    if |ms| == 0 then Stats(0, 0, 0, 0, 0)
    else
      var before := TeamStats(ms[..|ms| - 1], id);
      var m := ms[|ms| - 1];
      if m.HasScores() then Plus(before, Contribution(m, id)) else before
  }

  function StatsOf(t: Row): Stats {
    Stats(t.pj, t.pg, t.pp, t.pf, t.pc)
  }

  /** `id` played in a match of `ms` with two finite scores. */
  predicate Appears(ms: seq<Match>, id: Id) {
    exists k :: 0 <= k < |ms| && ms[k].HasScores() && ms[k].Involves(id)
  }

  lemma {:induction false} StepStats(acc: Acc, p: Match, names: map<Id, string>, id: Id)
    ensures var r := Step(acc, p, names);
      && (id in r.rows <==> id in acc.rows || (p.HasScores() && p.Involves(id)))
      && (id in r.rows && id in acc.rows ==> r.rows[id].nombre == acc.rows[id].nombre)
      && (id in r.rows && id !in acc.rows ==> r.rows[id].nombre == DisplayName(names, id))
      && (id in r.rows ==>
            StatsOf(r.rows[id]) ==
              var before := if id in acc.rows then StatsOf(acc.rows[id]) else Stats(0, 0, 0, 0, 0);
              if p.HasScores() then Plus(before, Contribution(p, id)) else before)
  {
    if p.HasScores() {
      var L, V := p.localId, p.visitanteId;
      var sl, sv := p.scoreLocal.value, p.scoreVisitante.value;
      var a0 := Ensure(acc, L, names);
      var a1 := Ensure(a0, V, names);
      EnsureAt(acc, L, names, id);
      EnsureAt(a0, V, names, id);
      if id in a1.rows {
        ScoreAt(a1, L, V, sl, sv, id);
      }
    }
  }

  lemma ScoreAt(a1: Acc, L: Id, V: Id, sl: int, sv: int, id: Id)
    requires L in a1.rows && V in a1.rows && id in a1.rows
    ensures Score(a1, L, V, sl, sv).rows[id].nombre == a1.rows[id].nombre
    ensures StatsOf(Score(a1, L, V, sl, sv).rows[id])
      == Plus(StatsOf(a1.rows[id]), Plus(Side(L == id, sl, sv), Side(V == id, sv, sl)))
  {
    var b2 := Played(Played(a1, L, sl, sv), V, sv, sl);
    BothPlayedAt(a1, L, V, sl, sv, id);
    var s0 := StatsOf(a1.rows[id]);
    var s2 := StatsOf(b2.rows[id]);
    var z := Stats(0, 0, 0, 0, 0);
    var c := Plus(Side(L == id, sl, sv), Side(V == id, sv, sl));
    if L == id && V == id {
      assert s2 == Stats(s0.pj + 2, s0.pg, s0.pp, s0.pf + sl + sv, s0.pc + sv + sl);
    } else if L == id {
      assert s2 == Stats(s0.pj + 1, s0.pg, s0.pp, s0.pf + sl, s0.pc + sv);
      assert c == Side(true, sl, sv);
    } else if V == id {
      assert s2 == Stats(s0.pj + 1, s0.pg, s0.pp, s0.pf + sv, s0.pc + sl);
      assert c == Side(true, sv, sl);
    } else {
      assert c == z;
      assert s2 == s0;
    }
    if sl > sv {
      assert Score(a1, L, V, sl, sv) == Lost(Won(b2, L), V);
      DecidedAt(b2, L, V, id);
    } else if sl < sv {
      assert Score(a1, L, V, sl, sv) == Lost(Won(b2, V), L);
      DecidedAt(b2, V, L, id);
    } else {
      assert Score(a1, L, V, sl, sv) == b2;
    }
  }

  lemma BothPlayedAt(a1: Acc, L: Id, V: Id, sl: int, sv: int, id: Id)
    requires L in a1.rows && V in a1.rows && id in a1.rows
    ensures Played(Played(a1, L, sl, sv), V, sv, sl).rows[id].nombre == a1.rows[id].nombre
    ensures StatsOf(Played(Played(a1, L, sl, sv), V, sv, sl).rows[id])
      == Plus(StatsOf(a1.rows[id]), Plus(
           if L == id then Stats(1, 0, 0, sl, sv) else Stats(0, 0, 0, 0, 0),
           if V == id then Stats(1, 0, 0, sv, sl) else Stats(0, 0, 0, 0, 0)))
  {
    var b1 := Played(a1, L, sl, sv);
    PlayedAt(a1, L, sl, sv, id);
    PlayedAt(b1, V, sv, sl, id);
    var s0 := StatsOf(a1.rows[id]);
    var s1 := StatsOf(b1.rows[id]);
    if L == id {
      assert s1 == Stats(s0.pj + 1, s0.pg, s0.pp, s0.pf + sl, s0.pc + sv);
    } else {
      assert s1 == s0;
    }
  }

  lemma DecidedAt(b2: Acc, W: Id, P: Id, id: Id)
    requires W in b2.rows && P in b2.rows && id in b2.rows
    ensures Lost(Won(b2, W), P).rows[id].nombre == b2.rows[id].nombre
    ensures StatsOf(Lost(Won(b2, W), P).rows[id])
      == Plus(StatsOf(b2.rows[id]), Stats(0, if W == id then 1 else 0, if P == id then 1 else 0, 0, 0))
  {
    WonAt(b2, W, id);
    LostAt(Won(b2, W), P, id);
    var s0 := StatsOf(b2.rows[id]);
    var s1 := StatsOf(Won(b2, W).rows[id]);
    if W == id {
      assert s1 == Stats(s0.pj, s0.pg + 1, s0.pp, s0.pf, s0.pc);
    } else {
      assert s1 == s0;
    }
  }

  lemma EnsureAt(acc: Acc, x: Id, names: map<Id, string>, id: Id)
    ensures id in Ensure(acc, x, names).rows <==> id in acc.rows || id == x
    ensures id in acc.rows ==> Ensure(acc, x, names).rows[id] == acc.rows[id]
    ensures id !in acc.rows && id == x ==> Ensure(acc, x, names).rows[id] == NewRow(id, names)
  {
  }

  lemma PlayedAt(acc: Acc, x: Id, own: int, opp: int, id: Id)
    requires x in acc.rows && id in acc.rows
    ensures Played(acc, x, own, opp).rows[id].nombre == acc.rows[id].nombre
    ensures StatsOf(Played(acc, x, own, opp).rows[id])
      == Plus(StatsOf(acc.rows[id]), if id == x then Stats(1, 0, 0, own, opp) else Stats(0, 0, 0, 0, 0))
  {
  }

  lemma WonAt(acc: Acc, x: Id, id: Id)
    requires x in acc.rows && id in acc.rows
    ensures Won(acc, x).rows[id].nombre == acc.rows[id].nombre
    ensures StatsOf(Won(acc, x).rows[id])
      == Plus(StatsOf(acc.rows[id]), if id == x then Stats(0, 1, 0, 0, 0) else Stats(0, 0, 0, 0, 0))
  {
  }

  lemma LostAt(acc: Acc, x: Id, id: Id)
    requires x in acc.rows && id in acc.rows
    ensures Lost(acc, x).rows[id].nombre == acc.rows[id].nombre
    ensures StatsOf(Lost(acc, x).rows[id])
      == Plus(StatsOf(acc.rows[id]), if id == x then Stats(0, 0, 1, 0, 0) else Stats(0, 0, 0, 0, 0))
  {
  }

  /** Every row of the fold holds exactly the per-team sums, and a team has a
      row exactly when it played a counted match. */
  lemma {:induction false} TallyStats(ms: seq<Match>, names: map<Id, string>, id: Id)
    ensures id in Tally(ms, names).rows <==> Appears(ms, id)
    ensures id in Tally(ms, names).rows ==> StatsOf(Tally(ms, names).rows[id]) == TeamStats(ms, id)
    ensures id in Tally(ms, names).rows ==> Tally(ms, names).rows[id].nombre == DisplayName(names, id)
    ensures id !in Tally(ms, names).rows ==> TeamStats(ms, id) == Stats(0, 0, 0, 0, 0)
  {
    if |ms| > 0 {
      var pre := ms[..|ms| - 1];
      var m := ms[|ms| - 1];
      TallyStats(pre, names, id);
      StepStats(Tally(pre, names), m, names, id);
      if Appears(ms, id) {
        var k :| 0 <= k < |ms| && ms[k].HasScores() && ms[k].Involves(id);
        if k < |ms| - 1 { assert pre[k] == ms[k]; }
      }
      if Appears(pre, id) {
        var k :| 0 <= k < |pre| && pre[k].HasScores() && pre[k].Involves(id);
        assert ms[k] == pre[k];
      }
    }
  }

  // ---------------------------------------------------------------------
  // Properties of the ranked table

  lemma RanksBeforeStrict()
    ensures Sorting.StrictOrder(RanksBefore)
  {
    forall a: Row ensures !RanksBefore(a, a) { StrLessIrreflexive(a.nombre); }
    forall a: Row, b: Row, c: Row | RanksBefore(a, b) && RanksBefore(b, c)
      ensures RanksBefore(a, c)
    {
      if StrLess(a.nombre, b.nombre) && StrLess(b.nombre, c.nombre) {
        StrLessTransitive(a.nombre, b.nombre, c.nombre);
      }
    }
  }

  /** The tie-break is total: two rows that differ in points, difference,
      points for or name are ranked one way or the other. */
  lemma RanksBeforeTotal(a: Row, b: Row)
    requires (a.pts, a.dif, a.pf, a.nombre) != (b.pts, b.dif, b.pf, b.nombre)
    ensures RanksBefore(a, b) || RanksBefore(b, a)
  {
    if a.pts == b.pts && a.dif == b.dif && a.pf == b.pf {
      StrLessTotal(a.nombre, b.nombre);
    }
  }

  /** The table is ordered by points desc, then difference desc, then points
      for desc, then name asc. */
  lemma TableSorted(ms: seq<Match>, names: map<Id, string>)
    ensures Sorting.SortedBy(Table(ms, names), RanksBefore)
  {
    RanksBeforeStrict();
    TallyWellFormed(ms, names);
    Sorting.SortBySorted(RowsOf(Tally(ms, names)), RanksBefore);
  }

  /** Each row of the table: its counts are the per-team sums over the
      counted matches, `dif = pf - pc`, `pts = 2 pg + pp`, and its name comes
      from the names map. */
  lemma TableRow(ms: seq<Match>, names: map<Id, string>, t: Row)
    requires t in Table(ms, names)
    ensures StatsOf(t) == TeamStats(ms, t.id)
    ensures t.dif == t.pf - t.pc && t.pts == 2 * t.pg + t.pp
    ensures t.nombre == DisplayName(names, t.id)
    ensures Appears(ms, t.id)
  {
    var acc := Tally(ms, names);
    TallyWellFormed(ms, names);
    var rs := RowsOf(acc);
    Sorting.SortByMembers(rs, RanksBefore, t);
    var k :| 0 <= k < |rs| && rs[k] == t;
    TallyStats(ms, names, acc.order[k]);
  }

  /** A team is in the table exactly when it played a counted match, and
      then exactly once. */
  lemma TableMembers(ms: seq<Match>, names: map<Id, string>, id: Id)
    ensures Appears(ms, id) <==> id in Ids(Table(ms, names))
    ensures Distinct(Ids(Table(ms, names)))
  {
    var acc := Tally(ms, names);
    TallyWellFormed(ms, names);
    var rs := RowsOf(acc);
    TallyStats(ms, names, id);
    RowsOfIds(acc);
    RowIdsDistinct(rs, Table(ms, names));
    RowIdsMembers(rs, Table(ms, names), id);
  }

  /** The rows come out in insertion order, one per key. */
  lemma RowsOfIds(acc: Acc)
    requires WellFormed(acc)
    ensures Ids(RowsOf(acc)) == acc.order
  {
  }

  /** A permutation of rows has the same ids. */
  lemma RowIdsMembers(rs: seq<Row>, table: seq<Row>, id: Id)
    requires multiset(table) == multiset(rs)
    ensures id in Ids(table) <==> id in Ids(rs)
  {
    if id in Ids(table) {
      var j :| 0 <= j < |table| && table[j].id == id;
      assert table[j] in multiset(rs);
      var k :| 0 <= k < |rs| && rs[k] == table[j];
      assert Ids(rs)[k] == id;
    }
    if id in Ids(rs) {
      var k :| 0 <= k < |rs| && rs[k].id == id;
      assert rs[k] in multiset(table);
      var j :| 0 <= j < |table| && table[j] == rs[k];
      assert Ids(table)[j] == id;
    }
  }

  /** A permutation of rows with distinct ids has distinct ids. */
  lemma RowIdsDistinct(rs: seq<Row>, table: seq<Row>)
    requires Distinct(Ids(rs))
    requires multiset(table) == multiset(rs)
    ensures Distinct(Ids(table))
  {
    forall i, j | 0 <= i < j < |table| ensures table[i].id != table[j].id {
      if table[i].id == table[j].id {
        assert table[i] in multiset(rs) && table[j] in multiset(rs);
        var a :| 0 <= a < |rs| && rs[a] == table[i];
        var b :| 0 <= b < |rs| && rs[b] == table[j];
        assert a == b;
        assert table[i] == table[j];
        Sorting.MultisetAtLeastTwo(table, i, j);
        assert multiset(rs)[rs[a]] >= 2;
        Sorting.DistinctMultiplicity(rs, rs[a]);
      }
    }
  }
}
