/** The cups of the final phase: the recommended rosters, the automatic
    assignment, the manual roster editor (opening it, auto-filling it,
    toggling a team, the quota inputs and the checks of saving it) and the
    round-robin mini-fixtures of a cup or a group. */
module Cups {
  import opened Common
  import opened Domain
  import opened Standings
  import opened Groups
  import Bracket

  datatype Cup = Oro | Plata | Bronce {
    /** The `fase` of the cup's matches (`copa-oro`, ...). */
    function Fase(): (f: Phase)
      ensures f.IsCopa()
    {
      match this
      case Oro => CopaOro
      case Plata => CopaPlata
      case Bronce => CopaBronce
    }

    /** The table position a cup is recommended from. */
    function Position(): nat {
      match this
      case Oro => 0
      case Plata => 1
      case Bronce => 2
    }
  }

  /** Three rosters: the edited `copasSel`, or a recommendation. */
  datatype Selection = Selection(oro: seq<Id>, plata: seq<Id>, bronce: seq<Id>) {
    function Of(c: Cup): seq<Id> {
      match c
      case Oro => oro
      case Plata => plata
      case Bronce => bronce
    }
    /** `[...oro, ...plata, ...bronce]` */
    function Picks(): seq<Id> {
      oro + plata + bronce
    }
  }

  /** `s` and `t` share no element. */
  predicate Disjoint<T(==)>(s: seq<T>, t: seq<T>) {
    forall x :: x in s ==> x !in t
  }

  /** No team is twice in a roster nor in two rosters. */
  predicate Exclusive(sel: Selection) {
    Distinct(sel.Picks())
  }

  // ---------------------------------------------------------------------
  // Sequence facts

  lemma DistinctAppend<T>(a: seq<T>, b: seq<T>)
    ensures Distinct(a + b) <==> Distinct(a) && Distinct(b) && Disjoint(a, b)
  {
    var ab := a + b;
    if Distinct(a) && Distinct(b) && Disjoint(a, b) {
      forall i, j | 0 <= i < j < |ab| ensures ab[i] != ab[j] {
        if i < |a| && j >= |a| {
          assert ab[i] in a && ab[j] == b[j - |a|];
        } else if i >= |a| {
          assert ab[i] == b[i - |a|] && ab[j] == b[j - |a|];
        }
      }
    }
    if Distinct(ab) {
      forall i, j | 0 <= i < j < |b| ensures b[i] != b[j] {
        assert ab[|a| + i] == b[i] && ab[|a| + j] == b[j];
      }
      forall x | x in a ensures x !in b {
        var i :| 0 <= i < |a| && a[i] == x;
        forall j | 0 <= j < |b| ensures b[j] != x {
          assert ab[i] == a[i] && ab[|a| + j] == b[j];
        }
      }
      forall i, j | 0 <= i < j < |a| ensures a[i] != a[j] {
        assert ab[i] == a[i] && ab[j] == a[j];
      }
    }
  }

  /** The three rosters are exclusive exactly when each has no repetition
      and no two share a team. */
  lemma ExclusiveParts(sel: Selection)
    ensures Exclusive(sel) <==>
      && Distinct(sel.oro) && Distinct(sel.plata) && Distinct(sel.bronce)
      && Disjoint(sel.oro, sel.plata) && Disjoint(sel.oro, sel.bronce) && Disjoint(sel.plata, sel.bronce)
  {
    DistinctAppend(sel.oro, sel.plata);
    DistinctAppend(sel.oro + sel.plata, sel.bronce);
    assert sel.Picks() == (sel.oro + sel.plata) + sel.bronce;
  }

  /** `new Set(s).size` */
  function SetSize(s: seq<Id>): nat {
    |set x | x in s|
  }

  /** The set of a list is as large as the list exactly when the list has
      no repetition. */
  lemma {:induction false} SetSizeDistinct(s: seq<Id>)
    ensures SetSize(s) <= |s|
    ensures SetSize(s) == |s| <==> Distinct(s)
  {
    if s != [] {
      var p := s[..|s| - 1];
      var y := s[|s| - 1];
      SetSizeDistinct(p);
      assert s == p + [y];
      assert (set x | x in s) == (set x | x in p) + {y};
      DistinctAppend(p, [y]);
      if y in p {
        assert (set x | x in s) == (set x | x in p);
      } else {
        assert y !in (set x | x in p);
      }
    }
  }

  /** A prefix of a list without repetitions has none either. */
  lemma DistinctPrefix<T>(s: seq<T>, n: nat)
    requires Distinct(s)
    ensures Distinct(Slice(s, 0, n))
  {
    if n < |s| { assert Slice(s, 0, n) == s[..n]; }
  }

  lemma PrefixMembers<T>(s: seq<T>, n: nat, x: T)
    ensures x in Slice(s, 0, n) ==> x in s
  {
    if n < |s| && x in s[..n] {
      var i :| 0 <= i < n && s[..n][i] == x;
      assert s[i] == x;
    }
  }

  /** Consecutive slices put back together are the prefix they cut. */
  lemma SlicesJoin<T>(s: seq<T>, a: nat, b: nat, c: nat)
    ensures Slice(s, 0, a) + Slice(s, a, a + b) + Slice(s, a + b, a + b + c) == Slice(s, 0, a + b + c)
  {
    var n := |s|;
    if a >= n {
    } else if a + b >= n {
      assert s[..a] + s[a..] == s[..n];
    } else if a + b + c >= n {
      assert s[..a] + s[a..a + b] + s[a + b..] == s[..n];
    } else {
      assert s[..a] + s[a..a + b] + s[a + b..a + b + c] == s[..a + b + c];
    }
  }

  // ---------------------------------------------------------------------
  // The recommendation

  /** The ids at position `k` of the tables long enough, in table order:
      what `if (tabla[k]) list.push(tabla[k].id)` gathers over the groups. */
  function Column(tables: seq<seq<Row>>, k: nat): (r: seq<Id>)
    ensures |r| <= |tables|
  {
    if tables == [] then []
    else
      var rest := Column(tables[..|tables| - 1], k);
      var t := tables[|tables| - 1];
      if k < |t| then rest + [t[k].id] else rest
  }

  /** A column holds exactly the ids found at its position in some table. */
  lemma {:induction false} ColumnMembers(tables: seq<seq<Row>>, k: nat, x: Id)
    ensures x in Column(tables, k) <==> exists i :: 0 <= i < |tables| && k < |tables[i]| && tables[i][k].id == x
  {
    if tables != [] {
      var init := tables[..|tables| - 1];
      ColumnMembers(init, k, x);
      assert forall i :: 0 <= i < |init| ==> init[i] == tables[i];
    }
  }

  /** No id is in two places of the tables. */
  predicate SeparateRows(tables: seq<seq<Row>>) {
    forall i, j, a, b ::
      (0 <= i < |tables| && 0 <= j < |tables| && 0 <= a < |tables[i]| && 0 <= b < |tables[j]| &&
       tables[i][a].id == tables[j][b].id) ==> i == j && a == b
  }

  lemma {:induction false} ColumnDistinct(tables: seq<seq<Row>>, k: nat)
    requires SeparateRows(tables)
    ensures Distinct(Column(tables, k))
  {
    if tables != [] {
      var n := |tables| - 1;
      var init := tables[..n];
      assert forall i :: 0 <= i < n ==> init[i] == tables[i];
      ColumnDistinct(init, k);
      if k < |tables[n]| {
        var y := tables[n][k].id;
        assert y !in Column(init, k) by {
          ColumnMembers(init, k, y);
        }
        DistinctAppend(Column(init, k), [y]);
      }
    }
  }

  lemma ColumnsDisjoint(tables: seq<seq<Row>>, k: nat, l: nat)
    requires SeparateRows(tables) && k != l
    ensures Disjoint(Column(tables, k), Column(tables, l))
  {
    forall x | x in Column(tables, k) ensures x !in Column(tables, l) {
      ColumnMembers(tables, k, x);
      ColumnMembers(tables, l, x);
    }
  }

  /** The loop over `gruposActivos` of `recomendacionCopas` (and of
      `autoRellenarCopasDesdeGrupos`): the first, second and third of each
      group table. */
  method GroupPicks(tables: seq<seq<Row>>) returns (sel: Selection)
    ensures sel == Selection(Column(tables, 0), Column(tables, 1), Column(tables, 2))
  {
    var oro: seq<Id> := [];
    var plata: seq<Id> := [];
    var bronce: seq<Id> := [];
    var i := 0;
    while i < |tables|
      invariant 0 <= i <= |tables|
      invariant oro == Column(tables[..i], 0)
      invariant plata == Column(tables[..i], 1)
      invariant bronce == Column(tables[..i], 2)
    {
      var t := tables[i];
      if 0 < |t| { oro := oro + [t[0].id]; }
      if 1 < |t| { plata := plata + [t[1].id]; }
      if 2 < |t| { bronce := bronce + [t[2].id]; }
      assert tables[..i + 1][..i] == tables[..i];
      i := i + 1;
    }
    assert tables[..i] == tables;
    sel := Selection(oro, plata, bronce);
  }

  /** `posicionesPorGrupo[g]` for every active group, in group order. */
  function GroupTables(equipos: seq<Team>, partidos: seq<Match>): (r: seq<seq<Row>>)
    ensures |r| == |GruposActivos(equipos)|
    ensures forall i :: 0 <= i < |r| ==> r[i] == PosicionesGrupo(equipos, partidos, GruposActivos(equipos)[i])
  {
    Map(GruposActivos(equipos), (g: string) => PosicionesGrupo(equipos, partidos, g))
  }

  /** `ids[k] ? [ids[k]] : []` */
  function Leader(ids: seq<Id>, k: nat): seq<Id> {
    if k < |ids| && ids[k] != "" then [ids[k]] else []
  }

  /** What `recomendacionCopas` recommends from the general-table ids and
      the group tables: with fewer than two groups the first, the second,
      and the third and fourth of the general table; otherwise the first,
      second and third of every group. */
  function Recommend(grouped: bool, ids: seq<Id>, tables: seq<seq<Row>>): Selection {
    if !grouped then Selection(Leader(ids, 0), Leader(ids, 1), Slice(ids, 2, 4))
    else Selection(Column(tables, 0), Column(tables, 1), Column(tables, 2))
  }

  /** The ids in the general table, in rank order. */
  function GeneralIds(equipos: seq<Team>, partidos: seq<Match>): seq<Id> {
    Ids(PosicionesGenerales(equipos, partidos))
  }

  /** `recomendacionCopas` over the snapshot. */
  function Recomendacion(equipos: seq<Team>, partidos: seq<Match>): Selection {
    Recommend(|GruposActivos(equipos)| >= 2, GeneralIds(equipos, partidos), GroupTables(equipos, partidos))
  }

  /** `recomendacionCopas`, over the views it reads: whether there are at
      least two active groups, the general-table ids and the group tables. */
  method RecomendacionCopas(grouped: bool, ids: seq<Id>, tables: seq<seq<Row>>) returns (sel: Selection)
    ensures sel == Recommend(grouped, ids, tables)
  {
    if !grouped {
      sel := Selection(Leader(ids, 0), Leader(ids, 1), Slice(ids, 2, 4));
    } else {
      sel := GroupPicks(tables);
    }
  }

  /** Team `x` is at position `k` of the table of group `g`. */
  predicate Leads(equipos: seq<Team>, partidos: seq<Match>, g: string, k: nat, x: Id) {
    var t := PosicionesGrupo(equipos, partidos, g);
    k < |t| && t[k].id == x
  }

  lemma ColumnLeads(equipos: seq<Team>, partidos: seq<Match>, k: nat, x: Id)
    ensures var gs := GruposActivos(equipos);
      x in Column(GroupTables(equipos, partidos), k) <==> exists i :: 0 <= i < |gs| && Leads(equipos, partidos, gs[i], k, x)
  {
    var gs := GruposActivos(equipos);
    var tables := GroupTables(equipos, partidos);
    ColumnMembers(tables, k, x);
    if x in Column(tables, k) {
      var i :| 0 <= i < |tables| && k < |tables[i]| && tables[i][k].id == x;
      assert Leads(equipos, partidos, gs[i], k, x);
    }
    if exists i :: 0 <= i < |gs| && Leads(equipos, partidos, gs[i], k, x) {
      var i :| 0 <= i < |gs| && Leads(equipos, partidos, gs[i], k, x);
      assert tables[i] == PosicionesGrupo(equipos, partidos, gs[i]);
    }
  }

  /** With groups, the gold roster is exactly the group leaders, silver the
      runners-up and bronze the thirds, at most one per group. */
  lemma RecomendacionPerGroup(equipos: seq<Team>, partidos: seq<Match>, c: Cup, x: Id)
    requires |GruposActivos(equipos)| >= 2
    ensures var r := Recomendacion(equipos, partidos).Of(c);
      var gs := GruposActivos(equipos);
      && (x in r <==> exists i :: 0 <= i < |gs| && Leads(equipos, partidos, gs[i], c.Position(), x))
      && |r| <= |gs|
  {
    var tables := GroupTables(equipos, partidos);
    assert Recomendacion(equipos, partidos).Of(c) == Column(tables, c.Position());
    ColumnLeads(equipos, partidos, c.Position(), x);
  }

  /** Without groups the recommendation is taken from the top four of the
      ranking, in rank order. */
  lemma RecommendGeneral(ids: seq<Id>, tables: seq<seq<Row>>)
    ensures var sel := Recommend(false, ids, tables);
      && |sel.oro| <= 1 && |sel.plata| <= 1 && |sel.bronce| <= 2
      && (forall x :: x in sel.oro ==> 0 < |ids| && x == ids[0])
      && (forall x :: x in sel.plata ==> 1 < |ids| && x == ids[1])
      && (forall k :: 0 <= k < |sel.bronce| ==> 2 + k < |ids| && sel.bronce[k] == ids[2 + k])
  {
  }

  /** A ranking without repetitions and group tables that share no team
      give exclusive rosters. */
  lemma RecommendExclusive(grouped: bool, ids: seq<Id>, tables: seq<seq<Row>>)
    requires grouped ==> SeparateRows(tables)
    requires !grouped ==> Distinct(ids)
    ensures Exclusive(Recommend(grouped, ids, tables))
  {
    var sel := Recommend(grouped, ids, tables);
    if !grouped {
      RecommendGeneral(ids, tables);
      assert Disjoint(sel.oro, sel.plata);
      assert Disjoint(sel.oro, sel.bronce) by {
        forall x | x in sel.oro ensures x !in sel.bronce {
          forall k | 0 <= k < |sel.bronce| ensures sel.bronce[k] != x {
            assert ids[0] != ids[2 + k];
          }
        }
      }
      assert Disjoint(sel.plata, sel.bronce) by {
        forall x | x in sel.plata ensures x !in sel.bronce {
          forall k | 0 <= k < |sel.bronce| ensures sel.bronce[k] != x {
            assert ids[1] != ids[2 + k];
          }
        }
      }
      assert Distinct(sel.bronce) by {
        forall i, j | 0 <= i < j < |sel.bronce| ensures sel.bronce[i] != sel.bronce[j] {
          assert ids[2 + i] != ids[2 + j];
        }
      }
    } else {
      ColumnDistinct(tables, 0);
      ColumnDistinct(tables, 1);
      ColumnDistinct(tables, 2);
      ColumnsDisjoint(tables, 0, 1);
      ColumnsDisjoint(tables, 0, 2);
      ColumnsDisjoint(tables, 1, 2);
    }
    ExclusiveParts(sel);
  }

  /** Two rows with the same team. */
  predicate SameId(a: Row, b: Row) {
    a.id == b.id
  }

  lemma IdsDistinct(rs: seq<Row>)
    ensures Distinct(Ids(rs)) <==> Sorting.SortedBy(rs, SameId)
  {
  }

  /** The rows of a group table have distinct teams. */
  lemma GroupTableDistinct(equipos: seq<Team>, partidos: seq<Match>, g: string)
    ensures Distinct(Ids(PosicionesGrupo(equipos, partidos, g)))
  {
    var table := Table(GroupMatches(equipos, partidos, g), NamesMap(equipos));
    TableMembers(GroupMatches(equipos, partidos, g), NamesMap(equipos), "");
    IdsDistinct(table);
    Sorting.FilterSorted(table, OfGroup(equipos, g), SameId);
    IdsDistinct(PosicionesGrupo(equipos, partidos, g));
  }

  /** With unique team ids, the group tables never share a team. */
  lemma GroupTablesSeparate(equipos: seq<Team>, partidos: seq<Match>)
    requires UniqueTeamIds(equipos)
    ensures SeparateRows(GroupTables(equipos, partidos))
  {
    var gs := GruposActivos(equipos);
    var tables: seq<seq<Row>> := GroupTables(equipos, partidos);
    forall i: int, j: int, a: int, b: int |
      0 <= i < |tables| && 0 <= j < |tables| && 0 <= a < |tables[i]| && 0 <= b < |tables[j]| &&
      tables[i][a].id == tables[j][b].id
      ensures i == j && a == b
    {
      SameTeamSameTable(equipos, partidos, i, j, a, b);
    }
  }

  lemma SameTeamSameTable(equipos: seq<Team>, partidos: seq<Match>, i: nat, j: nat, a: nat, b: nat)
    requires UniqueTeamIds(equipos)
    requires var tables := GroupTables(equipos, partidos);
      i < |tables| && j < |tables| && a < |tables[i]| && b < |tables[j]| && tables[i][a].id == tables[j][b].id
    ensures i == j && a == b
  {
    var gs := GruposActivos(equipos);
    var ti := PosicionesGrupo(equipos, partidos, gs[i]);
    var tj := PosicionesGrupo(equipos, partidos, gs[j]);
    PosicionesGrupoSpec(equipos, partidos, gs[i], ti[a]);
    PosicionesGrupoSpec(equipos, partidos, gs[j], tj[b]);
    SameTeamSameGroup(equipos, gs[i], gs[j], ti[a].id);
    if i != j {
      GruposActivosSpec(equipos, "");
      if i < j { StrLessIrreflexive(gs[i]); } else { StrLessIrreflexive(gs[j]); }
    }
    GroupTableDistinct(equipos, partidos, gs[i]);
    assert Ids(ti)[a] == Ids(ti)[b];
  }

  /** With unique team ids a team is in one group only. */
  lemma SameTeamSameGroup(equipos: seq<Team>, g: string, h: string, x: Id)
    requires UniqueTeamIds(equipos) && InGroup(equipos, g, x) && InGroup(equipos, h, x)
    ensures g == h
  {
    var ki :| 0 <= ki < |equipos| && equipos[ki].id == x && Upper(equipos[ki].grupo) == g;
    var kj :| 0 <= kj < |equipos| && equipos[kj].id == x && Upper(equipos[kj].grupo) == h;
    assert ki == kj;
  }

  /** The general table lists each team once. */
  lemma GeneralIdsDistinct(equipos: seq<Team>, partidos: seq<Match>)
    ensures Distinct(GeneralIds(equipos, partidos))
  {
    TableMembers(Resultados(partidos), NamesMap(equipos), "");
  }

  /** With unique team ids, the recommendation never puts a team in two
      cups nor twice in one. */
  lemma RecomendacionExclusive(equipos: seq<Team>, partidos: seq<Match>)
    requires UniqueTeamIds(equipos)
    ensures Exclusive(Recomendacion(equipos, partidos))
  {
    if |GruposActivos(equipos)| >= 2 {
      GroupTablesSeparate(equipos, partidos);
    } else {
      GeneralIdsDistinct(equipos, partidos);
    }
    RecommendExclusive(|GruposActivos(equipos)| >= 2, GeneralIds(equipos, partidos), GroupTables(equipos, partidos));
  }

  // ---------------------------------------------------------------------
  // Saving rosters

  /** Each roster fits its quota. */
  predicate WithinQuotas(sel: Selection, q: Quotas) {
    |sel.oro| <= q.oro && |sel.plata| <= q.plata && |sel.bronce| <= q.bronce
  }

  /** `guardarCopasManual`: the mode, then the quotas, then exclusivity
      (`new Set(picks).size !== picks.length`), then the `copas` document. */
  function GuardarCopasManual(modo: Modo, sel: Selection, cupos: Quotas): (o: Outcome)
    ensures o.Writes? <==> modo == Copas && WithinQuotas(sel, cupos) && Exclusive(sel)
    ensures o.Rejected? && o.why == CopasModeRequired <==> modo != Copas
    ensures o.Rejected? && o.why == QuotaExceeded <==> modo == Copas && !WithinQuotas(sel, cupos)
    ensures o.Rejected? && o.why == TeamInTwoCups <==> modo == Copas && WithinQuotas(sel, cupos) && !Exclusive(sel)
    ensures o.Writes? ==> o.writes == [SetCopas(CopasDoc(sel.oro, sel.plata, sel.bronce, cupos))]
    ensures !o.Declined?
  {
    SetSizeDistinct(sel.Picks());
    if modo != Copas then Rejected(CopasModeRequired)
    else if |sel.oro| > cupos.oro || |sel.plata| > cupos.plata || |sel.bronce| > cupos.bronce then
      Rejected(QuotaExceeded)
    else if SetSize(sel.Picks()) != |sel.Picks()| then Rejected(TeamInTwoCups)
    else Writes([SetCopas(CopasDoc(sel.oro, sel.plata, sel.bronce, cupos))])
  }

  /** A saved document keeps every team in at most one cup, once. */
  lemma SavedRostersExclusive(modo: Modo, sel: Selection, cupos: Quotas)
    requires GuardarCopasManual(modo, sel, cupos).Writes?
    ensures var d := GuardarCopasManual(modo, sel, cupos).writes[0].copas;
      && Distinct(d.oro) && Distinct(d.plata) && Distinct(d.bronce)
      && Disjoint(d.oro, d.plata) && Disjoint(d.oro, d.bronce) && Disjoint(d.plata, d.bronce)
      && |d.oro| <= d.cupos.oro && |d.plata| <= d.cupos.plata && |d.bronce| <= d.cupos.bronce
  {
    ExclusiveParts(sel);
  }

  /** `Math.max(lo, n)` */
  function AtLeast(lo: nat, n: nat): (r: nat)
    ensures r >= lo && r >= n && (r == lo || r == n)
  {
    if n > lo then n else lo
  }

  /** `asignarCopasAuto`: the recommendation stored with quotas that fit
      it, gold and silver at least one. */
  function AsignarCopasAuto(modo: Modo, equipos: seq<Team>, partidos: seq<Match>): (o: Outcome)
    ensures o.Writes? <==> modo == Copas
    ensures o.Rejected? ==> o.why == CopasModeRequired
    ensures o.Writes? ==> |o.writes| == 1 && o.writes[0].SetCopas?
    ensures o.Writes? ==>
      var d := o.writes[0].copas;
      var rec := Recomendacion(equipos, partidos);
      && Selection(d.oro, d.plata, d.bronce) == rec
      && d.cupos.oro == AtLeast(1, |rec.oro|) && d.cupos.plata == AtLeast(1, |rec.plata|)
      && d.cupos.bronce == |rec.bronce|
  {
    if modo != Copas then Rejected(CopasModeRequired)
    else
      var rec := Recomendacion(equipos, partidos);
      Writes([SetCopas(CopasDoc(rec.oro, rec.plata, rec.bronce,
        Quotas(AtLeast(1, |rec.oro|), AtLeast(1, |rec.plata|), AtLeast(0, |rec.bronce|))))])
  }

  /** The automatic assignment stores what the manual editor would accept. */
  lemma AutoAssignmentAccepted(equipos: seq<Team>, partidos: seq<Match>)
    requires UniqueTeamIds(equipos)
    ensures var d := AsignarCopasAuto(Copas, equipos, partidos).writes[0].copas;
      GuardarCopasManual(Copas, Selection(d.oro, d.plata, d.bronce), d.cupos).Writes?
  {
    var rec := Recomendacion(equipos, partidos);
    RecomendacionExclusive(equipos, partidos);
    OwnQuotasAccepted(rec);
    var d := AsignarCopasAuto(Copas, equipos, partidos).writes[0].copas;
    assert Selection(d.oro, d.plata, d.bronce) == rec;
    assert d.cupos == Quotas(AtLeast(1, |rec.oro|), AtLeast(1, |rec.plata|), |rec.bronce|);
  }

  /** Rosters with no team twice, under quotas of their own sizes, are
      accepted. */
  lemma OwnQuotasAccepted(sel: Selection)
    requires Exclusive(sel)
    ensures GuardarCopasManual(Copas, sel, Quotas(AtLeast(1, |sel.oro|), AtLeast(1, |sel.plata|), |sel.bronce|)).Writes?
  {
  }

  // ---------------------------------------------------------------------
  // The roster editor

  /** The editor's state: the rosters and the quotas (`copaMax`). */
  datatype CopasForm = CopasForm(sel: Selection, cupos: Quotas)

  /** `length || fallback` */
  function OrDefault(n: nat, fallback: nat): nat {
    if n != 0 then n else fallback
  }

  /** `abrirCopasManual`: the stored document when there is one, else the
      recommendation with quotas of its own sizes (1, 1 and 2 for an empty
      roster). */
  function AbrirCopasManual(modo: Modo, stored: Option<CopasDoc>, equipos: seq<Team>, partidos: seq<Match>): (r: Option<CopasForm>)
    ensures r.None? <==> modo != Copas
    ensures r.Some? && stored.Some? ==>
      r.value == CopasForm(Selection(stored.value.oro, stored.value.plata, stored.value.bronce), stored.value.cupos)
    ensures r.Some? && stored.None? ==> r.value.sel == Recomendacion(equipos, partidos)
    ensures r.Some? && stored.None? ==>
      r.value.cupos == Quotas(OrDefault(|r.value.sel.oro|, 1), OrDefault(|r.value.sel.plata|, 1),
                              OrDefault(|r.value.sel.bronce|, 2))
  {
    if modo != Copas then None
    else match stored
      case Some(d) => Some(CopasForm(Selection(d.oro, d.plata, d.bronce), d.cupos))
      case None =>
        var rec := Recomendacion(equipos, partidos);
        Some(CopasForm(rec, Quotas(OrDefault(|rec.oro|, 1), OrDefault(|rec.plata|, 1), OrDefault(|rec.bronce|, 2))))
  }

  /** Opening the editor and saving it untouched is accepted: the fresh
      recommendation fits the quotas it is opened with, and a stored
      document was accepted when it was saved. */
  lemma OpenedEditorSaves(stored: Option<CopasDoc>, equipos: seq<Team>, partidos: seq<Match>)
    requires UniqueTeamIds(equipos)
    requires stored.Some? ==>
      GuardarCopasManual(Copas, Selection(stored.value.oro, stored.value.plata, stored.value.bronce), stored.value.cupos).Writes?
    ensures var f := AbrirCopasManual(Copas, stored, equipos, partidos).value;
      GuardarCopasManual(Copas, f.sel, f.cupos).Writes?
  {
    RecomendacionExclusive(equipos, partidos);
  }

  /** What `autoRellenarCopas` fills in: with groups, the per-group picks
      cut to the quotas; otherwise consecutive runs of the ranking. */
  function Fill(grouped: bool, top: seq<Id>, tables: seq<seq<Row>>, q: Quotas): Selection {
    if grouped then
      Selection(Slice(Column(tables, 0), 0, q.oro), Slice(Column(tables, 1), 0, q.plata), Slice(Column(tables, 2), 0, q.bronce))
    else
      Selection(Slice(top, 0, q.oro), Slice(top, q.oro, q.oro + q.plata), Slice(top, q.oro + q.plata, q.oro + q.plata + q.bronce))
  }

  /** `autoRellenarCopas` over the snapshot. */
  function AutoRelleno(equipos: seq<Team>, partidos: seq<Match>, q: Quotas): Selection {
    Fill(|GruposActivos(equipos)| >= 2, GeneralIds(equipos, partidos), GroupTables(equipos, partidos), q)
  }

  /** `autoRellenarCopas`, with `autoRellenarCopasDesdeGrupos` for the
      grouped case, over the views they read and the quotas. */
  method AutoRellenarCopas(grouped: bool, top: seq<Id>, tables: seq<seq<Row>>, q: Quotas) returns (sel: Selection)
    ensures sel == Fill(grouped, top, tables, q)
  {
    if grouped {
      var picks := GroupPicks(tables);
      sel := Selection(Slice(picks.oro, 0, q.oro), Slice(picks.plata, 0, q.plata), Slice(picks.bronce, 0, q.bronce));
    } else {
      sel := Selection(Slice(top, 0, q.oro), Slice(top, q.oro, q.oro + q.plata),
                       Slice(top, q.oro + q.plata, q.oro + q.plata + q.bronce));
    }
  }

  /** Without groups the filled rosters, read one after the other, are the
      top of the ranking as far as the quotas reach. */
  lemma FillTop(top: seq<Id>, tables: seq<seq<Row>>, q: Quotas)
    ensures Fill(false, top, tables, q).Picks() == Slice(top, 0, q.oro + q.plata + q.bronce)
  {
    SlicesJoin(top, q.oro, q.plata, q.bronce);
  }

  /** The filled rosters fit the quotas and, from a ranking without
      repetitions or group tables that share no team, are exclusive. */
  lemma FillAccepted(grouped: bool, top: seq<Id>, tables: seq<seq<Row>>, q: Quotas)
    requires grouped ==> SeparateRows(tables)
    requires !grouped ==> Distinct(top)
    ensures WithinQuotas(Fill(grouped, top, tables, q), q)
    ensures Exclusive(Fill(grouped, top, tables, q))
  {
    var sel := Fill(grouped, top, tables, q);
    if grouped {
      ColumnDistinct(tables, 0);
      ColumnDistinct(tables, 1);
      ColumnDistinct(tables, 2);
      DistinctPrefix(Column(tables, 0), q.oro);
      DistinctPrefix(Column(tables, 1), q.plata);
      DistinctPrefix(Column(tables, 2), q.bronce);
      ColumnsDisjoint(tables, 0, 1);
      ColumnsDisjoint(tables, 0, 2);
      ColumnsDisjoint(tables, 1, 2);
      forall x ensures (x in sel.oro ==> x in Column(tables, 0)) && (x in sel.plata ==> x in Column(tables, 1))
                       && (x in sel.bronce ==> x in Column(tables, 2)) {
        PrefixMembers(Column(tables, 0), q.oro, x);
        PrefixMembers(Column(tables, 1), q.plata, x);
        PrefixMembers(Column(tables, 2), q.bronce, x);
      }
      ExclusiveParts(sel);
    } else {
      FillTop(top, tables, q);
      DistinctPrefix(top, q.oro + q.plata + q.bronce);
    }
  }

  /** Without groups the auto-filled rosters are the top of the general
      table as far as the quotas reach. */
  lemma AutoRellenoTop(equipos: seq<Team>, partidos: seq<Match>, q: Quotas)
    requires |GruposActivos(equipos)| < 2
    ensures AutoRelleno(equipos, partidos, q).Picks() == Slice(GeneralIds(equipos, partidos), 0, q.oro + q.plata + q.bronce)
  {
    FillTop(GeneralIds(equipos, partidos), GroupTables(equipos, partidos), q);
  }

  /** The auto-filled rosters are always accepted by the save checks. */
  lemma AutoRellenoAccepted(equipos: seq<Team>, partidos: seq<Match>, q: Quotas)
    requires UniqueTeamIds(equipos)
    ensures GuardarCopasManual(Copas, AutoRelleno(equipos, partidos, q), q).Writes?
  {
    if |GruposActivos(equipos)| >= 2 {
      GroupTablesSeparate(equipos, partidos);
    } else {
      GeneralIdsDistinct(equipos, partidos);
    }
    FillAccepted(|GruposActivos(equipos)| >= 2, GeneralIds(equipos, partidos), GroupTables(equipos, partidos), q);
  }

  // ---------------------------------------------------------------------
  // Toggling a team

  /** `s.filter((x) => x !== t)` */
  function Remove(s: seq<Id>, t: Id): seq<Id> {
    Filter(s, (x: Id) => x != t)
  }

  lemma RemoveMembers(s: seq<Id>, t: Id, x: Id)
    ensures x in Remove(s, t) <==> x in s && x != t
  {
    FilterMembers(s, (x: Id) => x != t, x);
  }

  lemma DedupMembers(s: seq<Id>, x: Id)
    ensures x in Dedup(s) <==> x in s
  {
    if x in s {
      var i :| 0 <= i < |s| && s[i] == x;
    }
    if x in Dedup(s) {
      var i :| 0 <= i < |Dedup(s)| && Dedup(s)[i] == x;
    }
  }

  /** The rosters with roster `c` replaced. */
  function Put(sel: Selection, c: Cup, s: seq<Id>): (r: Selection)
    ensures r.Of(c) == s && forall d :: d != c ==> r.Of(d) == sel.Of(d)
  {
    match c
    case Oro => sel.(oro := s)
    case Plata => sel.(plata := s)
    case Bronce => sel.(bronce := s)
  }

  /** Team `t` taken out of every roster. */
  function WithoutTeam(sel: Selection, t: Id): Selection {
    Selection(Remove(sel.oro, t), Remove(sel.plata, t), Remove(sel.bronce, t))
  }

  lemma WithoutTeamMembers(sel: Selection, t: Id, d: Cup, x: Id)
    ensures x in WithoutTeam(sel, t).Of(d) <==> x in sel.Of(d) && x != t
  {
    RemoveMembers(sel.Of(d), t, x);
  }

  /** `toggleCopa` as written: `t` is filtered out of every roster before
      `arr.has(t)` is asked, so the delete branch never runs and `t` always
      ends up in `c`. */
  function ToggleCopaAsWritten(sel: Selection, c: Cup, t: Id): Selection {
    var next := WithoutTeam(sel, t);
    var arr := Dedup(next.Of(c));
    Put(next, c, if t in arr then Remove(arr, t) else arr + [t])
  }

  /** As written, the toggle moves `t` into `c`: it is there exactly once,
      in no other roster, and no other team changes roster. */
  lemma ToggleCopaAsWrittenMoves(sel: Selection, c: Cup, t: Id)
    ensures var r := ToggleCopaAsWritten(sel, c, t);
      && multiset(r.Of(c))[t] == 1
      && (forall d :: d != c ==> t !in r.Of(d))
      && (forall d, x :: x != t ==> (x in r.Of(d) <==> x in sel.Of(d)))
  {
    var next := WithoutTeam(sel, t);
    var arr := Dedup(next.Of(c));
    assert t !in arr by {
      WithoutTeamMembers(sel, t, c, t);
      DedupMembers(next.Of(c), t);
    }
    assert ToggleCopaAsWritten(sel, c, t) == Put(next, c, arr + [t]);
    ToggleFacts(sel, c, t, arr + [t]);
  }

  /** Roster `c` replaced by `s`, others cleaned of `t`: where `t` and the
      other teams end up. */
  lemma ToggleFacts(sel: Selection, c: Cup, t: Id, s: seq<Id>)
    requires s == Dedup(WithoutTeam(sel, t).Of(c)) || s == Dedup(WithoutTeam(sel, t).Of(c)) + [t]
    ensures var r := Put(WithoutTeam(sel, t), c, s);
      && (forall d :: d != c ==> t !in r.Of(d))
      && (forall d, x :: x != t ==> (x in r.Of(d) <==> x in sel.Of(d)))
      && (s == Dedup(WithoutTeam(sel, t).Of(c)) ==> t !in r.Of(c))
      && (s != Dedup(WithoutTeam(sel, t).Of(c)) ==> multiset(r.Of(c))[t] == 1)
  {
    var next := WithoutTeam(sel, t);
    var arr := Dedup(next.Of(c));
    var r := Put(next, c, s);
    assert t !in arr by {
      WithoutTeamMembers(sel, t, c, t);
      DedupMembers(next.Of(c), t);
    }
    if s != arr {
      assert multiset(s)[t] == multiset(arr)[t] + 1;
    }
    forall d, x ensures (d != c ==> t !in r.Of(d)) && (x != t ==> (x in r.Of(d) <==> x in sel.Of(d))) {
      ToggleFactsAt(sel, c, t, s, d, x);
    }
  }

  lemma ToggleFactsAt(sel: Selection, c: Cup, t: Id, s: seq<Id>, d: Cup, x: Id)
    requires s == Dedup(WithoutTeam(sel, t).Of(c)) || s == Dedup(WithoutTeam(sel, t).Of(c)) + [t]
    ensures var r := Put(WithoutTeam(sel, t), c, s);
      && (d != c ==> t !in r.Of(d))
      && (x != t ==> (x in r.Of(d) <==> x in sel.Of(d)))
  {
    var next := WithoutTeam(sel, t);
    WithoutTeamMembers(sel, t, d, t);
    WithoutTeamMembers(sel, t, d, x);
    if d == c {
      DedupMembers(next.Of(c), x);
    }
  }

  /** A team already in a roster cannot be taken out by clicking it: the
      checked box stays checked. */
  lemma ToggleCopaNeverUnchecks(sel: Selection, c: Cup, t: Id)
    requires t in sel.Of(c)
    ensures t in ToggleCopaAsWritten(sel, c, t).Of(c)
  {
    ToggleCopaAsWrittenMoves(sel, c, t);
  }

  /** The smallest case: gold holds only `a`; clicking `a` in gold leaves
      the rosters as they were. */
  lemma ToggleCopaStuck()
    ensures ToggleCopaAsWritten(Selection(["a"], [], []), Oro, "a") == Selection(["a"], [], [])
  {
    var sel := Selection(["a"], [], []);
    assert Remove(["a"], "a") == [] by {
      RemoveMembers(["a"], "a", "a");
    }
    assert WithoutTeam(sel, "a") == Selection([], [], []);
  }

  /** `toggleCopa` as the check box means it: clicking a team of `c` takes
      it out of `c`; clicking any other team moves it into `c`. */
  function ToggleCopa(sel: Selection, c: Cup, t: Id): Selection {
    var next := WithoutTeam(sel, t);
    var arr := Dedup(next.Of(c));
    Put(next, c, if t in sel.Of(c) then arr else arr + [t])
  }

  /** Taking a team out leaves it in no roster; putting it in leaves it in
      `c` exactly once and in no other roster; no other team changes
      roster. */
  lemma ToggleCopaSpec(sel: Selection, c: Cup, t: Id)
    ensures var r := ToggleCopa(sel, c, t);
      && (t in sel.Of(c) ==> forall d :: t !in r.Of(d))
      && (t !in sel.Of(c) ==> multiset(r.Of(c))[t] == 1 && forall d :: d != c ==> t !in r.Of(d))
      && (forall d, x :: x != t ==> (x in r.Of(d) <==> x in sel.Of(d)))
  {
    var arr := Dedup(WithoutTeam(sel, t).Of(c));
    var s := if t in sel.Of(c) then arr else arr + [t];
    assert ToggleCopa(sel, c, t) == Put(WithoutTeam(sel, t), c, s);
    ToggleFacts(sel, c, t, s);
    if t !in sel.Of(c) {
      assert s != arr by { assert s[|s| - 1] == t; assert |s| == |arr| + 1; }
    }
  }

  /** Clicking a team twice in the same roster restores where it was, when
      it was in none or in that roster. */
  lemma ToggleCopaTwice(sel: Selection, c: Cup, t: Id)
    requires forall d :: d != c ==> t !in sel.Of(d)
    ensures forall d :: t in ToggleCopa(ToggleCopa(sel, c, t), c, t).Of(d) <==> t in sel.Of(d)
  {
    ToggleCopaSpec(sel, c, t);
    ToggleCopaSpec(ToggleCopa(sel, c, t), c, t);
  }

  // ---------------------------------------------------------------------
  // The quota inputs

  /** `Math.max(0, Math.min(teams, v))` on the parsed input. */
  function ClampQuota(teams: nat, v: int): (n: nat)
    ensures n <= teams
    ensures 0 <= v <= teams ==> n == v
    ensures v < 0 ==> n == 0
    ensures v > teams ==> n == teams
  {
    var m := if v < teams then v else teams;
    if m < 0 then 0 else m
  }

  /** Clamping a clamped quota changes nothing. */
  lemma ClampQuotaIdempotent(teams: nat, v: int)
    ensures ClampQuota(teams, ClampQuota(teams, v)) == ClampQuota(teams, v)
  {
  }

  /** `setCopaMax` from the input of cup `c`: only that quota changes. */
  function SetQuota(q: Quotas, c: Cup, teams: nat, v: int): (r: Quotas)
    ensures c == Oro ==> r == q.(oro := ClampQuota(teams, v))
    ensures c == Plata ==> r == q.(plata := ClampQuota(teams, v))
    ensures c == Bronce ==> r == q.(bronce := ClampQuota(teams, v))
  {
    match c
    case Oro => q.(oro := ClampQuota(teams, v))
    case Plata => q.(plata := ClampQuota(teams, v))
    case Bronce => q.(bronce := ClampQuota(teams, v))
  }

  // ---------------------------------------------------------------------
  // Round-robin mini-fixtures

  /** A pair of the mini-fixture form, date and venue still to be filled. */
  datatype FixturePair = FixturePair(localId: Id, visitanteId: Id, fecha: string, cancha: string)

  /** Team `i` against each later team. */
  function PairsFrom(ids: seq<Id>, i: nat): (r: seq<FixturePair>)
    requires i < |ids|
    ensures |r| == |ids| - 1 - i
    ensures forall d :: 0 <= d < |r| ==> r[d] == FixturePair(ids[i], ids[i + 1 + d], "", "")
  {
    seq(|ids| - 1 - i, d requires 0 <= d < |ids| - 1 - i => FixturePair(ids[i], ids[i + 1 + d], "", ""))
  }

  /** The pairs of the first `m` teams with their later teams. */
  function PairsUpTo(ids: seq<Id>, m: nat): seq<FixturePair>
    requires m <= |ids|
  {
    if m == 0 then [] else PairsUpTo(ids, m - 1) + PairsFrom(ids, m - 1)
  }

  /** Every pair `(ids[i], ids[j])` with `i < j`, in lexicographic order. */
  function AllPairs(ids: seq<Id>): seq<FixturePair> {
    PairsUpTo(ids, |ids|)
  }

  /** Where pair `(i, j)` sits in the fixture. */
  function PairIndex(ids: seq<Id>, i: nat, j: nat): int
    requires i < |ids|
  {
    |PairsUpTo(ids, i)| + (j - i - 1)
  }

  lemma CountStep(k: int, m: int)
    ensures (m - 1) * (2 * k - m) + 2 * (k - m) == m * (2 * k - m - 1)
  {
    assert (m - 1) * (2 * k - m) == m * (2 * k - m) - (2 * k - m);
    assert m * (2 * k - m - 1) == m * (2 * k - m) - m;
  }

  /** The first `m` rows hold `m (2k - m - 1) / 2` pairs. */
  lemma {:induction false} PairsUpToCount(ids: seq<Id>, m: nat)
    requires m <= |ids|
    ensures 2 * |PairsUpTo(ids, m)| == m * (2 * |ids| - m - 1)
  {
    if m > 0 {
      PairsUpToCount(ids, m - 1);
      CountStep(|ids|, m);
    }
  }

  /** Every pair with `i < m` sits at its index. */
  lemma {:induction false} PairsUpToAt(ids: seq<Id>, m: nat)
    requires m <= |ids|
    ensures forall i, j :: 0 <= i < m && i < j < |ids| ==>
      0 <= PairIndex(ids, i, j) < |PairsUpTo(ids, m)| &&
      PairsUpTo(ids, m)[PairIndex(ids, i, j)] == FixturePair(ids[i], ids[j], "", "")
  {
    forall i, j | 0 <= i < m && i < j < |ids|
      ensures 0 <= PairIndex(ids, i, j) < |PairsUpTo(ids, m)|
      ensures PairsUpTo(ids, m)[PairIndex(ids, i, j)] == FixturePair(ids[i], ids[j], "", "")
    {
      PairAtIndex(ids, m, i, j);
    }
  }

  /** The pair `(i, j)` sits at its index of the first `m` rows. */
  lemma {:induction false} PairAtIndex(ids: seq<Id>, m: nat, i: nat, j: nat)
    requires m <= |ids| && i < m && i < j < |ids|
    ensures 0 <= PairIndex(ids, i, j) < |PairsUpTo(ids, m)|
    ensures PairsUpTo(ids, m)[PairIndex(ids, i, j)] == FixturePair(ids[i], ids[j], "", "")
  {
    var p := PairsUpTo(ids, m - 1);
    var row := PairsFrom(ids, m - 1);
    assert PairsUpTo(ids, m) == p + row;
    if i == m - 1 {
      assert PairIndex(ids, i, j) == |p| + (j - m);
      assert row[j - m] == FixturePair(ids[i], ids[j], "", "");
    } else {
      PairAtIndex(ids, m - 1, i, j);
    }
  }

  /** `f` is the pair of `ids[i]` and a later `ids[j]`, for some `i < m`. */
  predicate PairOfFirst(ids: seq<Id>, m: nat, f: FixturePair) {
    exists i, j :: 0 <= i < m && i < j < |ids| && f == FixturePair(ids[i], ids[j], "", "")
  }

  /** Every entry of the first `m` rows is a pair `(ids[i], ids[j])` with
      `i < m` and `i < j`. */
  lemma {:induction false} PairsUpToOnly(ids: seq<Id>, m: nat)
    requires m <= |ids|
    ensures forall q :: 0 <= q < |PairsUpTo(ids, m)| ==> PairOfFirst(ids, m, PairsUpTo(ids, m)[q])
  {
    if m > 0 {
      PairsUpToOnly(ids, m - 1);
      var p := PairsUpTo(ids, m - 1);
      var row := PairsFrom(ids, m - 1);
      assert PairsUpTo(ids, m) == p + row;
      forall q | 0 <= q < |PairsUpTo(ids, m)| ensures PairOfFirst(ids, m, PairsUpTo(ids, m)[q]) {
        if q < |p| {
          assert PairOfFirst(ids, m - 1, p[q]);
          var i, j :| 0 <= i < m - 1 && i < j < |ids| && p[q] == FixturePair(ids[i], ids[j], "", "");
          assert PairsUpTo(ids, m)[q] == FixturePair(ids[i], ids[j], "", "");
        } else {
          var d := q - |p|;
          assert PairsUpTo(ids, m)[q] == FixturePair(ids[m - 1], ids[m + d], "", "");
        }
      }
    }
  }

  lemma {:induction false} PairsUpToGrows(ids: seq<Id>, a: nat, b: nat)
    requires a <= b <= |ids|
    ensures |PairsUpTo(ids, a)| <= |PairsUpTo(ids, b)|
  {
    if a < b { PairsUpToGrows(ids, a, b - 1); }
  }

  /** The fixture of `k` teams has `k (k - 1) / 2` pairs, each `(ids[i],
      ids[j])` with `i < j` once, in lexicographic order of `(i, j)`. */
  lemma AllPairsSpec(ids: seq<Id>)
    ensures 2 * |AllPairs(ids)| == |ids| * (|ids| - 1)
    ensures forall i, j :: 0 <= i < j < |ids| ==>
      0 <= PairIndex(ids, i, j) < |AllPairs(ids)| &&
      AllPairs(ids)[PairIndex(ids, i, j)] == FixturePair(ids[i], ids[j], "", "")
    ensures forall q :: 0 <= q < |AllPairs(ids)| ==> PairOfFirst(ids, |ids|, AllPairs(ids)[q])
  {
    PairsUpToCount(ids, |ids|);
    PairsUpToAt(ids, |ids|);
    PairsUpToOnly(ids, |ids|);
  }

  /** Pairs come in lexicographic order of their indices. */
  lemma PairIndexOrdered(ids: seq<Id>, i: nat, j: nat, i': nat, j': nat)
    requires i < j < |ids| && i' < j' < |ids|
    requires i < i' || (i == i' && j < j')
    ensures PairIndex(ids, i, j) < PairIndex(ids, i', j')
  {
    if i < i' {
      assert |PairsUpTo(ids, i + 1)| == |PairsUpTo(ids, i)| + (|ids| - 1 - i);
      PairsUpToGrows(ids, i + 1, i');
    }
  }

  /** The nested loop of `abrirModalFixtureCopa` and
      `abrirModalFixtureGrupo`. */
  method RoundRobin(ids: seq<Id>) returns (pairs: seq<FixturePair>)
    ensures pairs == AllPairs(ids)
  {
    pairs := [];
    var i := 0;
    while i < |ids|
      invariant 0 <= i <= |ids|
      invariant pairs == PairsUpTo(ids, i)
    {
      var j := i + 1;
      while j < |ids|
        invariant i + 1 <= j <= |ids|
        invariant pairs == PairsUpTo(ids, i) + PairsFrom(ids, i)[..j - i - 1]
      {
        pairs := pairs + [FixturePair(ids[i], ids[j], "", "")];
        assert PairsFrom(ids, i)[..j - i] == PairsFrom(ids, i)[..j - i - 1] + [PairsFrom(ids, i)[j - i - 1]];
        j := j + 1;
      }
      assert PairsFrom(ids, i)[..j - i - 1] == PairsFrom(ids, i);
      i := i + 1;
    }
  }

  /** The mini-fixture form, or the alert that keeps it closed. */
  datatype FixtureModal = NoModal(why: Alert) | Modal(pairs: seq<FixturePair>)

  /** `abrirModalFixtureCopa(clave, ids)` */
  method AbrirModalFixtureCopa(modo: Modo, ids: seq<Id>) returns (r: FixtureModal)
    ensures r.NoModal? <==> modo != Copas || |ids| < 2
    ensures r.NoModal? ==> r.why == (if modo != Copas then CopasModeRequired else CupNeedsTwoTeams)
    ensures r.Modal? ==> r.pairs == AllPairs(ids)
  {
    if modo != Copas {
      r := NoModal(CopasModeRequired);
    } else if |ids| < 2 {
      r := NoModal(CupNeedsTwoTeams);
    } else {
      var pairs := RoundRobin(ids);
      r := Modal(pairs);
    }
  }

  function TeamIds(ts: seq<Team>): (ids: seq<Id>)
    ensures |ids| == |ts| && forall k :: 0 <= k < |ts| ==> ids[k] == ts[k].id
  {
    seq(|ts|, k requires 0 <= k < |ts| => ts[k].id)
  }

  /** `abrirModalFixtureGrupo(g)`: the teams of the group, by name. */
  method AbrirModalFixtureGrupo(equipos: seq<Team>, g: string) returns (r: FixtureModal)
    ensures r.NoModal? <==> |EquiposDeGrupo(equipos, g)| < 2
    ensures r.NoModal? ==> r.why == GroupNeedsTwoTeams
    ensures r.Modal? ==> r.pairs == AllPairs(TeamIds(EquiposDeGrupo(equipos, g)))
  {
    var ids := TeamIds(EquiposDeGrupo(equipos, g));
    if |ids| < 2 {
      r := NoModal(GroupNeedsTwoTeams);
    } else {
      var pairs := RoundRobin(ids);
      r := Modal(pairs);
    }
  }

  /** The pair has a date and a venue. */
  predicate Filled(p: FixturePair) {
    p.fecha != "" && Trim(p.cancha) != ""
  }

  /** The first missing date or venue, pair by pair. */
  function FixtureProblem(pairs: seq<FixturePair>): (r: Option<Alert>)
    ensures r.None? <==> forall k :: 0 <= k < |pairs| ==> Filled(pairs[k])
    ensures r.Some? ==> r.value == CompleteDates || r.value == CompleteVenues
  {
    if |pairs| == 0 then None
    else if pairs[0].fecha == "" then Some(CompleteDates)
    else if Trim(pairs[0].cancha) == "" then Some(CompleteVenues)
    else
      assert forall k :: 1 <= k < |pairs| ==> pairs[k] == pairs[1..][k - 1];
      FixtureProblem(pairs[1..])
  }

  /** One new pending match of the cup per pair. */
  function FixtureCreates(pairs: seq<FixturePair>, fase: Phase): (r: seq<Write>)
    ensures |r| == |pairs|
    ensures forall k :: 0 <= k < |pairs| ==> r[k] == CreateMatch(Draft(pairs[k].localId, pairs[k].visitanteId,
      Pendiente, fase, None, pairs[k].fecha, Trim(pairs[k].cancha), "", false))
  {
    seq(|pairs|, k requires 0 <= k < |pairs| => CreateMatch(Draft(pairs[k].localId, pairs[k].visitanteId,
      Pendiente, fase, None, pairs[k].fecha, Trim(pairs[k].cancha), "", false)))
  }

  /** `guardarFixtureCopaConDetalles`: the mode, then nothing to do
      without a cup or pairs, then the dates and venues, then the cup's old
      matches deleted and one match created per pair. */
  function GuardarFixtureCopa(modo: Modo, key: Option<Cup>, pairs: seq<FixturePair>, partidos: seq<Match>): (o: Outcome)
    ensures o.Rejected? && o.why == CopasModeRequired <==> modo != Copas
    ensures o.Declined? <==> modo == Copas && (key.None? || pairs == [])
    ensures o.Writes? <==> modo == Copas && key.Some? && pairs != [] && FixtureProblem(pairs).None?
    ensures o.Writes? ==>
      o.writes == DeletesOf(Bracket.PhaseMatches(partidos, key.value.Fase())) + FixtureCreates(pairs, key.value.Fase())
  {
    if modo != Copas then Rejected(CopasModeRequired)
    else if key.None? || pairs == [] then Declined
    else if FixtureProblem(pairs).Some? then Rejected(FixtureProblem(pairs).value)
    else
      var fase := key.value.Fase();
      Writes(DeletesOf(Bracket.PhaseMatches(partidos, fase)) + FixtureCreates(pairs, fase))
  }

  /** Saving an opened cup fixture once every date and venue is filled
      replaces exactly that cup's matches with one pending match for every
      two teams of the roster. */
  lemma OpenedFixtureSaves(partidos: seq<Match>, c: Cup, ids: seq<Id>, filled: seq<FixturePair>, id: Id)
    requires |ids| >= 2
    requires |filled| == |AllPairs(ids)|
    requires forall k :: 0 <= k < |filled| ==>
      filled[k].localId == AllPairs(ids)[k].localId && filled[k].visitanteId == AllPairs(ids)[k].visitanteId
    requires forall k :: 0 <= k < |filled| ==> Filled(filled[k])
    ensures var o := GuardarFixtureCopa(Copas, Some(c), filled, partidos);
      && o.Writes?
      && 2 * |FixtureCreates(filled, c.Fase())| == |ids| * (|ids| - 1)
      && (DeleteMatch(id) in DeletesOf(Bracket.PhaseMatches(partidos, c.Fase())) <==>
          exists m :: m in partidos && m.fase == c.Fase() && m.id == id)
  {
    AllPairsSpec(ids);
    assert PairIndex(ids, 0, 1) == 0;
    Bracket.PhaseDeletes(partidos, c.Fase(), id);
  }
}
