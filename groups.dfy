/** The group stage views of the tournament page: the active groups, the
    teams of each group, the finished group matches, the general table, the
    per-group tables (intra-group plus interzonal matches, then only the
    group's own teams) and the per-cup tables. */
module Groups {
  import opened Common
  import opened Domain
  import opened Sorting
  import opened Standings

  /** The label a team is listed under: trimmed, then upper-cased. */
  function Label(t: Team): string {
    Upper(Trim(t.grupo))
  }

  /** `groupOf(teamId)`: upper-cased, then trimmed; `""` for no id, an
      unknown team or a team without a group. */
  function GroupOf(equipos: seq<Team>, teamId: Id): (g: string)
    ensures teamId == "" || FindTeam(equipos, teamId).None? ==> g == ""
    ensures teamId != "" && FindTeam(equipos, teamId).Some? ==> g == Trim(Upper(FindTeam(equipos, teamId).value.grupo))
  {
    if teamId == "" then ""
    else match FindTeam(equipos, teamId)
      case None => ""
      case Some(t) => Trim(Upper(t.grupo))
  }

  function Labels(equipos: seq<Team>): (r: seq<string>)
    ensures |r| == |equipos| && forall k :: 0 <= k < |equipos| ==> r[k] == Label(equipos[k])
  {
    seq(|equipos|, k requires 0 <= k < |equipos| => Label(equipos[k]))
  }

  /** `gruposActivos`: the distinct non-empty labels, sorted. */
  function GruposActivos(equipos: seq<Team>): seq<string> {
    SortBy(Dedup(Filter(Labels(equipos), (g: string) => g != "")), StrLess)
  }

  lemma StrLessStrict()
    ensures StrictOrder(StrLess)
  {
    forall a: string ensures !StrLess(a, a) { StrLessIrreflexive(a); }
    forall a: string, b: string, c: string | StrLess(a, b) && StrLess(b, c) ensures StrLess(a, c) {
      StrLessTransitive(a, b, c);
    }
  }

  /** The active groups are exactly the labels some team carries, each once,
      in strictly increasing order. */
  lemma GruposActivosSpec(equipos: seq<Team>, g: string)
    ensures g in GruposActivos(equipos) <==> g != "" && exists k :: 0 <= k < |equipos| && Label(equipos[k]) == g
    ensures forall i, j :: 0 <= i < j < |GruposActivos(equipos)| ==>
      StrLess(GruposActivos(equipos)[i], GruposActivos(equipos)[j])
  {
    var labels := Filter(Labels(equipos), (g: string) => g != "");
    var d := Dedup(labels);
    var r := GruposActivos(equipos);
    SortByMembers(d, StrLess, g);
    FilterMembers(Labels(equipos), (g: string) => g != "", g);
    if g in d {
      var i :| 0 <= i < |d| && d[i] == g;
    }
    if g in labels {
      var i :| 0 <= i < |labels| && labels[i] == g;
    }
    if g in Labels(equipos) {
      var k :| 0 <= k < |equipos| && Labels(equipos)[k] == g;
    }
    if exists k :: 0 <= k < |equipos| && Label(equipos[k]) == g {
      var k :| 0 <= k < |equipos| && Label(equipos[k]) == g;
      assert Labels(equipos)[k] == g;
    }
    StrLessStrict();
    SortBySorted(d, StrLess);
    SortByDistinct(d, StrLess);
    forall i, j | 0 <= i < j < |r| ensures StrLess(r[i], r[j]) {
      assert !StrLess(r[j], r[i]);
      StrLessTotal(r[i], r[j]);
    }
  }

  predicate NameBefore(a: Team, b: Team) {
    StrLess(a.nombre, b.nombre)
  }

  lemma NameBeforeStrict()
    ensures StrictOrder(NameBefore)
  {
    forall a: Team ensures !NameBefore(a, a) { StrLessIrreflexive(a.nombre); }
    forall a: Team, b: Team, c: Team | NameBefore(a, b) && NameBefore(b, c) ensures NameBefore(a, c) {
      StrLessTransitive(a.nombre, b.nombre, c.nombre);
    }
  }

  /** `equiposPorGrupo[g]`: the teams listed under `g`, by name. */
  function EquiposDeGrupo(equipos: seq<Team>, g: string): seq<Team> {
    SortBy(Filter(equipos, (e: Team) => Label(e) == g), NameBefore)
  }

  /** The teams of a group are exactly those listed under it, in name
      order, each as often as in the team list. */
  lemma EquiposDeGrupoSpec(equipos: seq<Team>, g: string, t: Team)
    ensures t in EquiposDeGrupo(equipos, g) <==> t in equipos && Label(t) == g
    ensures SortedBy(EquiposDeGrupo(equipos, g), NameBefore)
    ensures multiset(EquiposDeGrupo(equipos, g)) <= multiset(equipos)
  {
    var f := Filter(equipos, (e: Team) => Label(e) == g);
    FilterMembers(equipos, (e: Team) => Label(e) == g, t);
    SortByMembers(f, NameBefore, t);
    NameBeforeStrict();
    SortBySorted(f, NameBefore);
  }

  /** `dia?.seconds ?? 0` */
  function Seconds(m: Match): int {
    m.dia.GetOr(0)
  }

  predicate LaterFirst(a: Match, b: Match) {
    Seconds(a) > Seconds(b)
  }

  predicate IsResultado(m: Match) {
    m.estado == Finalizado && m.fase == Regular
  }

  /** `resultados`: the finished group-stage matches, latest first. */
  function Resultados(partidos: seq<Match>): seq<Match> {
    SortBy(Filter(partidos, IsResultado), LaterFirst)
  }

  lemma ResultadosSpec(partidos: seq<Match>, m: Match)
    ensures m in Resultados(partidos) <==> m in partidos && m.estado == Finalizado && m.fase == Regular
    ensures forall i, j :: 0 <= i < j < |Resultados(partidos)| ==>
      Seconds(Resultados(partidos)[i]) >= Seconds(Resultados(partidos)[j])
  {
    var f := Filter(partidos, IsResultado);
    FilterMembers(partidos, IsResultado, m);
    SortByMembers(f, LaterFirst, m);
    SortBySorted(f, LaterFirst);
  }

  /** `posicionesGenerales` */
  function PosicionesGenerales(equipos: seq<Team>, partidos: seq<Match>): seq<Row> {
    Table(Resultados(partidos), NamesMap(equipos))
  }

  /** `(equipos.find(...)?.grupo || "").toUpperCase()`: no trim here. */
  function RawGroup(equipos: seq<Team>, teamId: Id): string {
    match FindTeam(equipos, teamId)
    case None => ""
    case Some(t) => Upper(t.grupo)
  }

  /** The matches `posicionesPorGrupo` feeds to the table of group `g`: the
      finished matches labelled `g`, then the finished interzonal matches
      in which a team of `g` took part. */
  function GroupMatches(equipos: seq<Team>, partidos: seq<Match>, g: string): seq<Match> {
    var res := Resultados(partidos);
    Filter(res, (p: Match) => Upper(p.grupo) == g)
    + Filter(res, (p: Match) => p.interzonal && (RawGroup(equipos, p.localId) == g || RawGroup(equipos, p.visitanteId) == g))
  }

  /** A team of the list is in group `g` (by its upper-cased label). */
  predicate InGroup(equipos: seq<Team>, g: string, id: Id) {
    exists k :: 0 <= k < |equipos| && equipos[k].id == id && Upper(equipos[k].grupo) == g
  }

  /** The rows of the teams of group `g`. */
  function OfGroup(equipos: seq<Team>, g: string): Row -> bool {
    (t: Row) => InGroup(equipos, g, t.id)
  }

  /** `posicionesPorGrupo[g]` */
  function PosicionesGrupo(equipos: seq<Team>, partidos: seq<Match>, g: string): seq<Row> {
    Filter(Table(GroupMatches(equipos, partidos, g), NamesMap(equipos)), OfGroup(equipos, g))
  }

  /** Every row of a group table is a team of the group, counted over the
      group's own and interzonal matches, and the rows keep the table
      order. */
  lemma PosicionesGrupoSpec(equipos: seq<Team>, partidos: seq<Match>, g: string, t: Row)
    ensures t in PosicionesGrupo(equipos, partidos, g) ==>
      InGroup(equipos, g, t.id) && StatsOf(t) == TeamStats(GroupMatches(equipos, partidos, g), t.id)
    ensures SortedBy(PosicionesGrupo(equipos, partidos, g), RanksBefore)
  {
    var ms := GroupMatches(equipos, partidos, g);
    var keep := OfGroup(equipos, g);
    FilterMembers(Table(ms, NamesMap(equipos)), keep, t);
    if t in PosicionesGrupo(equipos, partidos, g) {
      TableRow(ms, NamesMap(equipos), t);
    }
    TableSorted(ms, NamesMap(equipos));
    FilterSorted(Table(ms, NamesMap(equipos)), keep, RanksBefore);
  }

  /** A team of the group that played a counted group or interzonal match
      has a row in the group table. */
  lemma PosicionesGrupoComplete(equipos: seq<Team>, partidos: seq<Match>, g: string, id: Id)
    requires InGroup(equipos, g, id) && Appears(GroupMatches(equipos, partidos, g), id)
    ensures id in Ids(PosicionesGrupo(equipos, partidos, g))
  {
    var ms := GroupMatches(equipos, partidos, g);
    var table := Table(ms, NamesMap(equipos));
    assert id in Ids(table) by { TableMembers(ms, NamesMap(equipos), id); }
    GroupRowKept(equipos, g, table, id);
  }

  /** Filtering to the group keeps the row of a team of the group. */
  lemma GroupRowKept(equipos: seq<Team>, g: string, rows: seq<Row>, id: Id)
    requires InGroup(equipos, g, id) && id in Ids(rows)
    ensures id in Ids(Filter(rows, OfGroup(equipos, g)))
  {
    var j :| 0 <= j < |rows| && Ids(rows)[j] == id;
    IdInFilter(rows, OfGroup(equipos, g), j);
  }

  /** A kept row's team is among the ids of the filtered rows. */
  lemma IdInFilter(rows: seq<Row>, keep: Row -> bool, j: nat)
    requires j < |rows| && keep(rows[j])
    ensures rows[j].id in Ids(Filter(rows, keep))
  {
    var f := Filter(rows, keep);
    FilterMembers(rows, keep, rows[j]);
    var k :| 0 <= k < |f| && f[k] == rows[j];
    assert Ids(f)[k] == rows[j].id;
  }

  predicate IsCupResult(cup: Phase, p: Match) {
    p.fase == cup && p.estado == Finalizado && p.HasScores()
  }

  /** The finished cup matches of `cup`, as a filter. */
  function CupResult(cup: Phase): Match -> bool {
    (p: Match) => IsCupResult(cup, p)
  }

  /** `posicionesCopas[cup]`: the table of the finished cup matches. */
  function PosicionesCopa(equipos: seq<Team>, partidos: seq<Match>, cup: Phase): seq<Row>
    requires cup.IsCopa()
  {
    Table(Filter(FaseMatches(partidos), CupResult(cup)), NamesMap(equipos))
  }

  /** A cup table has a row exactly for the teams that played a finished
      match of that cup, and counts only those matches. */
  lemma PosicionesCopaSpec(equipos: seq<Team>, partidos: seq<Match>, cup: Phase, id: Id)
    requires cup.IsCopa()
    ensures id in Ids(PosicionesCopa(equipos, partidos, cup)) <==>
      exists m :: m in partidos && IsCupResult(cup, m) && m.Involves(id)
  {
    var ms := Filter(FaseMatches(partidos), CupResult(cup));
    TableMembers(ms, NamesMap(equipos), id);
    CupMatchesAppear(partidos, cup, id);
  }

  lemma CupMatchesAppear(partidos: seq<Match>, cup: Phase, id: Id)
    requires cup.IsCopa()
    ensures Appears(Filter(FaseMatches(partidos), CupResult(cup)), id) <==>
      exists m :: m in partidos && IsCupResult(cup, m) && m.Involves(id)
  {
    var ms := Filter(FaseMatches(partidos), CupResult(cup));
    if Appears(ms, id) {
      var k :| 0 <= k < |ms| && ms[k].HasScores() && ms[k].Involves(id);
      CupMatchFrom(partidos, cup, k);
    }
    if exists m :: m in partidos && IsCupResult(cup, m) && m.Involves(id) {
      var m :| m in partidos && IsCupResult(cup, m) && m.Involves(id);
      CupMatchKept(partidos, cup, m, id);
    }
  }

  /** A kept match is a finished match of the cup. */
  lemma CupMatchFrom(partidos: seq<Match>, cup: Phase, k: nat)
    requires cup.IsCopa()
    requires k < |Filter(FaseMatches(partidos), CupResult(cup))|
    ensures var m := Filter(FaseMatches(partidos), CupResult(cup))[k];
      m in partidos && IsCupResult(cup, m)
  {
    var fm := FaseMatches(partidos);
    FilterMembers(fm, CupResult(cup), Filter(fm, CupResult(cup))[k]);
  }

  /** A finished match of the cup is kept, so its teams appear. */
  lemma CupMatchKept(partidos: seq<Match>, cup: Phase, m: Match, id: Id)
    requires cup.IsCopa()
    requires m in partidos && IsCupResult(cup, m) && m.Involves(id)
    ensures Appears(Filter(FaseMatches(partidos), CupResult(cup)), id)
  {
    var fm := FaseMatches(partidos);
    var ms := Filter(fm, CupResult(cup));
    assert m in fm;
    FilterMembers(fm, CupResult(cup), m);
    var k :| 0 <= k < |ms| && ms[k] == m;
    assert ms[k].HasScores() && ms[k].Involves(id);
  }
}
