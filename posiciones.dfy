/** `calcularPosiciones(equipos, partidos)`: a standings table with one row
    per listed team, counting only the played matches between listed teams,
    two points per win and one per loss, ranked by points, then wins, then
    fewer losses, then name. */
module Posiciones {
  import opened Common
  import opened Domain
  import opened Sorting

  datatype Equipo = Equipo(id: Id, nombre: string)

  /** A match of this table: `jugado`, the two team ids and the two scores;
      `None` is a score that is `undefined` or `NaN`, which every
      comparison with `>` or `<` rejects. A `null` or numeric-string score
      is not modelled. */
  datatype Partido = Partido(jugado: bool, equipoLocal: Id, equipoVisitante: Id,
                             puntosLocal: Option<int>, puntosVisitante: Option<int>)

  datatype Fila = Fila(equipoId: Id, nombre: string, pj: int, pg: int, pp: int, pts: int)

  /** The dictionary `tabla` and the order its keys were inserted in, which
      is the order `Object.values` gives the rows back. */
  datatype Tabla = Tabla(rows: map<Id, Fila>, order: seq<Id>)

  /** Played, won and lost. */
  datatype Stats = Stats(pj: int, pg: int, pp: int)

  const Zero := Stats(0, 0, 0)

  function Add(a: Stats, b: Stats): Stats {
    Stats(a.pj + b.pj, a.pg + b.pg, a.pp + b.pp)
  }

  lemma AddZero(a: Stats)
    ensures Add(a, Zero) == a && Add(Zero, a) == a
  {
    assert a == Stats(a.pj, a.pg, a.pp);
  }

  function StatsOf(f: Fila): Stats {
    Stats(f.pj, f.pg, f.pp)
  }

  /** `a > b` on two scores. */
  predicate Greater(a: Option<int>, b: Option<int>) {
    a.Some? && b.Some? && a.value > b.value
  }

  /** The keys are the ids of the insertion order, which has no
      repetitions, and every row carries its own key. */
  ghost predicate WellFormed(t: Tabla) {
    Aligned(t) && (forall id :: id in t.rows ==> t.rows[id].equipoId == id)
  }

  /** The keys are the ids of the insertion order, without repetitions. */
  ghost predicate Aligned(t: Tabla) {
    (forall id :: id in t.rows <==> id in t.order) && Distinct(t.order)
  }

  // ---------------------------------------------------------------------
  // The three loops as functions

  /** `tabla[e.id] = { ..., pj: 0, pg: 0, pp: 0, pts: 0 }`: a repeated id
      replaces the row and keeps its place. */
  function Seed(t: Tabla, e: Equipo): Tabla {
    Tabla(t.rows[e.id := Fila(e.id, e.nombre, 0, 0, 0, 0)],
          if e.id in t.rows then t.order else t.order + [e.id])
  }

  /** The dictionary after the loop over `equipos`. */
  function Init(equipos: seq<Equipo>): (t: Tabla)
    ensures forall id :: id in t.rows <==> id in t.order
  {
    if |equipos| == 0 then Tabla(map[], [])
    else Seed(Init(equipos[..|equipos| - 1]), equipos[|equipos| - 1])
  }

  function Bumped(f: Fila, d: Stats): Fila {
    f.(pj := f.pj + d.pj, pg := f.pg + d.pg, pp := f.pp + d.pp)
  }

  /** Adds `d` to the row of `id`. */
  function Bump(t: Tabla, id: Id, d: Stats): (r: Tabla)
    requires id in t.rows
    ensures r.order == t.order && r.rows.Keys == t.rows.Keys
  {
    t.(rows := t.rows[id := Bumped(t.rows[id], d)])
  }

  /** The loop body guard: a played match whose two teams have rows. */
  predicate Counts(t: Tabla, p: Partido) {
    p.jugado && p.equipoLocal in t.rows && p.equipoVisitante in t.rows
  }

  /** One iteration of the loop over `partidos`; when a team meets itself,
      both updates land on its one row. */
  function Count(t: Tabla, p: Partido): (r: Tabla)
    ensures r.order == t.order && r.rows.Keys == t.rows.Keys
  {
    if !Counts(t, p) then t
    else
      var L, V := p.equipoLocal, p.equipoVisitante;
      var t2 := Bump(Bump(t, L, Stats(1, 0, 0)), V, Stats(1, 0, 0));
      if Greater(p.puntosLocal, p.puntosVisitante) then
        Bump(Bump(t2, L, Stats(0, 1, 0)), V, Stats(0, 0, 1))
      else if Greater(p.puntosVisitante, p.puntosLocal) then
        Bump(Bump(t2, V, Stats(0, 1, 0)), L, Stats(0, 0, 1))
      else t2
  }

  /** The dictionary after the loop has seen the matches of `ps`, in
      order. */
  function Tally(t: Tabla, ps: seq<Partido>): (r: Tabla)
    ensures r.order == t.order && r.rows.Keys == t.rows.Keys
  {
    if |ps| == 0 then t else Count(Tally(t, ps[..|ps| - 1]), ps[|ps| - 1])
  }

  /** `r.pts = r.pg * 2 + r.pp * 1` */
  function Finalize(f: Fila): Fila {
    f.(pts := f.pg * 2 + f.pp * 1)
  }

  /** `Object.values(tabla)` after the points loop. */
  function Finals(order: seq<Id>, rows: map<Id, Fila>): (fs: seq<Fila>)
    requires forall k :: 0 <= k < |order| ==> order[k] in rows
    ensures |fs| == |order|
  {
    if |order| == 0 then [] else [Finalize(rows[order[0]])] + Finals(order[1..], rows)
  }

  lemma {:induction false} FinalsAt(order: seq<Id>, rows: map<Id, Fila>)
    requires forall k :: 0 <= k < |order| ==> order[k] in rows
    ensures forall k :: 0 <= k < |order| ==> Finals(order, rows)[k] == Finalize(rows[order[k]])
  {
    if |order| > 0 {
      FinalsAt(order[1..], rows);
      forall k | 1 <= k < |order| ensures Finals(order, rows)[k] == Finalize(rows[order[k]]) {
        assert order[k] == order[1..][k - 1];
      }
    }
  }

  /** The comparator of the final sort, as "a ranks strictly before b". */
  predicate Before(a: Fila, b: Fila) {
    || a.pts > b.pts
    || (a.pts == b.pts && a.pg > b.pg)
    || (a.pts == b.pts && a.pg == b.pg && a.pp < b.pp)
    || (a.pts == b.pts && a.pg == b.pg && a.pp == b.pp && StrLess(a.nombre, b.nombre))
  }

  /** `calcularPosiciones(equipos, partidos)` as a value. */
  function Posiciones(equipos: seq<Equipo>, partidos: seq<Partido>): seq<Fila> {
    var t := Tally(Init(equipos), partidos);
    SortBy(Finals(t.order, t.rows), Before)
  }

  // ---------------------------------------------------------------------
  // The imperative function

  method CalcularPosiciones(equipos: seq<Equipo>, partidos: seq<Partido>) returns (filas: seq<Fila>)
    ensures filas == Posiciones(equipos, partidos)
  {
    var tabla, order := SeedRows(equipos);
    InitWellFormed(equipos);
    ghost var t0 := Tabla(tabla, order);
    tabla := CountMatches(tabla, order, partidos);
    TallyWellFormed(t0, partidos);
    var done := FinalizeRows(tabla, order);
    filas := SortBy(seq(|order|, k requires 0 <= k < |order| => done[order[k]]), Before);
  }

  /** The loop over `equipos`. */
  method SeedRows(equipos: seq<Equipo>) returns (tabla: map<Id, Fila>, order: seq<Id>)
    ensures Tabla(tabla, order) == Init(equipos)
  {
    tabla, order := map[], [];
    for i := 0 to |equipos|
      invariant Tabla(tabla, order) == Init(equipos[..i])
    {
      var e := equipos[i];
      assert equipos[..i + 1][..i] == equipos[..i];
      if e.id !in tabla {
        order := order + [e.id];
      }
      tabla := tabla[e.id := Fila(e.id, e.nombre, 0, 0, 0, 0)];
    }
    assert equipos[..|equipos|] == equipos;
  }

  /** The loop over `partidos`. */
  method CountMatches(tabla: map<Id, Fila>, order: seq<Id>, partidos: seq<Partido>) returns (tabla': map<Id, Fila>)
    ensures Tabla(tabla', order) == Tally(Tabla(tabla, order), partidos)
  {
    tabla' := tabla;
    for j := 0 to |partidos|
      invariant Tabla(tabla', order) == Tally(Tabla(tabla, order), partidos[..j])
    {
      var p := partidos[j];
      assert partidos[..j + 1][..j] == partidos[..j];
      if p.jugado && p.equipoLocal in tabla' && p.equipoVisitante in tabla' {
        tabla' := CountMatch(tabla', order, p);
      }
    }
    assert partidos[..|partidos|] == partidos;
  }

  /** The body of the loop over `partidos` for a counted match. */
  method CountMatch(tabla: map<Id, Fila>, order: seq<Id>, p: Partido) returns (tabla': map<Id, Fila>)
    requires p.equipoLocal in tabla && p.equipoVisitante in tabla && p.jugado
    ensures Tabla(tabla', order) == Count(Tabla(tabla, order), p)
  {
    var L, V := p.equipoLocal, p.equipoVisitante;
    tabla' := Increment(tabla, order, L, Stats(1, 0, 0));
    tabla' := Increment(tabla', order, V, Stats(1, 0, 0));
    if p.puntosLocal.Some? && p.puntosVisitante.Some? && p.puntosLocal.value > p.puntosVisitante.value {
      tabla' := Increment(tabla', order, L, Stats(0, 1, 0));
      tabla' := Increment(tabla', order, V, Stats(0, 0, 1));
    } else if p.puntosLocal.Some? && p.puntosVisitante.Some? && p.puntosLocal.value < p.puntosVisitante.value {
      tabla' := Increment(tabla', order, V, Stats(0, 1, 0));
      tabla' := Increment(tabla', order, L, Stats(0, 0, 1));
    }
  }

  /** `l.pj++` and the like, on the row object of `id`. */
  method Increment(tabla: map<Id, Fila>, order: seq<Id>, id: Id, d: Stats) returns (tabla': map<Id, Fila>)
    requires id in tabla
    ensures Tabla(tabla', order) == Bump(Tabla(tabla, order), id, d)
  {
    var r := tabla[id];
    tabla' := tabla[id := r.(pj := r.pj + d.pj, pg := r.pg + d.pg, pp := r.pp + d.pp)];
  }

  /** The points loop over `Object.values(tabla)`. */
  method FinalizeRows(tabla: map<Id, Fila>, order: seq<Id>) returns (tabla': map<Id, Fila>)
    requires WellFormed(Tabla(tabla, order))
    ensures tabla'.Keys == tabla.Keys
    ensures seq(|order|, k requires 0 <= k < |order| => tabla'[order[k]]) == Finals(order, tabla)
  {
    FinalsAt(order, tabla);
    tabla' := tabla;
    for j := 0 to |order|
      invariant tabla'.Keys == tabla.Keys
      invariant forall k :: 0 <= k < j ==> tabla'[order[k]] == Finalize(tabla[order[k]])
      invariant forall k :: j <= k < |order| ==> tabla'[order[k]] == tabla[order[k]]
    {
      var r := tabla'[order[j]];
      tabla' := tabla'[order[j] := r.(pts := r.pg * 2 + r.pp * 1)];
    }
  }

  // ---------------------------------------------------------------------
  // Which rows there are

  /** `id` belongs to a listed team. */
  predicate Known(equipos: seq<Equipo>, id: Id) {
    |equipos| > 0 && (equipos[|equipos| - 1].id == id || Known(equipos[..|equipos| - 1], id))
  }

  lemma {:induction false} KnownIff(equipos: seq<Equipo>, id: Id)
    ensures Known(equipos, id) <==> exists k :: 0 <= k < |equipos| && equipos[k].id == id
  {
    if |equipos| > 0 {
      var front := equipos[..|equipos| - 1];
      KnownIff(front, id);
      if exists k :: 0 <= k < |front| && front[k].id == id {
        var k :| 0 <= k < |front| && front[k].id == id;
        assert equipos[k] == front[k];
      }
      if exists k :: 0 <= k < |equipos| && equipos[k].id == id {
        var k :| 0 <= k < |equipos| && equipos[k].id == id;
        if k < |front| {
          assert front[k] == equipos[k];
        }
      }
    }
  }

  /** The name of the last listed team with id `id`, whose row is the one
      that stays. */
  function LastName(equipos: seq<Equipo>, id: Id): string {
    if |equipos| == 0 then ""
    else if equipos[|equipos| - 1].id == id then equipos[|equipos| - 1].nombre
    else LastName(equipos[..|equipos| - 1], id)
  }

  /** With distinct ids, that is the team's own name. */
  lemma {:induction false} LastNameUnique(equipos: seq<Equipo>, k: nat)
    requires k < |equipos|
    requires forall i, j :: 0 <= i < j < |equipos| ==> equipos[i].id != equipos[j].id
    ensures LastName(equipos, equipos[k].id) == equipos[k].nombre
  {
    if k < |equipos| - 1 {
      var front := equipos[..|equipos| - 1];
      assert front[k] == equipos[k];
      LastNameUnique(front, k);
    }
  }

  /** The seeded dictionary is well formed and has a zero row for exactly
      the listed ids, each under the last name listed for it. */
  lemma {:induction false} InitWellFormed(equipos: seq<Equipo>)
    ensures var t := Init(equipos);
      && WellFormed(t)
      && (forall id :: id in t.rows <==> Known(equipos, id))
      && (forall id :: id in t.rows ==> StatsOf(t.rows[id]) == Zero && t.rows[id].pts == 0)
      && (forall id :: id in t.rows ==> t.rows[id].nombre == LastName(equipos, id))
  {
    if |equipos| > 0 {
      var front := equipos[..|equipos| - 1];
      var e := equipos[|equipos| - 1];
      InitWellFormed(front);
      var t0 := Init(front);
      var t := Init(equipos);
      assert t == Seed(t0, e);
      forall i, j | 0 <= i < j < |t.order| ensures t.order[i] != t.order[j] {
        if e.id !in t0.rows && j == |t.order| - 1 {
          assert t.order[i] == t0.order[i];
          assert t0.order[i] in t0.rows;
        }
      }
    }
  }

  lemma BumpWellFormed(t: Tabla, id: Id, d: Stats)
    requires WellFormed(t) && id in t.rows
    ensures WellFormed(Bump(t, id, d))
  {
  }

  lemma CountWellFormed(t: Tabla, p: Partido)
    requires WellFormed(t)
    ensures WellFormed(Count(t, p))
  {
    if Counts(t, p) {
      var L, V := p.equipoLocal, p.equipoVisitante;
      var one, win, loss := Stats(1, 0, 0), Stats(0, 1, 0), Stats(0, 0, 1);
      BumpWellFormed(t, L, one);
      var t1 := Bump(t, L, one);
      BumpWellFormed(t1, V, one);
      var t2 := Bump(t1, V, one);
      if Greater(p.puntosLocal, p.puntosVisitante) {
        assert Count(t, p) == Bump(Bump(t2, L, win), V, loss);
        BumpWellFormed(t2, L, win);
        BumpWellFormed(Bump(t2, L, win), V, loss);
      } else if Greater(p.puntosVisitante, p.puntosLocal) {
        assert Count(t, p) == Bump(Bump(t2, V, win), L, loss);
        BumpWellFormed(t2, V, win);
        BumpWellFormed(Bump(t2, V, win), L, loss);
      } else {
        assert Count(t, p) == t2;
      }
    }
  }

  /** Counting keeps the dictionary well formed and never renames a row. */
  lemma {:induction false} TallyWellFormed(t: Tabla, ps: seq<Partido>)
    requires WellFormed(t)
    ensures WellFormed(Tally(t, ps))
    ensures forall id :: id in t.rows ==> Tally(t, ps).rows[id].nombre == t.rows[id].nombre
  {
    if |ps| > 0 {
      var front, p := ps[..|ps| - 1], ps[|ps| - 1];
      TallyWellFormed(t, front);
      var tf := Tally(t, front);
      CountWellFormed(tf, p);
      forall id | id in t.rows ensures Count(tf, p).rows[id].nombre == t.rows[id].nombre {
        CountAt(tf, p, id);
      }
    }
  }

  /** The table has one row per listed id, each under the last name listed
      for that id. */
  lemma PosicionesRows(equipos: seq<Equipo>, partidos: seq<Partido>, id: Id)
    ensures var fs := Posiciones(equipos, partidos);
      && ((exists k :: 0 <= k < |fs| && fs[k].equipoId == id) <==> Known(equipos, id))
      && Distinct(Ids(fs))
      && (forall k :: 0 <= k < |fs| ==> fs[k].nombre == LastName(equipos, fs[k].equipoId))
  {
    var t := Tally(Init(equipos), partidos);
    var vals := Finals(t.order, t.rows);
    FinalsRows(equipos, partidos);
    var fs := SortBy(vals, Before);
    IdsOfPermutation(vals, fs, id);
    forall k | 0 <= k < |fs| ensures fs[k].nombre == LastName(equipos, fs[k].equipoId) {
      assert fs[k] in multiset(vals);
      var i :| 0 <= i < |vals| && vals[i] == fs[k];
    }
  }

  /** The unsorted rows: one per listed id, each under its last name. */
  lemma FinalsRows(equipos: seq<Equipo>, partidos: seq<Partido>)
    ensures var t := Tally(Init(equipos), partidos);
      var vals := Finals(t.order, t.rows);
      && Distinct(Ids(vals))
      && (forall id :: id in Ids(vals) <==> Known(equipos, id))
      && (forall i :: 0 <= i < |vals| ==> vals[i].nombre == LastName(equipos, vals[i].equipoId))
  {
    var t0 := Init(equipos);
    InitWellFormed(equipos);
    TallyWellFormed(t0, partidos);
    var t := Tally(t0, partidos);
    var vals := Finals(t.order, t.rows);
    FinalsAt(t.order, t.rows);
    assert Ids(vals) == t.order;
    forall i | 0 <= i < |vals| ensures vals[i].nombre == LastName(equipos, vals[i].equipoId) {
      assert t.order[i] in t0.rows;
    }
  }

  function Ids(fs: seq<Fila>): (ids: seq<Id>)
    ensures |ids| == |fs|
    ensures forall k :: 0 <= k < |fs| ==> ids[k] == fs[k].equipoId
  {
    seq(|fs|, k requires 0 <= k < |fs| => fs[k].equipoId)
  }

  /** A permutation of rows with distinct ids has the same ids, still
      distinct. */
  lemma IdsOfPermutation(a: seq<Fila>, b: seq<Fila>, id: Id)
    requires multiset(a) == multiset(b) && Distinct(Ids(a))
    ensures (exists k :: 0 <= k < |b| && b[k].equipoId == id) <==> id in Ids(a)
    ensures Distinct(Ids(b))
  {
    if exists k :: 0 <= k < |b| && b[k].equipoId == id {
      var k :| 0 <= k < |b| && b[k].equipoId == id;
      assert b[k] in multiset(a);
      var i :| 0 <= i < |a| && a[i] == b[k];
      assert Ids(a)[i] == id;
    }
    if id in Ids(a) {
      var i :| 0 <= i < |a| && Ids(a)[i] == id;
      assert a[i] in multiset(b);
      var k :| 0 <= k < |b| && b[k] == a[i];
    }
    forall i, j | 0 <= i < j < |b| ensures b[i].equipoId != b[j].equipoId {
      if b[i].equipoId == b[j].equipoId {
        assert b[i] in multiset(a) && b[j] in multiset(a);
        var i' :| 0 <= i' < |a| && a[i'] == b[i];
        var j' :| 0 <= j' < |a| && a[j'] == b[j];
        if b[i] == b[j] {
          MultisetAtLeastTwo(b, i, j);
          DistinctMultiplicity(a, b[i]) by {
            forall x, y | 0 <= x < y < |a| ensures a[x] != a[y] {
              assert Ids(a)[x] != Ids(a)[y];
            }
          }
        } else {
        }
      }
    }
  }

  // ---------------------------------------------------------------------
  // What each row counts

  /** A counted match: played, between two listed teams. */
  predicate Counted(equipos: seq<Equipo>, p: Partido) {
    p.jugado && Known(equipos, p.equipoLocal) && Known(equipos, p.equipoVisitante)
  }

  /** What one match gives team `x`: a game per side it played, a win per
      side that scored strictly more, a loss per side that scored strictly
      less. */
  function Contribution(p: Partido, x: Id): Stats {
    var l := if p.equipoLocal == x then 1 else 0;
    var v := if p.equipoVisitante == x then 1 else 0;
    var lw := Greater(p.puntosLocal, p.puntosVisitante);
    var vw := Greater(p.puntosVisitante, p.puntosLocal);
    Stats(l + v, (if lw then l else 0) + (if vw then v else 0), (if vw then l else 0) + (if lw then v else 0))
  }

  /** What the counted matches of `ps` give team `x`. */
  function TeamStats(equipos: seq<Equipo>, ps: seq<Partido>, x: Id): Stats {
    if |ps| == 0 then Zero
    else
      var p := ps[|ps| - 1];
      Add(TeamStats(equipos, ps[..|ps| - 1], x), if Counted(equipos, p) then Contribution(p, x) else Zero)
  }

  lemma CountAt(t: Tabla, p: Partido, x: Id)
    requires x in t.rows
    ensures StatsOf(Count(t, p).rows[x]) == Add(StatsOf(t.rows[x]), if Counts(t, p) then Contribution(p, x) else Zero)
    ensures Count(t, p).rows[x].nombre == t.rows[x].nombre
  {
    AddZero(StatsOf(t.rows[x]));
  }

  lemma {:induction false} TallyAt(equipos: seq<Equipo>, t: Tabla, ps: seq<Partido>, x: Id)
    requires forall k :: 0 <= k < |ps| ==> (Counts(t, ps[k]) <==> Counted(equipos, ps[k]))
    requires x in t.rows
    ensures StatsOf(Tally(t, ps).rows[x]) == Add(StatsOf(t.rows[x]), TeamStats(equipos, ps, x))
  {
    if |ps| == 0 {
      AddZero(StatsOf(t.rows[x]));
    } else {
      var front, p := ps[..|ps| - 1], ps[|ps| - 1];
      TallyAt(equipos, t, front, x);
      var tf := Tally(t, front);
      assert Counts(tf, p) <==> Counted(equipos, p) by {
        assert Counts(tf, p) <==> Counts(t, p);
      }
      CountAt(tf, p, x);
    }
  }

  /** Every row holds what the counted matches give its team, and its
      points are two per win plus one per loss; a team with no counted
      match keeps its zeros. */
  lemma PosicionesCounts(equipos: seq<Equipo>, partidos: seq<Partido>, f: Fila)
    requires f in Posiciones(equipos, partidos)
    ensures StatsOf(f) == TeamStats(equipos, partidos, f.equipoId)
    ensures f.pts == 2 * f.pg + f.pp
    ensures (forall k :: 0 <= k < |partidos| && Counted(equipos, partidos[k]) ==>
               partidos[k].equipoLocal != f.equipoId && partidos[k].equipoVisitante != f.equipoId)
      ==> f.pj == 0 && f.pg == 0 && f.pp == 0 && f.pts == 0
  {
    var t0 := Init(equipos);
    var t := Tally(t0, partidos);
    var vals := Finals(t.order, t.rows);
    assert f in multiset(vals);
    var i :| 0 <= i < |vals| && vals[i] == f;
    var x := t.order[i];
    FinalAt(equipos, partidos, i);
    TallyAt(equipos, t0, partidos, x);
    AddZero(TeamStats(equipos, partidos, x));
    if forall k :: 0 <= k < |partidos| && Counted(equipos, partidos[k]) ==>
         partidos[k].equipoLocal != x && partidos[k].equipoVisitante != x {
      QuietTeam(equipos, partidos, x);
    }
  }

  /** Row `i` of the unsorted rows is the finalised row of its id. */
  lemma FinalAt(equipos: seq<Equipo>, partidos: seq<Partido>, i: nat)
    requires var t := Tally(Init(equipos), partidos); i < |t.order|
    ensures var t0 := Init(equipos);
      var t := Tally(t0, partidos);
      var x := t.order[i];
      && x in t0.rows && x in t.rows && StatsOf(t0.rows[x]) == Zero
      && Finals(t.order, t.rows)[i] == Finalize(t.rows[x])
      && t.rows[x].equipoId == x
      && (forall k :: 0 <= k < |partidos| ==> (Counts(t0, partidos[k]) <==> Counted(equipos, partidos[k])))
  {
    var t0 := Init(equipos);
    InitWellFormed(equipos);
    TallyWellFormed(t0, partidos);
    var t := Tally(t0, partidos);
    FinalsAt(t.order, t.rows);
  }

  lemma {:induction false} QuietTeam(equipos: seq<Equipo>, ps: seq<Partido>, x: Id)
    requires forall k :: 0 <= k < |ps| && Counted(equipos, ps[k]) ==> ps[k].equipoLocal != x && ps[k].equipoVisitante != x
    ensures TeamStats(equipos, ps, x) == Zero
  {
    if |ps| > 0 {
      QuietTeam(equipos, ps[..|ps| - 1], x);
    }
  }

  /** A match that is not counted changes nothing. */
  lemma IgnoredMatch(equipos: seq<Equipo>, partidos: seq<Partido>, p: Partido)
    requires !Counted(equipos, p)
    ensures Posiciones(equipos, partidos + [p]) == Posiciones(equipos, partidos)
  {
    InitWellFormed(equipos);
    assert (partidos + [p])[..|partidos|] == partidos;
    var t := Tally(Init(equipos), partidos);
    assert !Counts(t, p);
  }

  // ---------------------------------------------------------------------
  // Column totals

  /** The column sums of played, won and lost over some rows. */
  function Total(fs: seq<Fila>): Stats {
    if |fs| == 0 then Zero else Add(StatsOf(fs[0]), Total(fs[1..]))
  }

  lemma {:induction false} TotalAppend(u: seq<Fila>, v: seq<Fila>)
    ensures Total(u + v) == Add(Total(u), Total(v))
  {
    if |u| == 0 {
      assert u + v == v;
    } else {
      assert (u + v)[1..] == u[1..] + v;
      TotalAppend(u[1..], v);
    }
  }

  lemma {:induction false} TotalInsert(x: Fila, fs: seq<Fila>)
    ensures Total(Insert(x, fs, Before)) == Add(StatsOf(x), Total(fs))
  {
    if |fs| > 0 && !Before(x, fs[0]) {
      TotalInsert(x, fs[1..]);
      assert ([fs[0]] + Insert(x, fs[1..], Before))[1..] == Insert(x, fs[1..], Before);
    } else {
      assert ([x] + fs)[1..] == fs;
    }
  }

  lemma TotalLast(fs: seq<Fila>)
    requires |fs| > 0
    ensures Total(fs) == Add(Total(fs[..|fs| - 1]), StatsOf(fs[|fs| - 1]))
  {
    var front, last := fs[..|fs| - 1], fs[|fs| - 1];
    assert front + [last] == fs;
    TotalAppend(front, [last]);
    TotalSingle(last);
  }

  lemma TotalSingle(x: Fila)
    ensures Total([x]) == StatsOf(x)
  {
    assert [x][1..] == [];
  }

  /** Sorting the rows keeps the column sums. */
  lemma {:induction false} TotalSortBy(fs: seq<Fila>)
    ensures Total(SortBy(fs, Before)) == Total(fs)
  {
    if |fs| > 0 {
      var front, last := fs[..|fs| - 1], fs[|fs| - 1];
      var sf := SortBy(front, Before);
      SortByLast(fs, Before);
      TotalSortBy(front);
      TotalInsert(last, sf);
      TotalLast(fs);
    }
  }

  /** The column sums of the rows listed in `order`. */
  function ColSum(order: seq<Id>, rows: map<Id, Fila>): Stats
    requires forall k :: 0 <= k < |order| ==> order[k] in rows
  {
    if |order| == 0 then Zero else Add(StatsOf(rows[order[0]]), ColSum(order[1..], rows))
  }

  lemma {:induction false} FinalsColSum(order: seq<Id>, rows: map<Id, Fila>)
    requires forall k :: 0 <= k < |order| ==> order[k] in rows
    ensures Total(Finals(order, rows)) == ColSum(order, rows)
  {
    if |order| > 0 {
      var tail := Finals(order[1..], rows);
      assert Finals(order, rows)[1..] == tail;
      assert Finals(order, rows)[0] == Finalize(rows[order[0]]);
      FinalsColSum(order[1..], rows);
    }
  }

  lemma {:induction false} ColSumUnchanged(order: seq<Id>, rows: map<Id, Fila>, id: Id, f: Fila)
    requires forall k :: 0 <= k < |order| ==> order[k] in rows && order[k] != id
    ensures ColSum(order, rows[id := f]) == ColSum(order, rows)
  {
    if |order| > 0 {
      ColSumUnchanged(order[1..], rows, id, f);
    }
  }

  /** Bumping the row of `order[at]` adds the bump to the column sums. */
  lemma {:induction false} ColSumBump(order: seq<Id>, rows: map<Id, Fila>, at: nat, d: Stats)
    requires forall k :: 0 <= k < |order| ==> order[k] in rows
    requires Distinct(order) && at < |order|
    ensures ColSum(order, rows[order[at] := Bumped(rows[order[at]], d)]) == Add(ColSum(order, rows), d)
  {
    var id := order[at];
    var rows' := rows[id := Bumped(rows[id], d)];
    assert Distinct(order[1..]) by {
      forall i, j | 0 <= i < j < |order[1..]| ensures order[1..][i] != order[1..][j] {
        assert order[i + 1] != order[j + 1];
      }
    }
    if at == 0 {
      forall k | 0 <= k < |order[1..]| ensures order[1..][k] in rows && order[1..][k] != id {
        assert order[k + 1] != order[0];
      }
      ColSumUnchanged(order[1..], rows, id, Bumped(rows[id], d));
    } else {
      assert order[1..][at - 1] == id;
      ColSumBump(order[1..], rows, at - 1, d);
    }
  }

  lemma {:induction false} ColSumZero(order: seq<Id>, rows: map<Id, Fila>)
    requires forall k :: 0 <= k < |order| ==> order[k] in rows && StatsOf(rows[order[k]]) == Zero
    ensures ColSum(order, rows) == Zero
  {
    if |order| > 0 {
      ColSumZero(order[1..], rows);
    }
  }

  /** What one match adds to the column sums, given the ids with a row. */
  function Delta(keys: set<Id>, p: Partido): Stats {
    if !(p.jugado && p.equipoLocal in keys && p.equipoVisitante in keys) then Zero
    else
      var decided := if Greater(p.puntosLocal, p.puntosVisitante) || Greater(p.puntosVisitante, p.puntosLocal) then 1 else 0;
      Stats(2, decided, decided)
  }

  function TotalDelta(keys: set<Id>, ps: seq<Partido>): Stats {
    if |ps| == 0 then Zero else Add(TotalDelta(keys, ps[..|ps| - 1]), Delta(keys, ps[|ps| - 1]))
  }

  /** The number of counted matches of `ps`. */
  function CountedMatches(equipos: seq<Equipo>, ps: seq<Partido>): nat {
    if |ps| == 0 then 0
    else CountedMatches(equipos, ps[..|ps| - 1]) + (if Counted(equipos, ps[|ps| - 1]) then 1 else 0)
  }

  function TableTotal(t: Tabla): Stats
    requires forall k :: 0 <= k < |t.order| ==> t.order[k] in t.rows
  {
    ColSum(t.order, t.rows)
  }

  lemma BumpTableTotal(t: Tabla, id: Id, d: Stats)
    requires Aligned(t) && id in t.rows
    ensures Aligned(Bump(t, id, d))
    ensures TableTotal(Bump(t, id, d)) == Add(TableTotal(t), d)
  {
    var at :| 0 <= at < |t.order| && t.order[at] == id;
    ColSumBump(t.order, t.rows, at, d);
  }

  lemma CountTotal(t: Tabla, p: Partido)
    requires Aligned(t)
    ensures Aligned(Count(t, p))
    ensures TableTotal(Count(t, p)) == Add(TableTotal(t), Delta(t.rows.Keys, p))
  {
    if !Counts(t, p) {
      AddZero(TableTotal(t));
    } else {
      var L, V := p.equipoLocal, p.equipoVisitante;
      var one := Stats(1, 0, 0);
      BumpTableTotal(t, L, one);
      var t1 := Bump(t, L, one);
      BumpTableTotal(t1, V, one);
      var t2 := Bump(t1, V, one);
      var win, loss := Stats(0, 1, 0), Stats(0, 0, 1);
      if Greater(p.puntosLocal, p.puntosVisitante) {
        assert Count(t, p) == Bump(Bump(t2, L, win), V, loss);
        BumpTableTotal(t2, L, win);
        BumpTableTotal(Bump(t2, L, win), V, loss);
      } else if Greater(p.puntosVisitante, p.puntosLocal) {
        assert Count(t, p) == Bump(Bump(t2, V, win), L, loss);
        BumpTableTotal(t2, V, win);
        BumpTableTotal(Bump(t2, V, win), L, loss);
      } else {
        assert Count(t, p) == t2;
      }
    }
  }

  lemma {:induction false} TallyTotal(t: Tabla, ps: seq<Partido>)
    requires Aligned(t)
    ensures Aligned(Tally(t, ps))
    ensures TableTotal(Tally(t, ps)) == Add(TableTotal(t), TotalDelta(t.rows.Keys, ps))
  {
    if |ps| == 0 {
      AddZero(TableTotal(t));
    } else {
      var front, p := ps[..|ps| - 1], ps[|ps| - 1];
      TallyTotal(t, front);
      var tf := Tally(t, front);
      CountTotal(tf, p);
      SumStep(TableTotal(t), TotalDelta(t.rows.Keys, front), Delta(t.rows.Keys, p), TableTotal(tf), TableTotal(Count(tf, p)));
    }
  }

  lemma SumStep(a: Stats, b: Stats, c: Stats, x: Stats, y: Stats)
    requires x == Add(a, b) && y == Add(x, c)
    ensures y == Add(a, Add(b, c))
  {
  }

  lemma {:induction false} TotalDeltaShape(equipos: seq<Equipo>, keys: set<Id>, ps: seq<Partido>)
    requires forall id :: id in keys <==> Known(equipos, id)
    ensures TotalDelta(keys, ps).pj == 2 * CountedMatches(equipos, ps)
    ensures TotalDelta(keys, ps).pg == TotalDelta(keys, ps).pp
  {
    if |ps| > 0 {
      TotalDeltaShape(equipos, keys, ps[..|ps| - 1]);
    }
  }

  /** Over the whole table, wins and losses balance, and the games played
      are twice the counted matches. */
  lemma PosicionesTotals(equipos: seq<Equipo>, partidos: seq<Partido>)
    ensures var s := Total(Posiciones(equipos, partidos));
      s.pg == s.pp && s.pj == 2 * CountedMatches(equipos, partidos)
  {
    var t0 := Init(equipos);
    InitWellFormed(equipos);
    ColSumZero(t0.order, t0.rows);
    TallyTotal(t0, partidos);
    TotalDeltaShape(equipos, t0.rows.Keys, partidos);
    AddZero(TotalDelta(t0.rows.Keys, partidos));
    var t := Tally(t0, partidos);
    FinalsColSum(t.order, t.rows);
    TotalSortBy(Finals(t.order, t.rows));
  }

  // ---------------------------------------------------------------------
  // Order

  lemma BeforeStrict()
    ensures StrictOrder(Before)
  {
    forall a: Fila ensures !Before(a, a) {
      StrLessIrreflexive(a.nombre);
    }
    forall a: Fila, b: Fila, c: Fila | Before(a, b) && Before(b, c) ensures Before(a, c) {
      if a.pts == b.pts == c.pts && a.pg == b.pg == c.pg && a.pp == b.pp == c.pp {
        StrLessTransitive(a.nombre, b.nombre, c.nombre);
      }
    }
  }

  /** Of two rows that differ in a sort key, one ranks before the
      other. */
  lemma BeforeTotal(a: Fila, b: Fila)
    requires (a.pts, a.pg, a.pp, a.nombre) != (b.pts, b.pg, b.pp, b.nombre)
    ensures Before(a, b) || Before(b, a)
  {
    if a.pts == b.pts && a.pg == b.pg && a.pp == b.pp {
      StrLessTotal(a.nombre, b.nombre);
    }
  }

  /** The result is the table's rows, reordered, ranked by points, then
      wins, then fewer losses, then name. */
  lemma PosicionesSorted(equipos: seq<Equipo>, partidos: seq<Partido>)
    ensures SortedBy(Posiciones(equipos, partidos), Before)
    ensures var t := Tally(Init(equipos), partidos);
      multiset(Posiciones(equipos, partidos)) == multiset(Finals(t.order, t.rows))
  {
    BeforeStrict();
    var t := Tally(Init(equipos), partidos);
    SortBySorted(Finals(t.order, t.rows), Before);
  }
}
