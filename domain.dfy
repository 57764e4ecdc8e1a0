/** The tournament snapshot (teams and matches), the phase tags, and the
    write commands the handlers return instead of talking to the store. */
module Domain {
  import opened Common

  type Id = string

  /** The `fase` tag of a match. `Regular` is the group stage (no `fase`
      field); `Otros` is the label `seedName` gives to an unsupported size. */
  datatype Phase =
    | Regular | Octavos | Cuartos | Semi | Tercer | Final
    | CopaOro | CopaPlata | CopaBronce | Otros
  {
    /** `String(fase).startsWith("copa-")` */
    predicate IsCopa() { CopaOro? || CopaPlata? || CopaBronce? }
    /** `!!fase`: the match belongs to the final phase. */
    predicate IsFinalPhase() { !Regular? }
  }

  datatype Estado = Pendiente | Finalizado

  /** A top-scorer annotation; `puntos` is `None` when not a finite number. */
  datatype Top = Top(nombre: string, puntos: Option<int>)
  datatype Tops = Tops(local: Option<Top>, visitante: Option<Top>)

  /** A stored match. Scores are `None` when absent or not finite; `grupo`
      is `""` when the field is absent; `dia` is the timestamp in seconds. */
  datatype Match = Match(
    id: Id,
    localId: Id,
    visitanteId: Id,
    estado: Estado,
    scoreLocal: Option<int>,
    scoreVisitante: Option<int>,
    fase: Phase,
    grupo: string,
    interzonal: bool,
    poSlot: Option<int>,
    dia: Option<int>,
    cancha: string,
    tops: Option<Tops>)
  {
    /** Both scores are finite numbers. */
    predicate HasScores() { scoreLocal.Some? && scoreVisitante.Some? }
    predicate Involves(team: Id) { localId == team || visitanteId == team }
  }

  /** A stored team; `grupo` is `""` when absent. */
  datatype Team = Team(id: Id, nombre: string, grupo: string, logoUrl: string)

  /** The final-phase mode stored in the `config` document. */
  datatype Modo = Unset | Copas | Playoffs

  /** The fields of a match document a handler writes. A `CreateMatch`
      writes the other fields as given, and writes `grupo` only when it is
      not `""` and `interzonal` only when it is `true`: a created document
      without them reads back as `""` and `false`, which is what the draft
      holds. Only the group-stage match form ever sets either; the
      fixture, the bracket and the final-phase drafts leave them empty.
      The one `UpdateMatch` (saving the third-place match or the final)
      merges all fields but `grupo` and `interzonal` into the stored
      document; those two keep their stored values. No draft touches the
      scores. */
  datatype Draft = Draft(
    localId: Id,
    visitanteId: Id,
    estado: Estado,
    fase: Phase,
    poSlot: Option<int>,
    fecha: string,
    cancha: string,
    grupo: string,
    interzonal: bool)

  datatype Quotas = Quotas(oro: nat, plata: nat, bronce: nat)

  /** The `copas` document: three rosters and their quotas. */
  datatype CopasDoc = CopasDoc(oro: seq<Id>, plata: seq<Id>, bronce: seq<Id>, cupos: Quotas)

  /** One write the store is asked to perform. */
  datatype Write =
    | CreateMatch(draft: Draft)
    | UpdateMatch(matchId: Id, draft: Draft)
    | SetScore(scoreId: Id, sl: int, sv: int, tops: Option<Tops>)
    | DeleteMatch(deleteId: Id)
    | SetCopas(copas: CopasDoc)
    | DeleteCopas
    | SetModo(modo: Modo)
    | CreateTeam(nombre: string, nombreKey: string, logoUrl: string, grupo: string)
    | UpdateTeam(teamId: Id, newNombre: string, newKey: string, newLogo: string, newGrupo: string)
    | DeleteTeam(deletedTeam: Id)

  /** The message of each validation `alert` the handlers can raise. */
  datatype Alert =
    | InvalidScores          // "Cargá puntajes válidos."
    | NoDraws                // "No se permiten empates."
    | InvalidTopPoints       // "Puntos de máximo anotador inválidos."
    | ChooseDistinctTeams    // "Elegí equipos distintos."
    | ChooseDate             // "Elegí fecha y hora."
    | ChooseVenue            // "Ingresá la cancha."
    | NeedsInterzonal        // grupos distintos: marcar "Partido interzonal"
    | InterzonalNeedsGroups  // "Interzonal debe ser entre equipos de grupos diferentes"
    | TeamReferenced         // equipo referenciado por partidos
    | NameRequired           // "Poné un nombre de equipo."
    | NameExists             // el nombre ya existe
    | GroupFrozen            // ya disputó un partido de su grupo
    | CopasModeRequired      // "El modo activo es Playoffs. Cambiá a Copas ..."
    | PlayoffsModeRequired   // "El modo activo es Copas. Cambiá a Playoffs ..."
    | QuotaExceeded          // "No superes los cupos configurados."
    | TeamInTwoCups          // "Un equipo no puede estar en más de una copa."
    | CupNeedsTwoTeams       // "Se necesitan al menos 2 equipos en la copa."
    | GroupNeedsTwoTeams     // "Ese grupo necesita al menos 2 equipos."
    | ChooseExactlyN         // "Elegí exactamente N equipos."
    | MissingPairs           // "Faltan cruces."
    | CompleteDates          // "Completá fecha y hora en todos los partidos."
    | CompleteVenues         // "Completá la cancha en todos los partidos."
    | PairWithoutTeam        // the store refuses a document with an undefined team id

  /** What a handler does: reject with an alert, stop silently (a declined
      `confirm`, nothing to do), or ask for writes in this order. */
  datatype Outcome = Rejected(why: Alert) | Declined | Writes(writes: seq<Write>)

  /** `equipos.find((e) => e.id === id)` */
  function FindTeam(equipos: seq<Team>, id: Id): (r: Option<Team>)
    ensures r.Some? ==> r.value in equipos && r.value.id == id
    ensures r.None? <==> forall i :: 0 <= i < |equipos| ==> equipos[i].id != id
    ensures r.Some? ==>
      exists i :: 0 <= i < |equipos| && equipos[i] == r.value && forall j :: 0 <= j < i ==> equipos[j].id != id
  {
    if |equipos| == 0 then None
    else if equipos[0].id == id then Some(equipos[0])
    else FindTeam(equipos[1..], id)
  }

  /** `equiposMap`: id to name, a later team with the same id winning. */
  function NamesMap(equipos: seq<Team>): (m: map<Id, string>)
    ensures forall i :: 0 <= i < |equipos| ==> equipos[i].id in m
    ensures forall id :: id in m ==> exists i :: LastListed(equipos, i, id) && m[id] == equipos[i].nombre
  {
    if |equipos| == 0 then map[]
    else
      var init := equipos[..|equipos| - 1];
      var m := NamesMap(init);
      NamesMapStep(equipos, init, m);
      m[equipos[|equipos| - 1].id := equipos[|equipos| - 1].nombre]
  }

  /** Overwriting the entry of the last team keeps every entry the name of
      the last team listed with its id. */
  lemma NamesMapStep(equipos: seq<Team>, init: seq<Team>, m: map<Id, string>)
    requires |equipos| > 0 && init == equipos[..|equipos| - 1]
    requires forall i :: 0 <= i < |init| ==> init[i].id in m
    requires forall id :: id in m ==> exists i :: LastListed(init, i, id) && m[id] == init[i].nombre
    ensures var r := m[equipos[|equipos| - 1].id := equipos[|equipos| - 1].nombre];
      && (forall i :: 0 <= i < |equipos| ==> equipos[i].id in r)
      && (forall id :: id in r ==> exists i :: LastListed(equipos, i, id) && r[id] == equipos[i].nombre)
  {
    var n := |equipos| - 1;
    var r := m[equipos[n].id := equipos[n].nombre];
    assert forall i :: 0 <= i < n ==> equipos[i] == init[i];
    assert LastListed(equipos, n, equipos[n].id);
    forall id | id in r ensures exists i :: LastListed(equipos, i, id) && r[id] == equipos[i].nombre {
      if id != equipos[n].id {
        var i :| LastListed(init, i, id) && m[id] == init[i].nombre;
        assert LastListed(equipos, i, id);
      }
    }
  }

  /** Position `i` holds the last team of `equipos` with id `id`. */
  predicate LastListed(equipos: seq<Team>, i: int, id: Id) {
    0 <= i < |equipos| && equipos[i].id == id && forall j :: i < j < |equipos| ==> equipos[j].id != id
  }

  /** `equiposMap[id] || "Equipo"` */
  function DisplayName(names: map<Id, string>, id: Id): string {
    if id in names && names[id] != "" then names[id] else "Equipo"
  }

  /** Team ids are unique document ids. */
  predicate UniqueTeamIds(equipos: seq<Team>) {
    forall i, j :: 0 <= i < j < |equipos| ==> equipos[i].id != equipos[j].id
  }

  /** `partidos.filter((p) => p.fase)` */
  function FaseMatches(partidos: seq<Match>): (r: seq<Match>)
    ensures forall m :: m in r <==> m in partidos && m.fase.IsFinalPhase()
  {
    if |partidos| == 0 then []
    else
      var rest := FaseMatches(partidos[1..]);
      assert forall m :: m in partidos <==> m == partidos[0] || m in partidos[1..];
      if partidos[0].fase.IsFinalPhase() then [partidos[0]] + rest else rest
  }

  /** One `deleteDoc` per match, in order. */
  function DeletesOf(ms: seq<Match>): (r: seq<Write>)
    ensures |r| == |ms|
    ensures forall k :: 0 <= k < |ms| ==> r[k] == DeleteMatch(ms[k].id)
  {
    seq(|ms|, k requires 0 <= k < |ms| => DeleteMatch(ms[k].id))
  }

  /** A match of the list is deleted exactly when its id is. */
  lemma DeletesOfMembers(ms: seq<Match>, id: Id)
    ensures DeleteMatch(id) in DeletesOf(ms) <==> exists k :: 0 <= k < |ms| && ms[k].id == id
  {
    if DeleteMatch(id) in DeletesOf(ms) {
      var k :| 0 <= k < |ms| && DeletesOf(ms)[k] == DeleteMatch(id);
    }
  }

  /** Deleting the matches that pass a filter deletes exactly their ids. */
  lemma DeletesFilter(ms: seq<Match>, keep: Match -> bool, id: Id)
    ensures DeleteMatch(id) in DeletesOf(Filter(ms, keep)) <==> exists m :: m in ms && keep(m) && m.id == id
  {
    var f := Filter(ms, keep);
    DeletesOfMembers(f, id);
    if exists k :: 0 <= k < |f| && f[k].id == id {
      var k :| 0 <= k < |f| && f[k].id == id;
      FilterMembers(ms, keep, f[k]);
    }
    if exists m :: m in ms && keep(m) && m.id == id {
      var m :| m in ms && keep(m) && m.id == id;
      FilterMembers(ms, keep, m);
      var k :| 0 <= k < |f| && f[k] == m;
    }
  }
}
