/** The final-phase mode switch (`cambiarModo`): cups and playoffs exclude
    each other, and moving to one mode deletes the matches (and, for the
    cups, the rosters document) the other one left. */
module Mode {
  import opened Common
  import opened Domain

  predicate IsPlayoffMatch(m: Match) {
    m.fase.IsFinalPhase() && !m.fase.IsCopa()
  }

  predicate IsCupMatch(m: Match) {
    m.fase.IsCopa()
  }

  /** The final-phase matches whose `fase` does not start with `copa-`. */
  function PlayoffMatches(partidos: seq<Match>): seq<Match> {
    Filter(FaseMatches(partidos), (m: Match) => !m.fase.IsCopa())
  }

  /** The final-phase matches whose `fase` starts with `copa-`. */
  function CupMatches(partidos: seq<Match>): seq<Match> {
    Filter(FaseMatches(partidos), (m: Match) => m.fase.IsCopa())
  }

  /** `eliminarPlayoffs` */
  function EliminarPlayoffs(partidos: seq<Match>): seq<Write> {
    DeletesOf(PlayoffMatches(partidos))
  }

  /** `eliminarCopasFase`: the cup matches, then the `copas` document. */
  function EliminarCopasFase(partidos: seq<Match>): seq<Write> {
    DeletesOf(CupMatches(partidos)) + [DeleteCopas]
  }

  /** `fasePartidos.some(...)` for the playoff rounds. */
  predicate HayPO(partidos: seq<Match>) {
    exists m :: m in partidos && IsPlayoffMatch(m)
  }

  /** `hayCopas`: a stored `copas` document or a cup match. */
  predicate HayCopas(partidos: seq<Match>, copasStored: bool) {
    copasStored || exists m :: m in partidos && IsCupMatch(m)
  }

  /** `cambiarModo(nuevo)`: nothing when the mode does not change or the
      user declines to lose the other mode's data; otherwise the deletions
      of the vacated mode, then the new mode. */
  function CambiarModo(modo: Modo, nuevo: Modo, partidos: seq<Match>, copasStored: bool, confirmed: bool): (o: Outcome)
    ensures o.Declined? <==>
      || nuevo == modo
      || (nuevo == Copas && HayPO(partidos) && !confirmed)
      || (nuevo == Playoffs && HayCopas(partidos, copasStored) && !confirmed)
    ensures !o.Rejected?
    ensures o.Writes? ==> |o.writes| >= 1 && o.writes[|o.writes| - 1] == SetModo(nuevo)
  {
    if nuevo == modo then Declined
    else if nuevo == Copas then
      if HayPO(partidos) && !confirmed then Declined
      else Writes(EliminarPlayoffs(partidos) + [SetModo(nuevo)])
    else if nuevo == Playoffs then
      if HayCopas(partidos, copasStored) && !confirmed then Declined
      else Writes(EliminarCopasFase(partidos) + [SetModo(nuevo)])
    else Writes([SetModo(nuevo)])
  }

  /** The new mode is the last write; every write before it is a
      deletion. */
  lemma ModeWrittenLast(modo: Modo, nuevo: Modo, partidos: seq<Match>, copasStored: bool, confirmed: bool)
    requires CambiarModo(modo, nuevo, partidos, copasStored, confirmed).Writes?
    ensures var w := CambiarModo(modo, nuevo, partidos, copasStored, confirmed).writes;
      && w[|w| - 1] == SetModo(nuevo)
      && forall k :: 0 <= k < |w| - 1 ==> w[k].DeleteMatch? || w[k] == DeleteCopas
  {
    if nuevo == Copas && nuevo != modo {
      DeletionsThen(EliminarPlayoffs(partidos), SetModo(nuevo));
    } else if nuevo == Playoffs && nuevo != modo {
      var ds := DeletesOf(CupMatches(partidos));
      DeletionsThen(ds, DeleteCopas);
      DeletionsThen(ds + [DeleteCopas], SetModo(nuevo));
    }
  }

  predicate Deletions(ws: seq<Write>) {
    forall k :: 0 <= k < |ws| ==> ws[k].DeleteMatch? || ws[k] == DeleteCopas
  }

  lemma DeletionsThen(ds: seq<Write>, w: Write)
    requires Deletions(ds)
    ensures var ws := ds + [w];
      && ws[|ws| - 1] == w
      && (forall k :: 0 <= k < |ws| - 1 ==> ws[k].DeleteMatch? || ws[k] == DeleteCopas)
      && ((w.DeleteMatch? || w == DeleteCopas) ==> Deletions(ws))
  {
    var ws := ds + [w];
    assert forall k :: 0 <= k < |ws| - 1 ==> ws[k] == ds[k];
  }

  /** `eliminarPlayoffs` deletes exactly the playoff matches. */
  lemma PlayoffDeletes(partidos: seq<Match>, id: Id)
    ensures DeleteMatch(id) in EliminarPlayoffs(partidos) <==> exists m :: m in partidos && IsPlayoffMatch(m) && m.id == id
    ensures DeleteCopas !in EliminarPlayoffs(partidos)
  {
    DeletesFilter(FaseMatches(partidos), (m: Match) => !m.fase.IsCopa(), id);
  }

  /** `eliminarCopasFase` deletes exactly the cup matches, and the rosters. */
  lemma CupDeletes(partidos: seq<Match>, id: Id)
    ensures DeleteMatch(id) in EliminarCopasFase(partidos) <==> exists m :: m in partidos && IsCupMatch(m) && m.id == id
    ensures DeleteCopas in EliminarCopasFase(partidos)
  {
    DeletesFilter(FaseMatches(partidos), (m: Match) => m.fase.IsCopa(), id);
    var ds := DeletesOf(CupMatches(partidos));
    assert EliminarCopasFase(partidos) == ds + [DeleteCopas];
    assert DeleteMatch(id) in ds + [DeleteCopas] <==> DeleteMatch(id) in ds;
  }

  /** Going to cups deletes exactly the playoff matches and keeps the cup
      rosters. */
  lemma ToCopasDeletes(modo: Modo, partidos: seq<Match>, copasStored: bool, confirmed: bool, id: Id)
    requires CambiarModo(modo, Copas, partidos, copasStored, confirmed).Writes?
    ensures var w := CambiarModo(modo, Copas, partidos, copasStored, confirmed).writes;
      && (DeleteMatch(id) in w <==> exists m :: m in partidos && IsPlayoffMatch(m) && m.id == id)
      && DeleteCopas !in w
  {
    PlayoffDeletes(partidos, id);
    var ds := EliminarPlayoffs(partidos);
    assert CambiarModo(modo, Copas, partidos, copasStored, confirmed).writes == ds + [SetModo(Copas)];
    assert DeleteMatch(id) in ds + [SetModo(Copas)] <==> DeleteMatch(id) in ds;
  }

  /** Going to playoffs deletes exactly the cup matches and the rosters
      document. */
  lemma ToPlayoffsDeletes(modo: Modo, partidos: seq<Match>, copasStored: bool, confirmed: bool, id: Id)
    requires CambiarModo(modo, Playoffs, partidos, copasStored, confirmed).Writes?
    ensures var w := CambiarModo(modo, Playoffs, partidos, copasStored, confirmed).writes;
      && (DeleteMatch(id) in w <==> exists m :: m in partidos && IsCupMatch(m) && m.id == id)
      && DeleteCopas in w
  {
    CupDeletes(partidos, id);
    var ds := EliminarCopasFase(partidos);
    assert CambiarModo(modo, Playoffs, partidos, copasStored, confirmed).writes == ds + [SetModo(Playoffs)];
    assert DeleteMatch(id) in ds + [SetModo(Playoffs)] <==> DeleteMatch(id) in ds;
  }

  /** Match documents have distinct ids. */
  predicate UniqueMatchIds(partidos: seq<Match>) {
    forall i, j :: 0 <= i < |partidos| && 0 <= j < |partidos| && partidos[i].id == partidos[j].id ==> i == j
  }

  /** The matches that survive the deletions. */
  function Remaining(partidos: seq<Match>, writes: seq<Write>): seq<Match> {
    Filter(partidos, (m: Match) => DeleteMatch(m.id) !in writes)
  }

  /** With distinct match ids a switch never deletes a group-stage match,
      and afterwards no match of the vacated mode is left. */
  lemma SwitchKeepsExclusive(modo: Modo, nuevo: Modo, partidos: seq<Match>, copasStored: bool, confirmed: bool, m: Match)
    requires UniqueMatchIds(partidos)
    requires CambiarModo(modo, nuevo, partidos, copasStored, confirmed).Writes?
    requires m in partidos
    ensures var w := CambiarModo(modo, nuevo, partidos, copasStored, confirmed).writes;
      && (m.fase == Regular ==> m in Remaining(partidos, w))
      && (nuevo == Copas ==> (m in Remaining(partidos, w) <==> !IsPlayoffMatch(m)))
      && (nuevo == Playoffs ==> (m in Remaining(partidos, w) <==> !IsCupMatch(m)))
  {
    var w := CambiarModo(modo, nuevo, partidos, copasStored, confirmed).writes;
    FilterMembers(partidos, (m: Match) => DeleteMatch(m.id) !in w, m);
    if nuevo == Copas {
      ToCopasDeletes(modo, partidos, copasStored, confirmed, m.id);
      SameIdSameMatch(partidos, m, IsPlayoffMatch);
    } else if nuevo == Playoffs {
      ToPlayoffsDeletes(modo, partidos, copasStored, confirmed, m.id);
      SameIdSameMatch(partidos, m, IsCupMatch);
    }
  }

  /** With distinct ids, the only match of the list with `m`'s id is `m`. */
  lemma SameIdSameMatch(partidos: seq<Match>, m: Match, p: Match -> bool)
    requires UniqueMatchIds(partidos) && m in partidos
    ensures (exists n :: n in partidos && p(n) && n.id == m.id) <==> p(m)
  {
    if exists n :: n in partidos && p(n) && n.id == m.id {
      var n :| n in partidos && p(n) && n.id == m.id;
      var i :| 0 <= i < |partidos| && partidos[i] == n;
      var j :| 0 <= j < |partidos| && partidos[j] == m;
    }
  }
}
