/** Creating a group-stage match and saving a result: the team pickers of
    the new-match form, the checks of `guardarPartido` and of
    `saveResultado`, and the writes they ask for. */
module Matches {
  import opened Common
  import opened Domain
  import opened Sorting
  import opened Standings
  import opened Teams
  import opened Groups

  /** The new-match form. */
  datatype MatchForm = MatchForm(localId: Id, visitanteId: Id, fecha: string, cancha: string, interzonal: bool)

  datatype Side = LocalSide | VisitanteSide

  function OtherId(form: MatchForm, side: Side): Id {
    if side == LocalSide then form.visitanteId else form.localId
  }

  /** The filter of `elegiblesPara`: never the team already picked on the
      other side; for an interzonal match a team with a group, of another
      group than the other side's; otherwise a team of the other side's
      group, or without group, or anyone when the other side has none. */
  predicate Eligible(equipos: seq<Team>, form: MatchForm, side: Side, e: Team) {
    var otherId := OtherId(form, side);
    var otherGroup := GroupOf(equipos, otherId);
    var g := GroupOf(equipos, e.id);
    && e.id != otherId
    && if form.interzonal then g != "" && (otherGroup == "" || g != otherGroup)
       else otherGroup == "" || g == "" || g == otherGroup
  }

  /** `elegiblesPara(side)`: the eligible teams, by name. */
  function ElegiblesPara(equipos: seq<Team>, form: MatchForm, side: Side): seq<Team> {
    SortBy(Filter(equipos, (e: Team) => Eligible(equipos, form, side, e)), NameBefore)
  }

  lemma ElegiblesParaSpec(equipos: seq<Team>, form: MatchForm, side: Side, e: Team)
    ensures e in ElegiblesPara(equipos, form, side) <==> e in equipos && Eligible(equipos, form, side, e)
    ensures SortedBy(ElegiblesPara(equipos, form, side), NameBefore)
  {
    var keep := (e: Team) => Eligible(equipos, form, side, e);
    FilterMembers(equipos, keep, e);
    SortByMembers(Filter(equipos, keep), NameBefore, e);
    NameBeforeStrict();
    SortBySorted(Filter(equipos, keep), NameBefore);
  }

  /** The two group rules of `guardarPartido`, on the upper-cased groups:
      different groups need the interzonal mark, and an interzonal match
      needs two different groups. */
  predicate GroupRulesPass(gL: string, gV: string, interzonal: bool) {
    && !(gL != "" && gV != "" && gL != gV && !interzonal)
    && !(interzonal && (gL == "" || gV == "" || gL == gV))
  }

  /** `guardarPartido` */
  function GuardarPartido(equipos: seq<Team>, form: MatchForm): (o: Outcome)
    ensures o.Rejected? && o.why == ChooseDistinctTeams <==>
      form.localId == "" || form.visitanteId == "" || form.localId == form.visitanteId
    ensures o.Writes? <==>
      && form.localId != "" && form.visitanteId != "" && form.localId != form.visitanteId
      && form.fecha != "" && Trim(form.cancha) != ""
      && GroupRulesPass(RawGroup(equipos, form.localId), RawGroup(equipos, form.visitanteId), form.interzonal)
    ensures o.Writes? ==> |o.writes| == 1 && o.writes[0].CreateMatch?
    ensures o.Writes? ==>
      var d := o.writes[0].draft;
      && d.localId == form.localId && d.visitanteId == form.visitanteId
      && d.estado == Pendiente && d.fase == Regular && d.poSlot.None?
      && d.fecha == form.fecha && d.cancha == Trim(form.cancha) && d.interzonal == form.interzonal
      && (d.grupo != "" <==> !form.interzonal && RawGroup(equipos, form.localId) != ""
                             && RawGroup(equipos, form.localId) == RawGroup(equipos, form.visitanteId))
      && (d.grupo != "" ==> d.grupo == RawGroup(equipos, form.localId))
    ensures !o.Declined?
  {
    if form.localId == "" || form.visitanteId == "" || form.localId == form.visitanteId then
      Rejected(ChooseDistinctTeams)
    else if form.fecha == "" then Rejected(ChooseDate)
    else if Trim(form.cancha) == "" then Rejected(ChooseVenue)
    else
      var gL := RawGroup(equipos, form.localId);
      var gV := RawGroup(equipos, form.visitanteId);
      if gL != "" && gV != "" && gL != gV && !form.interzonal then Rejected(NeedsInterzonal)
      else if form.interzonal && (gL == "" || gV == "" || gL == gV) then Rejected(InterzonalNeedsGroups)
      else
        var grupo := if !form.interzonal && gL != "" && gL == gV then gL else "";
        Writes([CreateMatch(Draft(form.localId, form.visitanteId, Pendiente, Regular, None,
                                  form.fecha, Trim(form.cancha), grupo, form.interzonal))])
  }

  /** Team groups as both team forms store them: trimming the upper-cased
      label changes nothing. */
  predicate NormalGroups(equipos: seq<Team>) {
    forall k :: 0 <= k < |equipos| ==> Trim(Upper(equipos[k].grupo)) == Upper(equipos[k].grupo)
  }

  lemma UpperCharShape(c: char)
    ensures IsSpace(UpperChar(c)) <==> IsSpace(c)
    ensures UpperChar(UpperChar(c)) == UpperChar(c)
  {
  }

  /** A label stored by the team forms is normal. */
  lemma StoredGroupNormal(x: string)
    ensures Trim(Upper(StoredGroup(x))) == Upper(StoredGroup(x))
  {
    var t := Trim(x);
    var u := Upper(t);
    forall i | 0 <= i < |u| ensures Upper(u)[i] == u[i] && (IsSpace(u[i]) <==> IsSpace(t[i])) {
      UpperCharShape(t[i]);
    }
    assert Upper(u) == u;
    TrimFixed(u);
  }

  /** The pickers and the save handler agree: once the local team is
      chosen (and, for an interzonal match, has a group), a team with
      normal groups passes the group rules of `guardarPartido` as visitor
      exactly when the visitor picker offers it. */
  lemma ElegiblesAgreeWithGuardar(equipos: seq<Team>, form: MatchForm, e: Team)
    requires NormalGroups(equipos)
    requires e in equipos && form.localId != "" && e.id != ""
    requires form.interzonal ==> GroupOf(equipos, form.localId) != ""
    ensures Eligible(equipos, form, VisitanteSide, e) <==>
      e.id != form.localId &&
      GroupRulesPass(RawGroup(equipos, form.localId), RawGroup(equipos, e.id), form.interzonal)
  {
    NormalGroupOf(equipos, form.localId);
    NormalGroupOf(equipos, e.id);
  }

  /** Where the two part ways: for an interzonal match whose local team has
      no group, the visitor picker still offers every other team that has
      a group, and saving that match is refused. */
  lemma PickerOffersRefusedInterzonal(equipos: seq<Team>, form: MatchForm, e: Team)
    requires NormalGroups(equipos)
    requires e in equipos && e.id != "" && form.localId != "" && e.id != form.localId
    requires form.interzonal && GroupOf(equipos, form.localId) == "" && GroupOf(equipos, e.id) != ""
    requires form.fecha != "" && Trim(form.cancha) != ""
    ensures Eligible(equipos, form, VisitanteSide, e)
    ensures GuardarPartido(equipos, form.(visitanteId := e.id)) == Rejected(InterzonalNeedsGroups)
  {
    OffersGroupedVisitor(equipos, form, e);
    NormalGroupOf(equipos, form.localId);
    GuardarRefusesUngroupedInterzonal(equipos, form.(visitanteId := e.id));
  }

  /** For an interzonal match whose local team has no group, the visitor
      picker offers every other team that has one. */
  lemma OffersGroupedVisitor(equipos: seq<Team>, form: MatchForm, e: Team)
    requires e.id != form.localId
    requires form.interzonal && GroupOf(equipos, form.localId) == "" && GroupOf(equipos, e.id) != ""
    ensures Eligible(equipos, form, VisitanteSide, e)
  {
  }

  /** An interzonal match whose local team has no group is refused, however
      complete the rest of the form. */
  lemma GuardarRefusesUngroupedInterzonal(equipos: seq<Team>, form: MatchForm)
    requires form.localId != "" && form.visitanteId != "" && form.localId != form.visitanteId
    requires form.fecha != "" && Trim(form.cancha) != ""
    requires form.interzonal && RawGroup(equipos, form.localId) == ""
    ensures GuardarPartido(equipos, form) == Rejected(InterzonalNeedsGroups)
  {
  }

  lemma NormalGroupOf(equipos: seq<Team>, id: Id)
    requires NormalGroups(equipos) && id != ""
    ensures GroupOf(equipos, id) == RawGroup(equipos, id)
  {
    if FindTeam(equipos, id).Some? {
      var t := FindTeam(equipos, id).value;
      var k :| 0 <= k < |equipos| && equipos[k] == t;
    }
  }

  // ---------------------------------------------------------------------
  // Saving a result

  /** The result form: the scores after `Number(...)`, `None` when not a
      finite number, and the optional top scorers. */
  datatype ResultForm = ResultForm(
    scoreLocal: Option<int>, scoreVisitante: Option<int>,
    topLocalName: string, topLocalPts: Option<int>,
    topVisName: string, topVisPts: Option<int>)

  function TopOf(name: string, pts: Option<int>): Option<Top>
    requires name != "" ==> pts.Some?
  {
    if name == "" then None else Some(Top(Trim(name), Some(pts.value)))
  }

  /** `saveResultado`: the result write; the bracket advance that follows
      it is `Bracket.Avanzar`. */
  function SaveResultado(m: Match, f: ResultForm): (o: Outcome)
    ensures o.Writes? <==>
      && f.scoreLocal.Some? && f.scoreVisitante.Some?
      && f.scoreLocal.value >= 0 && f.scoreVisitante.value >= 0
      && f.scoreLocal.value != f.scoreVisitante.value
      && (f.topLocalName != "" ==> f.topLocalPts.Some?) && (f.topVisName != "" ==> f.topVisPts.Some?)
    ensures o.Rejected? && o.why == NoDraws <==>
      f.scoreLocal.Some? && f.scoreVisitante.Some? && f.scoreLocal.value >= 0 && f.scoreLocal == f.scoreVisitante
    ensures o.Writes? ==> o.writes == [SetScore(m.id, f.scoreLocal.value, f.scoreVisitante.value,
      if f.topLocalName != "" || f.topVisName != "" then
        Some(Tops(TopOf(f.topLocalName, f.topLocalPts), TopOf(f.topVisName, f.topVisPts)))
      else None)]
    ensures !o.Declined?
  {
    if f.scoreLocal.None? || f.scoreVisitante.None? || f.scoreLocal.value < 0 || f.scoreVisitante.value < 0 then
      Rejected(InvalidScores)
    else if f.scoreLocal.value == f.scoreVisitante.value then Rejected(NoDraws)
    else if (f.topLocalName != "" && f.topLocalPts.None?) || (f.topVisName != "" && f.topVisPts.None?) then
      Rejected(InvalidTopPoints)
    else
      var tops := if f.topLocalName != "" || f.topVisName != "" then
        Some(Tops(TopOf(f.topLocalName, f.topLocalPts), TopOf(f.topVisName, f.topVisPts)))
      else None;
      Writes([SetScore(m.id, f.scoreLocal.value, f.scoreVisitante.value, tops)])
  }

  /** The stored match after a `SetScore` write; the `tops` field is left
      alone when the write carries none. */
  function ApplyScore(m: Match, w: Write): Match
    requires w.SetScore?
  {
    m.(estado := Finalizado, scoreLocal := Some(w.sl), scoreVisitante := Some(w.sv),
       tops := if w.tops.Some? then w.tops else m.tops)
  }

  /** A saved result is finished, counts in the tables and gives exactly
      one win and one loss to two different teams. */
  lemma SaveResultadoDecides(m: Match, f: ResultForm)
    requires SaveResultado(m, f).Writes?
    requires m.localId != m.visitanteId
    ensures var n := ApplyScore(m, SaveResultado(m, f).writes[0]);
      && n.estado == Finalizado && n.HasScores()
      && n.scoreLocal.value >= 0 && n.scoreVisitante.value >= 0
      && Contribution(n, n.localId).pg + Contribution(n, n.visitanteId).pg == 1
      && Contribution(n, n.localId).pp + Contribution(n, n.visitanteId).pp == 1
      && Contribution(n, n.localId).pj == 1 && Contribution(n, n.visitanteId).pj == 1
  {
  }
}
