/** The knockout bracket of the playoffs mode: the round names, winner and
    loser of a knockout match, the best-against-worst seeding of the first
    round and the checks of `guardarPOConfig`, and the fan-out of the two
    semifinals into the third-place match and the final
    (`avanzarPlayoffsSiCorresponde`, `abrirProgramarDefiniciones`,
    `guardarDefsProgramacion`). */
module Bracket {
  import opened Common
  import opened Domain
  import opened Sorting

  /** `isPO`: a round of `PO_FASES`; the third-place match is not one. */
  predicate IsPO(f: Phase) {
    f == Octavos || f == Cuartos || f == Semi || f == Final
  }

  /** The number of teams a knockout round starts with: 16 in `octavos`,
      8 in `cuartos`, 4 in `semi`, 2 in the final; 0 outside the rounds. */
  function RoundSize(f: Phase): nat {
    match f
    case Octavos => 16
    case Cuartos => 8
    case Semi => 4
    case Final => 2
    case _ => 0
  }

  /** `nextFase`: the round the winners of `f` play next, which has half
      as many teams; none after the final. */
  function NextFase(f: Phase): (r: Option<Phase>)
    ensures r.Some? ==> IsPO(f) && IsPO(r.value) && 2 * RoundSize(r.value) == RoundSize(f)
    ensures r.None? <==> f != Octavos && f != Cuartos && f != Semi
  {
    match f
    case Octavos => Some(Cuartos)
    case Cuartos => Some(Semi)
    case Semi => Some(Final)
    case _ => None
  }

  /** `seedName(n)`: the round a bracket of `n` teams starts with. */
  function SeedName(n: int): (f: Phase)
    ensures f != Otros <==> n == 2 || n == 4 || n == 8 || n == 16
    ensures f != Otros ==> IsPO(f) && RoundSize(f) == n
  {
    if n == 2 then Final
    else if n == 4 then Semi
    else if n == 8 then Cuartos
    else if n == 16 then Octavos
    else Otros
  }

  /** Halving a bracket is moving to the next round, and different sizes
      start with different rounds. */
  lemma SeedNameHalves(n: int, m: int)
    requires n == 4 || n == 8 || n == 16
    ensures NextFase(SeedName(n)) == Some(SeedName(n / 2))
    ensures SeedName(m) == SeedName(n) ==> m == n
  {
  }

  /** `ganadorDe`: `None` (JS `null`) outside the knockout rounds; there
      are no draws, so a local score that is not higher means the visitor
      won. */
  function GanadorDe(m: Match, sl: int, sv: int): (r: Option<Id>)
    ensures r.Some? <==> IsPO(m.fase)
    ensures r.Some? ==> m.Involves(r.value)
  {
    if !IsPO(m.fase) then None
    else if sl > sv then Some(m.localId) else Some(m.visitanteId)
  }

  /** `perdedorDe` */
  function PerdedorDe(m: Match, sl: int, sv: int): (r: Option<Id>)
    ensures r.Some? <==> IsPO(m.fase)
    ensures r.Some? ==> m.Involves(r.value)
  {
    if !IsPO(m.fase) then None
    else if sl > sv then Some(m.visitanteId) else Some(m.localId)
  }

  /** `g` beat `p` in `m`: they are its two sides, and `g` is the local
      side exactly when the local score is the higher one. */
  predicate WonOver(m: Match, sl: int, sv: int, g: Id, p: Id) {
    || (g == m.localId && p == m.visitanteId && sl > sv)
    || (g == m.visitanteId && p == m.localId && !(sl > sv))
  }

  /** Winner and loser of a knockout match are its two sides, split by the
      score; for two different teams they differ. */
  lemma WinnerAndLoser(m: Match, sl: int, sv: int)
    requires IsPO(m.fase)
    ensures WonOver(m, sl, sv, GanadorDe(m, sl, sv).value, PerdedorDe(m, sl, sv).value)
    ensures m.localId != m.visitanteId ==> GanadorDe(m, sl, sv) != PerdedorDe(m, sl, sv)
  {
  }

  // ---------------------------------------------------------------------
  // Seeding the first round

  /** `rankIndex.get(id)`: the position of `id` in the general table; the
      last one when it occurs twice, because a later `Map` entry
      overwrites an earlier one. */
  function RankIndex(ranking: seq<Id>, id: Id): (r: Option<nat>)
    ensures r.None? <==> id !in ranking
    ensures r.Some? ==> r.value < |ranking| && ranking[r.value] == id
    ensures r.Some? ==> forall j :: r.value < j < |ranking| ==> ranking[j] != id
  {
    if |ranking| == 0 then None
    else if ranking[|ranking| - 1] == id then Some(|ranking| - 1)
    else
      assert ranking == ranking[..|ranking| - 1] + [ranking[|ranking| - 1]];
      RankIndex(ranking[..|ranking| - 1], id)
  }

  /** `rankIndex.get(id) ?? 999` */
  function Rank(ranking: seq<Id>, id: Id): int {
    match RankIndex(ranking, id)
    case Some(i) => i
    case None => 999
  }

  /** The comparator of `recomputePoPairs`: the better ranked first. */
  function RankLt(ranking: seq<Id>): (Id, Id) -> bool {
    (a: Id, b: Id) => Rank(ranking, a) < Rank(ranking, b)
  }

  lemma RankLtStrict(ranking: seq<Id>)
    ensures StrictOrder(RankLt(ranking))
  {
  }

  /** With fewer than 999 ranked teams an unranked id is seeded after every
      ranked one. */
  lemma UnrankedLast(ranking: seq<Id>, a: Id, b: Id)
    requires |ranking| <= 999 && a in ranking && b !in ranking
    ensures RankLt(ranking)(a, b)
  {
  }

  /** `ordered`: the selection in general-table order. */
  function Seeded(ranking: seq<Id>, selIds: seq<Id>): seq<Id> {
    SortBy(selIds, RankLt(ranking))
  }

  /** One first-round pairing of the configuration form. A team is `None`
      where the array read is out of bounds (`undefined`). */
  datatype PoPair = PoPair(localId: Option<Id>, visitanteId: Option<Id>, fecha: string, cancha: string, slot: nat)

  /** `s[i]`, `None` out of bounds. */
  function At(s: seq<Id>, i: int): (r: Option<Id>)
    ensures r.Some? <==> 0 <= i < |s|
    ensures r.Some? ==> r.value == s[i]
  {
    if 0 <= i < |s| then Some(s[i]) else None
  }

  /** Pair `i` of the seeding: the `i`-th best against the `i`-th worst. */
  function PairAt(ordered: seq<Id>, i: nat): PoPair {
    PoPair(At(ordered, i), At(ordered, |ordered| - 1 - i), "", "", i)
  }

  /** The first `k` pairs of the seeding. */
  function Pairs(ordered: seq<Id>, k: nat): (r: seq<PoPair>)
    ensures |r| == k
  {
    if k == 0 then [] else Pairs(ordered, k - 1) + [PairAt(ordered, k - 1)]
  }

  lemma {:induction false} PairsAt(ordered: seq<Id>, k: nat, i: nat)
    requires i < k
    ensures Pairs(ordered, k)[i] == PairAt(ordered, i)
  {
    if i < k - 1 {
      PairsAt(ordered, k - 1, i);
    }
  }

  /** The pairs `recomputePoPairs` builds for a bracket of `n` teams. */
  function PoPairs(ranking: seq<Id>, selIds: seq<Id>, n: nat): seq<PoPair> {
    Pairs(Seeded(ranking, selIds), n / 2)
  }

  /** `recomputePoPairs(selIds, n)` */
  method RecomputePoPairs(ranking: seq<Id>, selIds: seq<Id>, n: nat) returns (pairs: seq<PoPair>)
    ensures pairs == PoPairs(ranking, selIds, n)
  {
    var ordered := Seeded(ranking, selIds);
    pairs := [];
    var i := 0;
    while i < n / 2
      invariant 0 <= i <= n / 2
      invariant pairs == Pairs(ordered, i)
    {
      var localId := At(ordered, i);
      var visitanteId := At(ordered, |ordered| - 1 - i);
      pairs := pairs + [PoPair(localId, visitanteId, "", "", i)];
      i := i + 1;
    }
  }

  /** The seeded order is the selection sorted by rank. */
  lemma SeededSpec(ranking: seq<Id>, selIds: seq<Id>)
    ensures multiset(Seeded(ranking, selIds)) == multiset(selIds)
    ensures SortedBy(Seeded(ranking, selIds), RankLt(ranking))
  {
    RankLtStrict(ranking);
    SortBySorted(selIds, RankLt(ranking));
  }

  /** With exactly `n` selected teams, pair `i` plays the `i`-th best seed
      at home against the `i`-th worst, in slot `i`, and the home team is
      never ranked below its opponent. */
  lemma PoPairsSeeding(ranking: seq<Id>, selIds: seq<Id>, n: nat, i: nat)
    requires |selIds| == n && i < n / 2
    ensures var o := Seeded(ranking, selIds); var p := PoPairs(ranking, selIds, n)[i];
      && p.localId == Some(o[i]) && p.visitanteId == Some(o[n - 1 - i]) && p.slot == i
      && i < n - 1 - i && Rank(ranking, o[i]) <= Rank(ranking, o[n - 1 - i])
  {
    SeededSpec(ranking, selIds);
    PairsAt(Seeded(ranking, selIds), n / 2, i);
  }

  function OptSeq(x: Option<Id>): seq<Id> {
    if x.Some? then [x.value] else []
  }

  /** The teams placed by a list of pairs, pair by pair. */
  function Teams(pairs: seq<PoPair>): seq<Id> {
    if |pairs| == 0 then []
    else
      var last := pairs[|pairs| - 1];
      Teams(pairs[..|pairs| - 1]) + OptSeq(last.localId) + OptSeq(last.visitanteId)
  }

  /** Pairs that place the same teams in the same slots. */
  predicate SameTeams(a: PoPair, b: PoPair) {
    a.localId == b.localId && a.visitanteId == b.visitanteId && a.slot == b.slot
  }

  lemma {:induction false} TeamsOfSame(a: seq<PoPair>, b: seq<PoPair>)
    requires |a| == |b| && forall k :: 0 <= k < |a| ==> SameTeams(a[k], b[k])
    ensures Teams(a) == Teams(b)
  {
    if |a| > 0 {
      TeamsOfSame(a[..|a| - 1], b[..|b| - 1]);
    }
  }

  lemma TeamsSnoc(ps: seq<PoPair>, p: PoPair)
    ensures Teams(ps + [p]) == Teams(ps) + OptSeq(p.localId) + OptSeq(p.visitanteId)
  {
    assert (ps + [p])[..|ps|] == ps;
  }

  /** The `k` best and the `k` worst seeds, best and worst alternating. */
  function BestAndWorst<T>(o: seq<T>, k: nat): seq<T>
    requires k <= |o|
  {
    if k == 0 then [] else BestAndWorst(o, k - 1) + [o[k - 1], o[|o| - k]]
  }

  lemma {:induction false} TeamsOfPairs(o: seq<Id>, k: nat)
    requires 2 * k <= |o|
    ensures Teams(Pairs(o, k)) == BestAndWorst(o, k)
  {
    if k > 0 {
      TeamsOfPairs(o, k - 1);
      TeamsSnoc(Pairs(o, k - 1), PairAt(o, k - 1));
    }
  }

  /** The first `k` pairs hold the `k` best and the `k` worst seeds: with
      the seeds between them they make up the whole list. */
  lemma {:induction false} BestAndWorstMultiset<T>(o: seq<T>, k: nat)
    requires 2 * k <= |o|
    ensures multiset(BestAndWorst(o, k)) + multiset(o[k..|o| - k]) == multiset(o)
  {
    if k > 0 {
      var j := k - 1;
      BestAndWorstMultiset(o, j);
      MiddleStep(o, j, k);
      BestAndWorstStep(o, j, k);
      Regroup(multiset(BestAndWorst(o, j)), multiset{o[j], o[|o| - k]}, multiset(o[k..|o| - k]));
    } else {
      assert o[0..|o|] == o;
    }
  }

  lemma Regroup<T>(a: multiset<T>, e: multiset<T>, m: multiset<T>)
    ensures (a + e) + m == a + (e + m)
  {
  }

  /** Pair `k` adds the `k`-th best and the `k`-th worst seeds. */
  lemma BestAndWorstStep<T>(o: seq<T>, j: nat, k: nat)
    requires k == j + 1 && 2 * k <= |o|
    ensures multiset(BestAndWorst(o, k)) == multiset(BestAndWorst(o, j)) + multiset{o[j], o[|o| - k]}
  {
    var p := BestAndWorst(o, j);
    var x, y := o[j], o[|o| - k];
    assert BestAndWorst(o, k) == p + [x, y];
    MultisetAppendPair(p, x, y);
  }

  lemma MultisetAppendPair<T>(p: seq<T>, x: T, y: T)
    ensures multiset(p + [x, y]) == multiset(p) + multiset{x, y}
  {
    assert multiset([x, y]) == multiset{x, y};
  }

  lemma MultisetWrap<T>(x: T, m: seq<T>, y: T)
    ensures multiset([x] + m + [y]) == multiset{x, y} + multiset(m)
  {
  }

  /** The seeds between the first `j` and the last `j` are the next best,
      the next worst and the seeds between those. */
  lemma MiddleStep<T>(o: seq<T>, j: nat, k: nat)
    requires k == j + 1 && 2 * k <= |o|
    ensures multiset(o[j..|o| - j]) == multiset{o[j], o[|o| - k]} + multiset(o[k..|o| - k])
  {
    var e := |o| - k;
    var m := o[k..e];
    assert o[j..|o| - j] == [o[j]] + m + [o[e]];
    MultisetWrap(o[j], m, o[e]);
  }

  /** With exactly `n` selected teams, `n` even, the pairs are disjoint and
      cover the selection: every selected team is placed as often as it
      was selected. */
  lemma PoPairsCover(ranking: seq<Id>, selIds: seq<Id>, n: nat)
    requires |selIds| == n && n % 2 == 0
    ensures multiset(Teams(PoPairs(ranking, selIds, n))) == multiset(selIds)
  {
    var o := Seeded(ranking, selIds);
    SeededSpec(ranking, selIds);
    TeamsOfPairs(o, n / 2);
    HalvesCover(o, n / 2);
  }

  /** For an even list the best half and the worst half are all of it. */
  lemma HalvesCover<T>(o: seq<T>, h: nat)
    requires |o| == 2 * h
    ensures multiset(BestAndWorst(o, h)) == multiset(o)
  {
    BestAndWorstMultiset(o, h);
    assert o[h..|o| - h] == [];
  }

  /** The form of the playoffs configuration modal. */
  datatype POConfig = POConfig(n: nat, seleccion: seq<Id>, pairs: seq<PoPair>)

  /** `defaultN`: the largest bracket of at most 16 teams that the general
      table fills, 2 when it has fewer than two teams. */
  function DefaultN(count: int): (n: nat)
    ensures n == 2 || n == 4 || n == 8 || n == 16
    ensures count >= 2 ==> n <= count && (n == 16 || count < 2 * n)
    ensures count < 2 ==> n == 2
  {
    var maxN := if count < 16 then count else 16;
    if 16 <= maxN then 16
    else if 8 <= maxN then 8
    else if 4 <= maxN then 4
    else 2
  }

  /** `abrirPOConfig`, on the ids of the general table; `None` is the
      alert that the active mode is not playoffs. */
  function AbrirPOConfig(modo: Modo, ranking: seq<Id>): (r: Option<POConfig>)
    ensures r.Some? <==> modo == Playoffs
    ensures r.Some? ==> r.value.n == DefaultN(|ranking|)
    ensures r.Some? ==> r.value.seleccion == Slice(ranking, 0, r.value.n)
    ensures r.Some? ==> r.value.pairs == PoPairs(ranking, r.value.seleccion, r.value.n)
  {
    if modo != Playoffs then None
    else
      var n := DefaultN(|ranking|);
      var sel := Slice(ranking, 0, n);
      Some(POConfig(n, sel, PoPairs(ranking, sel, n)))
  }

  /** A pair whose two teams are defined. */
  predicate Complete(p: PoPair) {
    p.localId.Some? && p.visitanteId.Some?
  }

  /** The pair has a date and a venue. */
  predicate Scheduled(p: PoPair) {
    p.fecha != "" && Trim(p.cancha) != ""
  }

  /** The first problem the per-pair loop of `guardarPOConfig` reports:
      a missing date, or a venue that is blank once trimmed. */
  function PairsProblem(pairs: seq<PoPair>): (r: Option<Alert>)
    ensures r.None? <==> forall k :: 0 <= k < |pairs| ==> Scheduled(pairs[k])
    ensures r.Some? ==> r.value == CompleteDates || r.value == CompleteVenues
  {
    if |pairs| == 0 then None
    else if pairs[0].fecha == "" then Some(CompleteDates)
    else if Trim(pairs[0].cancha) == "" then Some(CompleteVenues)
    else
      assert forall k :: 1 <= k < |pairs| ==> pairs[k] == pairs[1..][k - 1];
      PairsProblem(pairs[1..])
  }

  /** The match document created for a pair. */
  function PairDraft(p: PoPair, fase: Phase): Draft
    requires Complete(p)
  {
    Draft(p.localId.value, p.visitanteId.value, Pendiente, fase, Some(p.slot), p.fecha, Trim(p.cancha), "", false)
  }

  /** The number of leading pairs whose teams are both defined. */
  function CompletePrefix(pairs: seq<PoPair>): (c: nat)
    ensures c <= |pairs|
    ensures forall k :: 0 <= k < c ==> Complete(pairs[k])
    ensures c < |pairs| ==> !Complete(pairs[c])
  {
    if |pairs| == 0 || !Complete(pairs[0]) then 0
    else
      assert forall k :: 1 <= k < |pairs| ==> pairs[k] == pairs[1..][k - 1];
      1 + CompletePrefix(pairs[1..])
  }

  /** The `addDoc` calls of `guardarPOConfig`, one per pair in order; the
      store refuses a document with an undefined team, which ends the
      loop. */
  function PairCreates(pairs: seq<PoPair>, fase: Phase): (r: seq<Write>)
    ensures |r| <= |pairs|
    ensures forall k :: 0 <= k < |r| ==> Complete(pairs[k]) && r[k] == CreateMatch(PairDraft(pairs[k], fase))
    ensures |r| < |pairs| ==> !Complete(pairs[|r|])
  {
    var c := CompletePrefix(pairs);
    seq(c, k requires 0 <= k < c => CreateMatch(PairDraft(pairs[k], fase)))
  }

  /** `fasePartidos.filter((m) => m.fase === fase)` */
  function PhaseMatches(partidos: seq<Match>, fase: Phase): seq<Match> {
    Filter(FaseMatches(partidos), (m: Match) => m.fase == fase)
  }

  /** `guardarPOConfig`: the checks, then the deletion of the matches of
      the starting round, then one new match per pair. */
  function GuardarPOConfig(modo: Modo, partidos: seq<Match>, n: int, seleccion: seq<Id>, pairs: seq<PoPair>): (o: Outcome)
    ensures o.Writes? <==>
      modo == Playoffs && |seleccion| == n && 2 * |pairs| == n && PairsProblem(pairs).None?
    ensures o.Rejected? && o.why == PlayoffsModeRequired <==> modo != Playoffs
    ensures o.Rejected? && o.why == ChooseExactlyN <==> modo == Playoffs && |seleccion| != n
    ensures o.Writes? ==>
      o.writes == DeletesOf(PhaseMatches(partidos, SeedName(n))) + PairCreates(pairs, SeedName(n))
    ensures !o.Declined?
  {
    if modo != Playoffs then Rejected(PlayoffsModeRequired)
    else if |seleccion| != n then Rejected(ChooseExactlyN)
    else if 2 * |pairs| != n then Rejected(MissingPairs)
    else if PairsProblem(pairs).Some? then Rejected(PairsProblem(pairs).value)
    else
      var fase := SeedName(n);
      Writes(DeletesOf(PhaseMatches(partidos, fase)) + PairCreates(pairs, fase))
  }

  /** Replacing the matches of a round (the bracket's starting round, a
      cup's mini-fixture) deletes exactly the existing matches of that
      round, and never a group-stage match. */
  lemma PhaseDeletes(partidos: seq<Match>, fase: Phase, id: Id)
    ensures DeleteMatch(id) in DeletesOf(PhaseMatches(partidos, fase)) <==>
      exists m :: m in partidos && m.fase == fase && m.fase.IsFinalPhase() && m.id == id
  {
    DeletesFilter(FaseMatches(partidos), (m: Match) => m.fase == fase, id);
  }

  /** With at least two teams in the table, `abrirPOConfig` selects the
      best `n` and pairs all of them, slot by slot. */
  lemma OpenedConfigShape(ranking: seq<Id>)
    requires |ranking| >= 2
    ensures var c := AbrirPOConfig(Playoffs, ranking).value;
      && c.seleccion == ranking[..c.n] && |c.seleccion| == c.n && 2 * |c.pairs| == c.n
      && (forall k :: 0 <= k < |c.pairs| ==> Complete(c.pairs[k]) && c.pairs[k].slot == k)
      && multiset(Teams(c.pairs)) == multiset(c.seleccion)
  {
    var c := AbrirPOConfig(Playoffs, ranking).value;
    assert |c.seleccion| == c.n;
    PoPairsCover(ranking, c.seleccion, c.n);
    forall k | 0 <= k < |c.pairs| ensures Complete(c.pairs[k]) && c.pairs[k].slot == k {
      PoPairsSeeding(ranking, c.seleccion, c.n, k);
    }
  }

  /** Pairs with both teams in slots `0, 1, ...`, once their dates and
      venues are filled in, pass the checks of `guardarPOConfig`. */
  lemma FilledPairsSave(partidos: seq<Match>, n: int, seleccion: seq<Id>, pairs: seq<PoPair>, filled: seq<PoPair>)
    requires |seleccion| == n && 2 * |pairs| == n
    requires |filled| == |pairs| && forall k :: 0 <= k < |filled| ==> SameTeams(filled[k], pairs[k])
    requires forall k :: 0 <= k < |filled| ==> Scheduled(filled[k])
    ensures GuardarPOConfig(Playoffs, partidos, n, seleccion, filled).Writes?
    ensures Teams(filled) == Teams(pairs)
  {
    TeamsOfSame(filled, pairs);
  }

  /** ... and are saved as one new match each, in its slot, of the
      requested round. */
  lemma FilledPairsCreate(pairs: seq<PoPair>, filled: seq<PoPair>, fase: Phase)
    requires forall k :: 0 <= k < |pairs| ==> Complete(pairs[k]) && pairs[k].slot == k
    requires |filled| == |pairs| && forall k :: 0 <= k < |filled| ==> SameTeams(filled[k], pairs[k])
    ensures var creates := PairCreates(filled, fase);
      && |creates| == |pairs|
      && forall k :: 0 <= k < |creates| ==> CreatesInSlot(creates[k], fase, k)
  {
    var creates := PairCreates(filled, fase);
    assert |creates| == |filled|;
    forall k | 0 <= k < |creates| ensures CreatesInSlot(creates[k], fase, k) {
      assert SameTeams(filled[k], pairs[k]);
    }
  }

  /** `w` creates a match of round `fase` in slot `k`. */
  predicate CreatesInSlot(w: Write, fase: Phase, k: int) {
    w.CreateMatch? && w.draft.fase == fase && w.draft.poSlot == Some(k)
  }

  /** The form `abrirPOConfig` opens is ready to save once the dates and
      venues are filled in: saving creates one match per pair of the
      starting round, in its slot, placing every selected team once. */
  lemma OpenedConfigSaves(partidos: seq<Match>, ranking: seq<Id>, filled: seq<PoPair>)
    requires |ranking| >= 2
    requires var c := AbrirPOConfig(Playoffs, ranking).value;
      |filled| == |c.pairs| && forall k :: 0 <= k < |filled| ==> SameTeams(filled[k], c.pairs[k])
    requires forall k :: 0 <= k < |filled| ==> Scheduled(filled[k])
    ensures var c := AbrirPOConfig(Playoffs, ranking).value;
      && GuardarPOConfig(Playoffs, partidos, c.n, c.seleccion, filled).Writes?
      && 2 * |PairCreates(filled, SeedName(c.n))| == c.n
      && (forall k :: 0 <= k < c.n / 2 ==> CreatesInSlot(PairCreates(filled, SeedName(c.n))[k], SeedName(c.n), k))
      && multiset(Teams(filled)) == multiset(c.seleccion)
  {
    var c := AbrirPOConfig(Playoffs, ranking).value;
    OpenedConfigShape(ranking);
    FilledPairsSave(partidos, c.n, c.seleccion, c.pairs, filled);
    FilledPairsCreate(c.pairs, filled, SeedName(c.n));
  }

  /** With four to seven teams in the general table the modal opens on a
      four-team bracket, and saving it creates the two semifinals, in
      slots 0 and 1, that the fan-out after the semifinals looks for. */
  lemma FourTeamsOpenSemis(partidos: seq<Match>, ranking: seq<Id>, filled: seq<PoPair>)
    requires 4 <= |ranking| < 8
    requires var c := AbrirPOConfig(Playoffs, ranking).value;
      |filled| == |c.pairs| && forall k :: 0 <= k < |filled| ==> SameTeams(filled[k], c.pairs[k])
    requires forall k :: 0 <= k < |filled| ==> Scheduled(filled[k])
    ensures var c := AbrirPOConfig(Playoffs, ranking).value;
      && c.n == 4
      && GuardarPOConfig(Playoffs, partidos, c.n, c.seleccion, filled).Writes?
      && var w := PairCreates(filled, Semi);
      && |w| == 2
      && CreatesInSlot(w[0], Semi, 0) && CreatesInSlot(w[1], Semi, 1)
  {
    var c := AbrirPOConfig(Playoffs, ranking).value;
    assert c.n == 4;
    assert SeedName(c.n) == Semi;
    OpenedConfigSaves(partidos, ranking, filled);
  }

  // ---------------------------------------------------------------------
  // The semifinal fan-out

  /** A match of the final phase with the result just saved on `matchId`
      applied (`fasePartidosMerged`). */
  function Merge(m: Match, matchId: Id, sl: int, sv: int): Match {
    if m.id == matchId then m.(estado := Finalizado, scoreLocal := Some(sl), scoreVisitante := Some(sv)) else m
  }

  function Merged(partidos: seq<Match>, matchId: Id, sl: int, sv: int): (r: seq<Match>) {
    var fase := FaseMatches(partidos);
    seq(|fase|, k requires 0 <= k < |fase| => Merge(fase[k], matchId, sl, sv))
  }

  /** A semifinal with a slot, finished with both scores. */
  predicate IsClosedSemi(m: Match) {
    m.fase == Semi && m.poSlot.Some? && m.estado == Finalizado && m.HasScores()
  }

  /** `semisCerradas` */
  function ClosedSemis(partidos: seq<Match>, matchId: Id, sl: int, sv: int): seq<Match> {
    Filter(Merged(partidos, matchId, sl, sv), IsClosedSemi)
  }

  /** `s0` and `s1`: the closed semifinal in slot 0, else the first closed
      one; the closed semifinal in slot 1, else the second. */
  function PickSemis(closed: seq<Match>): (p: (Match, Match))
    requires |closed| == 2
    ensures p.0 in closed && p.1 in closed
    ensures (closed[0].poSlot == Some(0) || closed[1].poSlot == Some(0)) ==> p.0.poSlot == Some(0)
    ensures (closed[0].poSlot == Some(1) || closed[1].poSlot == Some(1)) ==> p.1.poSlot == Some(1)
    ensures closed[0].poSlot == Some(0) ==> p.0 == closed[0]
    ensures closed[0].poSlot != Some(0) && closed[1].poSlot == Some(0) ==> p.0 == closed[1]
    ensures closed[0].poSlot != Some(0) && closed[1].poSlot != Some(0) ==> p.0 == closed[0]
    ensures closed[0].poSlot == Some(1) ==> p.1 == closed[0]
    ensures closed[0].poSlot != Some(1) && closed[1].poSlot == Some(1) ==> p.1 == closed[1]
    ensures closed[0].poSlot != Some(1) && closed[1].poSlot != Some(1) ==> p.1 == closed[1]
  {
    var s0 := Find(closed, (m: Match) => m.poSlot == Some(0)).GetOr(closed[0]);
    var s1 := Find(closed, (m: Match) => m.poSlot == Some(1)).GetOr(closed[1]);
    (s0, s1)
  }

  /** When the two closed semifinals hold slots 0 and 1, each is picked
      once, in its own slot. */
  lemma PickSemisBySlot(closed: seq<Match>)
    requires |closed| == 2
    requires {closed[0].poSlot, closed[1].poSlot} == {Some(0), Some(1)}
    ensures PickSemis(closed).0 != PickSemis(closed).1
    ensures PickSemis(closed).0.poSlot == Some(0) && PickSemis(closed).1.poSlot == Some(1)
  {
    assert closed[0].poSlot == Some(0) || closed[1].poSlot == Some(0);
    assert closed[0].poSlot == Some(1) || closed[1].poSlot == Some(1);
  }

  /** As written, two closed semifinals in slots 1 and 3 make `s0` and `s1`
      the same match: the slot-0 fallback takes the first closed one,
      which is also the slot-1 match. */
  lemma PickSemisSameMatch(a: Match, b: Match)
    requires a.poSlot == Some(1) && b.poSlot == Some(3)
    ensures PickSemis([a, b]).0 == PickSemis([a, b]).1 == a
  {
  }

  /** What the fan-out hands to `abrirProgramarDefiniciones`: losers and
      winners by slot, and the existing third-place and final
      placeholders of slot 0. */
  datatype Advance = Advance(perd0: Id, perd1: Id, gan0: Id, gan1: Id, tercer: Option<Match>, final: Option<Match>)

  predicate IsPlaceholder(fase: Phase, m: Match) {
    m.fase == fase && m.poSlot == Some(0)
  }

  /** JS truthiness of an optional id. */
  predicate Truthy(x: Option<Id>) {
    x.Some? && x.value != ""
  }

  /** Both chosen semifinals name both of their teams. */
  predicate SemisHaveTeams(p: (Match, Match)) {
    p.0.localId != "" && p.0.visitanteId != "" && p.1.localId != "" && p.1.visitanteId != ""
  }

  /** `avanzarPlayoffsSiCorresponde(match, sl, sv)`, called after a result
      is saved on `match`; `None` where it returns without opening the
      definitions form. */
  function Avanzar(partidos: seq<Match>, saved: Match, sl: int, sv: int): (r: Option<Advance>)
    ensures r.Some? ==> saved.fase == Semi && sl != sv && |ClosedSemis(partidos, saved.id, sl, sv)| == 2
    ensures (saved.fase == Semi && sl != sv && |ClosedSemis(partidos, saved.id, sl, sv)| == 2
             && SemisHaveTeams(PickSemis(ClosedSemis(partidos, saved.id, sl, sv)))) ==> r.Some?
    ensures r.Some? ==> r.value.perd0 != "" && r.value.perd1 != "" && r.value.gan0 != "" && r.value.gan1 != ""
    ensures r.Some? && r.value.tercer.Some? ==>
      r.value.tercer.value in Merged(partidos, saved.id, sl, sv) && IsPlaceholder(Tercer, r.value.tercer.value)
    ensures r.Some? && r.value.tercer.None? ==> forall m :: m in partidos ==> !IsPlaceholder(Tercer, m)
    ensures r.Some? && r.value.final.Some? ==>
      r.value.final.value in Merged(partidos, saved.id, sl, sv) && IsPlaceholder(Final, r.value.final.value)
    ensures r.Some? && r.value.final.None? ==> forall m :: m in partidos ==> !IsPlaceholder(Final, m)
  {
    if !IsPO(saved.fase) || sl == sv || saved.fase != Semi then None
    else
      var merged := Merged(partidos, saved.id, sl, sv);
      var closed := Filter(merged, IsClosedSemi);
      if |closed| != 2 then None
      else
        var (s0, s1) := PickSemis(closed);
        var gan0 := GanadorDe(s0, s0.scoreLocal.value, s0.scoreVisitante.value);
        var gan1 := GanadorDe(s1, s1.scoreLocal.value, s1.scoreVisitante.value);
        var perd0 := PerdedorDe(s0, s0.scoreLocal.value, s0.scoreVisitante.value);
        var perd1 := PerdedorDe(s1, s1.scoreLocal.value, s1.scoreVisitante.value);
        if !(Truthy(gan0) && Truthy(gan1) && Truthy(perd0) && Truthy(perd1)) then None
        else
          PlaceholderSearch(partidos, saved.id, sl, sv, Tercer);
          PlaceholderSearch(partidos, saved.id, sl, sv, Final);
          Some(Advance(perd0.value, perd1.value, gan0.value, gan1.value,
                       Find(merged, (m: Match) => IsPlaceholder(Tercer, m)),
                       Find(merged, (m: Match) => IsPlaceholder(Final, m))))
  }

  /** Merging a result changes neither phase nor slot, so a placeholder of
      the merged list is missing exactly when the snapshot has none. */
  lemma PlaceholderSearch(partidos: seq<Match>, matchId: Id, sl: int, sv: int, fase: Phase)
    requires fase == Tercer || fase == Final
    ensures Find(Merged(partidos, matchId, sl, sv), (m: Match) => IsPlaceholder(fase, m)).None? ==>
      forall m :: m in partidos ==> !IsPlaceholder(fase, m)
  {
    var merged := Merged(partidos, matchId, sl, sv);
    var fm := FaseMatches(partidos);
    forall m | m in partidos && IsPlaceholder(fase, m)
      ensures exists k :: 0 <= k < |merged| && IsPlaceholder(fase, merged[k])
    {
      assert m in fm;
      var k :| 0 <= k < |fm| && fm[k] == m;
      assert IsPlaceholder(fase, merged[k]);
    }
  }

  /** A semifinal with a slot on which the result is being saved counts as
      closed, although the snapshot still shows it pending. */
  lemma SavedSemiCounts(partidos: seq<Match>, saved: Match, sl: int, sv: int)
    requires saved in partidos && saved.fase == Semi && saved.poSlot.Some?
    ensures Merge(saved, saved.id, sl, sv) in ClosedSemis(partidos, saved.id, sl, sv)
  {
    var fm := FaseMatches(partidos);
    assert saved in fm;
    var k :| 0 <= k < |fm| && fm[k] == saved;
    var merged := Merged(partidos, saved.id, sl, sv);
    assert merged[k] == Merge(saved, saved.id, sl, sv);
    FilterMembers(merged, IsClosedSemi, merged[k]);
  }

  /** The fan-out proposes the losers of the two picked semifinals for the
      third place and the winners for the final, each decided by that
      semifinal's own score. */
  lemma AvanzarPairs(partidos: seq<Match>, saved: Match, sl: int, sv: int)
    requires Avanzar(partidos, saved, sl, sv).Some?
    ensures var adv := Avanzar(partidos, saved, sl, sv).value;
      var (s0, s1) := PickSemis(ClosedSemis(partidos, saved.id, sl, sv));
      && IsClosedSemi(s0) && IsClosedSemi(s1)
      && WonOver(s0, s0.scoreLocal.value, s0.scoreVisitante.value, adv.gan0, adv.perd0)
      && WonOver(s1, s1.scoreLocal.value, s1.scoreVisitante.value, adv.gan1, adv.perd1)
  {
    var closed := ClosedSemis(partidos, saved.id, sl, sv);
    var (s0, s1) := PickSemis(closed);
    assert IsClosedSemi(closed[0]) && IsClosedSemi(closed[1]);
    assert s0 == closed[0] || s0 == closed[1];
    assert s1 == closed[0] || s1 == closed[1];
  }

  /** The two semifinals in slots 0 and 1 between four different teams:
      the final and the third-place match share no team and together
      hold each semifinalist once, winners in the final. */
  lemma FanOutCoversSemifinalists(partidos: seq<Match>, saved: Match, sl: int, sv: int)
    requires Avanzar(partidos, saved, sl, sv).Some?
    requires var c := ClosedSemis(partidos, saved.id, sl, sv); {c[0].poSlot, c[1].poSlot} == {Some(0), Some(1)}
    requires var (s0, s1) := PickSemis(ClosedSemis(partidos, saved.id, sl, sv));
      Distinct([s0.localId, s0.visitanteId, s1.localId, s1.visitanteId])
    ensures var adv := Avanzar(partidos, saved, sl, sv).value;
      var (s0, s1) := PickSemis(ClosedSemis(partidos, saved.id, sl, sv));
      && multiset{adv.gan0, adv.gan1, adv.perd0, adv.perd1}
         == multiset{s0.localId, s0.visitanteId, s1.localId, s1.visitanteId}
      && {adv.gan0, adv.gan1} !! {adv.perd0, adv.perd1}
  {
    var adv := Avanzar(partidos, saved, sl, sv).value;
    var (s0, s1) := PickSemis(ClosedSemis(partidos, saved.id, sl, sv));
    AvanzarPairs(partidos, saved, sl, sv);
    var ids := [s0.localId, s0.visitanteId, s1.localId, s1.visitanteId];
    assert ids[0] != ids[1] && ids[0] != ids[2] && ids[0] != ids[3];
    assert ids[1] != ids[2] && ids[1] != ids[3] && ids[2] != ids[3];
    SplitFour(s0.localId, s0.visitanteId, s1.localId, s1.visitanteId, adv.gan0, adv.perd0, adv.gan1, adv.perd1);
  }

  /** Two disjoint pairs, each split into a winner and a loser. */
  lemma SplitFour(a: Id, b: Id, c: Id, d: Id, g0: Id, p0: Id, g1: Id, p1: Id)
    requires (g0 == a && p0 == b) || (g0 == b && p0 == a)
    requires (g1 == c && p1 == d) || (g1 == d && p1 == c)
    requires a != b && a != c && a != d && b != c && b != d && c != d
    ensures multiset{g0, g1, p0, p1} == multiset{a, b, c, d}
    ensures {g0, g1} !! {p0, p1}
  {
  }

  // ---------------------------------------------------------------------
  // Third place and final

  /** One half of the definitions form: the match to update (`None` to
      create one), the teams, the date field and the venue. */
  datatype DefForm = DefForm(matchId: Option<Id>, localId: Id, visitanteId: Id, fecha: string, cancha: string)
  datatype DefsForm = DefsForm(tercer: DefForm, final: DefForm)

  /** `sCanchaPreferida`: the venue of the first two semifinals of the
      snapshot when it is set, the second one's otherwise, and
      "A definir" when there are not two semifinals or neither has one. */
  function CanchaPreferida(partidos: seq<Match>): (c: string)
    ensures c != ""
    ensures var semis := Filter(FaseMatches(partidos), (m: Match) => m.fase == Semi);
      c == (if |semis| >= 2 && semis[0].cancha != "" then semis[0].cancha
            else if |semis| >= 2 && semis[1].cancha != "" then semis[1].cancha
            else "A definir")
  {
    var semis := Filter(FaseMatches(partidos), (m: Match) => m.fase == Semi);
    if |semis| >= 2 then
      var c0 := semis[0].cancha;
      var c1 := semis[1].cancha;
      if c0 != "" && c1 != "" && c0 == c1 then c0 else OrElse(c0, OrElse(c1, "A definir"))
    else "A definir"
  }

  /** One half of `abrirProgramarDefiniciones`: the existing placeholder's
      id, date and venue where it has them. `fmt` stands for
      `toDatetimeLocalValue` of a timestamp in seconds and `porDefecto`
      for the default date computed from the clock. */
  function DefFor(partidos: seq<Match>, existing: Option<Match>, localId: Id, visitanteId: Id,
                  fmt: int -> string, porDefecto: string): (d: DefForm)
    ensures d.localId == localId && d.visitanteId == visitanteId
    ensures d.matchId.Some? <==> existing.Some? && existing.value.id != ""
    ensures d.matchId.Some? ==> d.matchId.value == existing.value.id
    ensures d.cancha != ""
    ensures existing.Some? && existing.value.cancha != "" ==> d.cancha == existing.value.cancha
    ensures existing.Some? && existing.value.dia.Some? && existing.value.dia.value != 0 ==>
      d.fecha == fmt(existing.value.dia.value)
  {
    match existing
    case None => DefForm(None, localId, visitanteId, porDefecto, CanchaPreferida(partidos))
    case Some(e) =>
      DefForm(if e.id != "" then Some(e.id) else None, localId, visitanteId,
              if e.dia.Some? && e.dia.value != 0 then fmt(e.dia.value) else porDefecto,
              OrElse(e.cancha, CanchaPreferida(partidos)))
  }

  /** `abrirProgramarDefiniciones`: third place between the losers, final
      between the winners. */
  function AbrirProgramarDefiniciones(partidos: seq<Match>, adv: Advance, fmt: int -> string,
                                      porDefectoTercer: string, porDefectoFinal: string): (f: DefsForm)
    ensures f.tercer.localId == adv.perd0 && f.tercer.visitanteId == adv.perd1
    ensures f.final.localId == adv.gan0 && f.final.visitanteId == adv.gan1
  {
    DefsForm(DefFor(partidos, adv.tercer, adv.perd0, adv.perd1, fmt, porDefectoTercer),
             DefFor(partidos, adv.final, adv.gan0, adv.gan1, fmt, porDefectoFinal))
  }

  /** The document written for one definition, always pending and in
      slot 0; `grupo` and `interzonal` are not part of the payload and are
      filled with their empty values only for a created match. */
  function DefDraft(fase: Phase, d: DefForm): Draft {
    Draft(d.localId, d.visitanteId, Pendiente, fase, Some(0), d.fecha, Trim(d.cancha), "", false)
  }

  /** A definition is written once both teams, the date and the venue
      are set. */
  predicate Ready(d: DefForm) {
    d.localId != "" && d.visitanteId != "" && d.fecha != "" && d.cancha != ""
  }

  /** The write of one definition: none unless it is ready; an update of
      the existing match when the form has its id, a new match otherwise. */
  function DefWrites(fase: Phase, d: DefForm): (r: seq<Write>)
    ensures |r| <= 1
    ensures |r| == 1 <==> Ready(d)
    ensures |r| == 1 ==> (r[0].UpdateMatch? <==> Truthy(d.matchId)) && (r[0].CreateMatch? <==> !Truthy(d.matchId))
    ensures |r| == 1 && r[0].UpdateMatch? ==> r[0].matchId == d.matchId.value
    ensures |r| == 1 ==> r[0].draft == DefDraft(fase, d)
  {
    if Ready(d) then
      if Truthy(d.matchId) then [UpdateMatch(d.matchId.value, DefDraft(fase, d))]
      else [CreateMatch(DefDraft(fase, d))]
    else []
  }

  /** `w` creates or updates a match of round `fase`. */
  predicate WritesPhase(w: Write, fase: Phase) {
    (w.CreateMatch? || w.UpdateMatch?) && w.draft.fase == fase
  }

  /** `w` writes a pending match of round `fase` in slot 0. */
  predicate WritesDef(w: Write, fase: Phase) {
    WritesPhase(w, fase) && w.draft.poSlot == Some(0) && w.draft.estado == Pendiente
  }

  /** `guardarDefsProgramacion`: the third-place write first, then the
      final's; each is a pending match in slot 0 between the form's teams. */
  function GuardarDefsProgramacion(form: DefsForm): (w: seq<Write>)
    ensures |w| == (if Ready(form.tercer) then 1 else 0) + (if Ready(form.final) then 1 else 0)
    ensures Ready(form.tercer) ==>
      && WritesDef(w[0], Tercer)
      && w[0].draft.localId == form.tercer.localId && w[0].draft.visitanteId == form.tercer.visitanteId
    ensures Ready(form.final) ==>
      && WritesDef(w[|w| - 1], Final)
      && w[|w| - 1].draft.localId == form.final.localId && w[|w| - 1].draft.visitanteId == form.final.visitanteId
  {
    var t := DefWrites(Tercer, form.tercer);
    var f := DefWrites(Final, form.final);
    assert |t| == 1 ==> WritesDef(t[0], Tercer);
    assert |f| == 1 ==> WritesDef(f[0], Final);
    JoinEnds(t, f);
    t + f
  }

  /** The ends of a join of two lists of at most one element each. */
  lemma JoinEnds<T>(t: seq<T>, f: seq<T>)
    requires |t| <= 1 && |f| <= 1
    ensures |t + f| == |t| + |f|
    ensures |t| == 1 ==> (t + f)[0] == t[0]
    ensures |f| == 1 ==> (t + f)[|t + f| - 1] == f[0]
  {
  }

  /** The two definitions are written as two matches in slot 0, losers in
      the third-place match and winners in the final; an existing
      placeholder with an id is updated in place, so no second third-place
      match or final is created. */
  predicate SavesDefinitions(adv: Advance, w: seq<Write>) {
    && |w| == 2
    && (w[0].CreateMatch? || w[0].UpdateMatch?) && (w[1].CreateMatch? || w[1].UpdateMatch?)
    && w[0].draft.fase == Tercer && w[0].draft.localId == adv.perd0 && w[0].draft.visitanteId == adv.perd1
    && w[1].draft.fase == Final && w[1].draft.localId == adv.gan0 && w[1].draft.visitanteId == adv.gan1
    && w[0].draft.poSlot == Some(0) && w[1].draft.poSlot == Some(0)
    && (adv.tercer.Some? && adv.tercer.value.id != "" <==> w[0].UpdateMatch?)
    && (w[0].UpdateMatch? ==> w[0].matchId == adv.tercer.value.id)
    && (adv.final.Some? && adv.final.value.id != "" <==> w[1].UpdateMatch?)
    && (w[1].UpdateMatch? ==> w[1].matchId == adv.final.value.id)
  }

  /** Saving the definitions the modal opens with, when all four teams are
      known and every date formats to a non-empty string. */
  lemma DefsSave(partidos: seq<Match>, adv: Advance, fmt: int -> string, defTercer: string, defFinal: string)
    requires adv.perd0 != "" && adv.perd1 != "" && adv.gan0 != "" && adv.gan1 != ""
    requires defTercer != "" && defFinal != ""
    requires forall s :: fmt(s) != ""
    ensures var form := AbrirProgramarDefiniciones(partidos, adv, fmt, defTercer, defFinal);
      SavesDefinitions(adv, GuardarDefsProgramacion(form))
  {
    var form := AbrirProgramarDefiniciones(partidos, adv, fmt, defTercer, defFinal);
    assert form.tercer.fecha != "" && form.final.fecha != "";
  }

  /** Saving the definitions proposed after both semifinals close. */
  lemma ProposalSaves(partidos: seq<Match>, saved: Match, sl: int, sv: int, fmt: int -> string, defTercer: string, defFinal: string)
    requires Avanzar(partidos, saved, sl, sv).Some?
    requires defTercer != "" && defFinal != ""
    requires forall s :: fmt(s) != ""
    ensures var adv := Avanzar(partidos, saved, sl, sv).value;
      var form := AbrirProgramarDefiniciones(partidos, adv, fmt, defTercer, defFinal);
      SavesDefinitions(adv, GuardarDefsProgramacion(form))
  {
    DefsSave(partidos, Avanzar(partidos, saved, sl, sv).value, fmt, defTercer, defFinal);
  }

  // ---------------------------------------------------------------------
  // Saving over a finished third-place match or final

  /** As written: the placeholder is looked up by phase and slot only, so
      a third-place match or final that is already finished is proposed
      again, and saving the proposal updates that match by id back to
      pending (the payload leaves its scores in place). */
  lemma FinishedPlaceholderReopened(partidos: seq<Match>, e: Match, fase: Phase, localId: Id, visitanteId: Id,
                                    fmt: int -> string, porDefecto: string)
    requires IsPlaceholder(fase, e) && e.estado == Finalizado && e.id != ""
    requires localId != "" && visitanteId != "" && porDefecto != ""
    requires forall s :: fmt(s) != ""
    ensures var w := DefWrites(fase, DefFor(partidos, Some(e), localId, visitanteId, fmt, porDefecto));
      && |w| == 1 && w[0].UpdateMatch? && w[0].matchId == e.id
      && w[0].draft.estado == Pendiente && w[0].draft.fase == e.fase
  {
    var d := DefFor(partidos, Some(e), localId, visitanteId, fmt, porDefecto);
    assert d.fecha != "";
  }

  /** `id` names a finished match of the snapshot. */
  predicate FinishedId(partidos: seq<Match>, id: Id) {
    exists m :: m in partidos && m.id == id && m.estado == Finalizado
  }

  /** Corrected: a definition whose match is already finished is left
      alone; otherwise it is written as `DefWrites` writes it. */
  function ProtectedDefWrites(partidos: seq<Match>, fase: Phase, d: DefForm): (r: seq<Write>)
    ensures forall k :: 0 <= k < |r| && r[k].UpdateMatch? ==> !FinishedId(partidos, r[k].matchId)
    ensures Truthy(d.matchId) && FinishedId(partidos, d.matchId.value) ==> r == []
    ensures !(Truthy(d.matchId) && FinishedId(partidos, d.matchId.value)) ==> r == DefWrites(fase, d)
    ensures forall k :: 0 <= k < |r| ==> WritesPhase(r[k], fase)
  {
    if Truthy(d.matchId) && FinishedId(partidos, d.matchId.value) then [] else DefWrites(fase, d)
  }

  /** Corrected `guardarDefsProgramacion`: it writes a subset of what the
      code writes (`ProtectedWritesSubset`), never updates a finished
      match, and never creates a second match of a phase whose placeholder
      is finished. */
  function GuardarDefsProtegido(partidos: seq<Match>, form: DefsForm): (w: seq<Write>)
    ensures forall k :: 0 <= k < |w| && w[k].UpdateMatch? ==> !FinishedId(partidos, w[k].matchId)
    ensures Truthy(form.tercer.matchId) && FinishedId(partidos, form.tercer.matchId.value) ==>
      forall k :: 0 <= k < |w| ==> !WritesPhase(w[k], Tercer)
    ensures Truthy(form.final.matchId) && FinishedId(partidos, form.final.matchId.value) ==>
      forall k :: 0 <= k < |w| ==> !WritesPhase(w[k], Final)
  {
    var t := ProtectedDefWrites(partidos, Tercer, form.tercer);
    var f := ProtectedDefWrites(partidos, Final, form.final);
    t + f
  }

  /** Every write of the corrected save is one the code makes. */
  lemma ProtectedWritesSubset(partidos: seq<Match>, form: DefsForm)
    ensures forall k :: 0 <= k < |GuardarDefsProtegido(partidos, form)| ==>
      GuardarDefsProtegido(partidos, form)[k] in GuardarDefsProgramacion(form)
  {
    var t := ProtectedDefWrites(partidos, Tercer, form.tercer);
    var f := ProtectedDefWrites(partidos, Final, form.final);
    var dt := DefWrites(Tercer, form.tercer);
    var df := DefWrites(Final, form.final);
    assert GuardarDefsProgramacion(form) == dt + df;
    assert t == [] || t == dt;
    assert f == [] || f == df;
  }

  /** The corrected save keeps every promise of the proposal when neither
      placeholder is finished. */
  lemma ProtectedProposalSaves(partidos: seq<Match>, saved: Match, sl: int, sv: int, fmt: int -> string,
                               defTercer: string, defFinal: string)
    requires Avanzar(partidos, saved, sl, sv).Some?
    requires defTercer != "" && defFinal != ""
    requires forall s :: fmt(s) != ""
    requires var adv := Avanzar(partidos, saved, sl, sv).value;
      && (adv.tercer.Some? ==> !FinishedId(partidos, adv.tercer.value.id))
      && (adv.final.Some? ==> !FinishedId(partidos, adv.final.value.id))
    ensures var adv := Avanzar(partidos, saved, sl, sv).value;
      var form := AbrirProgramarDefiniciones(partidos, adv, fmt, defTercer, defFinal);
      SavesDefinitions(adv, GuardarDefsProtegido(partidos, form))
  {
    var adv := Avanzar(partidos, saved, sl, sv).value;
    var form := AbrirProgramarDefiniciones(partidos, adv, fmt, defTercer, defFinal);
    ProposalSaves(partidos, saved, sl, sv, fmt, defTercer, defFinal);
    assert GuardarDefsProtegido(partidos, form) == GuardarDefsProgramacion(form);
  }
}
