# Tournament progression engine, modelled in Dafny

This project models the logic of a tournament-management web app that is not
about storage. Teams play a round-robin group stage. Then comes a final
phase, which is one of two things: three independent cups (Oro, Plata,
Bronce), or a single-elimination playoff bracket. The page holds a snapshot
of the teams and the matches. Its handlers turn the snapshot, plus a form, into
one of three results:

- an alert;
- nothing;
- a list of store writes (create, update or delete a match or team; set the
  cups document; set the mode).

Here each handler is a pure function with that result: `Domain.Outcome`, which
is `Rejected(alert)`, `Declined` or `Writes(list)`. The derived views (standings, group tables,
cup tables, the scorer ranking) are functions of the snapshot. Three of them
build their result step by step in the source: `buildTable`,
`calcularPosiciones` and `goleadores`. Each of these is an imperative method
proved equal to a specification function. Lemmas then prove what the views
promise about that function.

Modules, one file each:

- `common.dfy`: Option, and the string helpers (trim, ASCII case mapping,
  code-point ordering `StrLess`, proved a strict total order). Also Dedup,
  Slice, Filter and Find.
- `sorting.dfy`: a stable insertion sort `SortBy`, the model of
  `Array.prototype.sort`. It proves the result is sorted and a permutation
  of its input.
- `domain.dfy`: phases, matches, teams, writes, alerts, outcomes,
  `equiposMap`, the final-phase match filter.
- `standings.dfy`: `buildTable`.
- `groups.dfy`: active groups, teams per group, finished results, and the
  general, per-group and per-cup tables.
- `teams.dfy`: `nameKey`, proved to ignore ASCII case, combining marks,
  white space at either end and the length of white-space runs; and the team
  create, edit and delete handlers.
- `matches.dfy`: the pickers of the new-match form, `guardarPartido`,
  `saveResultado`.
- `bracket.dfy`: the playoff round names, winner/loser, the seeding of the
  first round, `guardarPOConfig`, and the semifinal fan-out into third place
  and final.
- `cups.dfy`: the cup recommendation, auto assignment, the manual roster
  editor (toggle, quotas, save), and the round-robin mini fixtures of cups and
  groups.
- `mode.dfy`: the exclusive cups/playoffs mode switch.
- `scorers.dfy`: the top-scorer ranking `goleadores`.
- `posiciones.dfy`: `calcularPosiciones` of `src/lib/posiciones.js`.
- `torneos.dfy`: the tournament list page (`src/routes/Torneos.jsx`).
  This covers the category index, colour hue, category options, the
  filter, sort and pagination pipeline, and the save-form checks.

Three behaviours of the code worth knowing; the model follows the code:

- Saving the third-place or final proposal over an existing match updates it
  by id. It sets `estado` back to pending even when that match was already
  finished (`src/routes/Torneo.jsx:789-804`); nothing protects a finished
  final. This is listed under Findings, with a corrected save beside it.
- A team's group is frozen by any group-stage match of its old group in which
  it takes part. This includes pending matches, not only played ones
  (`src/routes/Torneo.jsx:639-659`).
- For an interzonal match whose local team has no group, the visitor picker
  still offers every other team with a group
  (`src/routes/Torneo.jsx:556-558`), but saving such a match is refused
  (`src/routes/Torneo.jsx:1376-1382`). The save handler is the guard; see
  `Matches.PickerOffersRefusedInterzonal`.

A note on the fan-out. `avanzarPlayoffsSiCorresponde` picks `s0` as the closed
semifinal in slot 0, else the first closed one, and `s1` likewise for slot 1.
The two closed semis might carry slots other than 0 and 1 (say 1 and 3). Then
both picks are the same match (`Bracket.PickSemisSameMatch`). Brackets
created by `guardarPOConfig` with four teams always use slots 0 and 1. Under
that condition `Bracket.PickSemisBySlot` and
`Bracket.FanOutCoversSemifinalists` prove the intended pairing.

## Model

| member | source | states |
|---|---|---|
| Common.Trim | src/routes/Torneo.jsx:127-133 | the result is the slice of the input left after removing its leading and trailing white space: white space only outside the slice, none at either end of it, empty exactly when the input is all white space |
| Sorting.SortBySorted | src/routes/Torneo.jsx:301-307 | the stable insertion sort used for every `Array.prototype.sort` call returns a list sorted by any strict order |
| Common.Find | src/routes/Torneo.jsx:1215-1216 | `.find`: the first element that passes the test, none exactly when no element passes |
| Domain.FindTeam | src/routes/Torneo.jsx:506-510 | the first team with the id asked for, as `.find` returns; nothing exactly when no team has that id |
| Domain.NamesMap | src/routes/Torneo.jsx:961-965 | a key for every team id and no other, mapped to the name of the last team listed with that id, as the loop overwrites |
| Domain.DeletesFilter | src/routes/Torneo.jsx:1445-1465 | deleting the matches that pass a filter deletes exactly the ids of matches that pass it |
| Standings.BuildTable | src/routes/Torneo.jsx:259-308 | the loop that mutates the table dictionary, then the closing loop, then the sort, returns exactly the specification `Table` |
| Standings.EnsureRow | src/routes/Torneo.jsx:261-272 | `ensure(id)` updates the dictionary and the key order exactly as the functional `Ensure` does |
| Standings.CountScore | src/routes/Torneo.jsx:281-294 | the field-by-field `++`/`+=` updates of one counted match give the functional `Score` |
| Standings.FinalizeRows | src/routes/Torneo.jsx:296-300 | the closing loop keeps the keys and gives every row `dif`/`pts` as the functional rows do |
| Standings.TallyStats | src/routes/Torneo.jsx:274-295 | a team has a row exactly when it played a match with two finite scores; its pj/pg/pp/pf/pc equal the sums of its per-match contributions; its name is `equiposMap[id] \|\| "Equipo"` |
| Standings.TableRow | src/routes/Torneo.jsx:274-300 | every output row carries the per-team sums, `dif = pf - pc`, `pts = 2*pg + pp` and the display name, and belongs to a team that played a counted match |
| Standings.TableMembers | src/routes/Torneo.jsx:261-272 | a team is in the table exactly when it played a counted match, and no team appears twice |
| Standings.RanksBeforeTotal | src/routes/Torneo.jsx:301-307 | two rows that differ in points, difference, points for or name are ordered one way or the other |
| Standings.TableSorted | src/routes/Torneo.jsx:301-307 | the table is ordered by points desc, then difference desc, then points for desc, then name asc |
| Groups.GroupOf | src/routes/Torneo.jsx:506-510 | `""` for an empty id or an unknown team, else the team's group upper-cased and trimmed |
| Groups.GruposActivosSpec | src/routes/Torneo.jsx:968-975 | the active groups are exactly the non-empty labels some team carries, strictly increasing (so each appears once) |
| Groups.EquiposDeGrupoSpec | src/routes/Torneo.jsx:977-987 | the teams of a group are exactly the teams with that label, ordered by name, and none is added |
| Groups.ResultadosSpec | src/routes/Torneo.jsx:994-1001 | the results are exactly the finished group-stage matches, latest first |
| Groups.PosicionesGrupoSpec | src/routes/Torneo.jsx:1030-1060 | every row of a group table is a team of the group, counted over the intra-group and interzonal matches it was fed, and the table keeps the tie-break order |
| Groups.PosicionesGrupoComplete | src/routes/Torneo.jsx:1030-1060 | every team of the group that played a counted match of those fed to the table has a row |
| Groups.PosicionesCopaSpec | src/routes/Torneo.jsx:1110-1129 | a cup table has a row exactly for the teams of a finished match of that cup |
| Groups.CupMatchesAppear | src/routes/Torneo.jsx:1099-1107 | a team counts in the finished matches of a cup exactly when it plays in one of them |
| Teams.StripMarks | src/routes/Torneo.jsx:127-133 | no combining mark U+0300..U+036F is left, every kept character comes from the input, and a string without marks is unchanged |
| Teams.StripMarksIsFilter | src/routes/Torneo.jsx:127-133 | dropping marks keeps exactly the characters outside U+0300..U+036F, in their order: it is the filter of the input by `Unmarked` |
| Teams.StripMarksAppend | src/routes/Torneo.jsx:127-133 | dropping marks works piece by piece over a concatenation |
| Teams.Collapse | src/routes/Torneo.jsx:127-133 | no white space other than `' '` and no two spaces in a row are left, marks are not introduced, and a leading space comes from leading white space |
| Teams.CollapseRun | src/routes/Torneo.jsx:127-133 | a run of white space of any length and kind between any two strings collapses exactly as a single space does |
| Teams.CollapseAppend | src/routes/Torneo.jsx:127-133 | collapsing works piece by piece across a boundary that does not split a white-space run |
| Teams.CollapseSpaces | src/routes/Torneo.jsx:127-133 | a run of white space on its own becomes one space |
| Teams.CollapseFixed | src/routes/Torneo.jsx:127-133 | a string whose only white space is single spaces is unchanged |
| Teams.NameKeyForm | src/routes/Torneo.jsx:127-133 | every key is trimmed, free of combining marks and upper-case ASCII, and has single spaces only |
| Teams.NameKeyFixed | src/routes/Torneo.jsx:127-133 | a string already of that form is its own key |
| Teams.NameKeyIdempotent | src/routes/Torneo.jsx:127-133 | the key of a key is that key |
| Teams.NameKeyUpper | src/routes/Torneo.jsx:125-133 | an upper-cased name has the same key as the name |
| Teams.NameKeyIgnoresCase | src/routes/Torneo.jsx:125-133 | two names that differ only in the case of ASCII letters have the same key |
| Teams.NameKeyIgnoresMark | src/routes/Torneo.jsx:125-133 | inserting a combining mark anywhere leaves the key unchanged |
| Teams.NameKeyStripMarks | src/routes/Torneo.jsx:125-133 | a name without its combining marks has the same key |
| Teams.NameKeyLeadingSpace | src/routes/Torneo.jsx:125-133 | white space before the name leaves the key unchanged |
| Teams.NameKeyTrailingSpace | src/routes/Torneo.jsx:125-133 | white space after the name leaves the key unchanged |
| Teams.NameKeyTrim | src/routes/Torneo.jsx:125-133 | the key of the trimmed name is the key of the name |
| Teams.NameKeyInnerRun | src/routes/Torneo.jsx:125-133 | any two non-empty runs of white space between the same two strings give the same key |
| Teams.CrearEquipo | src/routes/Torneo.jsx:3474-3503 | alert "name required" exactly for an empty trimmed name, "name exists" exactly when another team has the same key; otherwise one create of the trimmed name, its key, the trimmed logo and the stored group |
| Teams.CrearEquipoRefusesSameKey | src/routes/Torneo.jsx:3479-3487 | a non-blank name with the key of a stored team (so one differing only in case, marks or spacing) is refused with "name exists" |
| Teams.CrearEquipoKeepsKeysUnique | src/routes/Torneo.jsx:3479-3487 | an accepted create keeps the name keys of the teams pairwise distinct |
| Teams.GuardarEdicionEquipo | src/routes/Torneo.jsx:616-681 | the same name checks, excluding the edited team; "group frozen" exactly when the group changes and the team has a group-stage match of its old group; otherwise one update of the team |
| Teams.EdicionKeepsKeysUnique | src/routes/Torneo.jsx:628-633 | with unique team ids, an accepted edit keeps the name keys pairwise distinct |
| Teams.EdicionGroupFreeze | src/routes/Torneo.jsx:639-659 | an accepted change of group means the team has no group-stage match in its old group |
| Teams.BorrarEquipo | src/routes/Torneo.jsx:1427-1443 | rejected exactly when some match involves the team; the delete is written exactly when the user confirms and no match involves it |
| Teams.BorrarEquipoKeepsReferences | src/routes/Torneo.jsx:1429-1435 | after an accepted delete every match still names two existing teams |
| Matches.ElegiblesParaSpec | src/routes/Torneo.jsx:544-570 | the options of a picker are exactly the eligible teams (not the other side's team; same group unless interzonal; a grouped team and a different group if interzonal), by name |
| Matches.GuardarPartido | src/routes/Torneo.jsx:1352-1406 | "choose distinct teams" exactly for a missing or repeated id; writes exactly when both group rules pass; the one create stores `grupo` only for a non-interzonal match of two teams of the same non-empty group |
| Matches.ElegiblesAgreeWithGuardar | src/routes/Torneo.jsx:1357-1397 | for groups stored by the team forms, once the local team is chosen and, for an interzonal match, has a group, a visitor the picker offers is exactly one the save handler's group rules accept |
| Matches.PickerOffersRefusedInterzonal | src/routes/Torneo.jsx:544-570 | without that last condition the two part ways: for an interzonal match whose local team has no group, the visitor picker offers every other grouped team and saving the match is refused with "interzonal needs groups" |
| Matches.GuardarRefusesUngroupedInterzonal | src/routes/Torneo.jsx:1376-1382 | an interzonal match whose local team has no group is refused with "interzonal needs groups", however complete the rest of the form |
| Matches.SaveResultado | src/routes/Torneo.jsx:1246-1294 | a result is written exactly when both scores are finite, non-negative and unequal and every named top scorer has numeric points; "no draws" exactly for equal valid scores; the write sets both scores, the finished state, and the tops when a top scorer is named |
| Matches.SaveResultadoDecides | src/routes/Torneo.jsx:1249-1262 | the stored match is finished, counts in the tables and gives exactly one team a win and the other a loss |
| Bracket.NextFase | src/routes/Torneo.jsx:312-319 | a next round exactly for octavos, cuartos and semi; it is the knockout round of half as many teams (16, 8, 4, 2), so octavos→cuartos→semi→final |
| Bracket.SeedName | src/routes/Torneo.jsx:1723-1732 | a knockout round exactly for 2, 4, 8, 16 teams, and the round of that many teams: final, semi, cuartos, octavos |
| Bracket.SeedNameHalves | src/routes/Torneo.jsx:1723-1732 | halving the bracket size gives the next round, and different sizes start different rounds |
| Bracket.GanadorDe | src/routes/Torneo.jsx:323-326 | a winner exactly for a knockout round (not the third-place match), and it is one of the two sides |
| Bracket.PerdedorDe | src/routes/Torneo.jsx:329-332 | a loser exactly for a knockout round, and it is one of the two sides |
| Bracket.WinnerAndLoser | src/routes/Torneo.jsx:323-332 | winner and loser are the two sides split by score (local wins exactly when its score is higher), and differ for different teams |
| Bracket.RankIndex | src/routes/Torneo.jsx:1736 | the last position of the id in the general ranking, absent exactly when unranked |
| Bracket.UnrankedLast | src/routes/Torneo.jsx:1739 | with fewer than 999 ranked teams an unranked id is seeded after every ranked one |
| Bracket.RecomputePoPairs | src/routes/Torneo.jsx:1735-1747 | the loop builds exactly the pairs of the seeding specification |
| Bracket.SeededSpec | src/routes/Torneo.jsx:1737-1739 | the seeded order is a permutation of the selection, sorted by general-table rank |
| Bracket.PoPairsSeeding | src/routes/Torneo.jsx:1741-1745 | with `n` selected teams, pair `i` is (`i`-th best, `i`-th worst) in slot `i`, and the home team is never ranked lower |
| Bracket.PoPairsCover | src/routes/Torneo.jsx:1735-1747 | with exactly `n` selected teams the pairs use every selected team once |
| Bracket.DefaultN | src/routes/Torneo.jsx:1755-1756 | the default size is 2, 4, 8 or 16: the largest one that fits the ranked teams, and 2 below two teams |
| Bracket.AbrirPOConfig | src/routes/Torneo.jsx:1749-1762 | opens exactly in playoffs mode, with the default size `n`, the top `n` of the general table as selection, and their seeded pairs |
| Bracket.OpenedConfigShape | src/routes/Torneo.jsx:1749-1762 | the opened form has `n` selected teams, `n/2` complete pairs in slots 0.. and uses every selected team once |
| Bracket.PairsProblem | src/routes/Torneo.jsx:1775-1780 | no problem exactly when every pair has teams, a date and a venue |
| Bracket.PairCreates | src/routes/Torneo.jsx:1790-1801 | one create per pair, in order, each in its round and slot; the sequential creates stop at the first pair without both teams, whose write the store refuses |
| Bracket.GuardarPOConfig | src/routes/Torneo.jsx:1764-1807 | rejected outside playoffs mode, or when the selection is not `n`; writes exactly when also `2*pairs = n` and every pair is scheduled; the writes delete the round's old matches, then create the pairs |
| Bracket.PhaseDeletes | src/routes/Torneo.jsx:1784-1789 | exactly the stored matches of that round are deleted |
| Bracket.FilledPairsSave | src/routes/Torneo.jsx:1771-1780 | a seeded configuration whose pairs received dates and venues is accepted, with its teams unchanged |
| Bracket.FilledPairsCreate | src/routes/Torneo.jsx:1790-1801 | those pairs become one create per slot, each in its own slot |
| Bracket.OpenedConfigSaves | src/routes/Torneo.jsx:1749-1807 | the opened configuration, once scheduled, saves `n/2` matches in slots 0.. that use every selected team once |
| Bracket.FourTeamsOpenSemis | src/routes/Torneo.jsx:1749-1807 | with four to seven ranked teams the modal opens a four-team bracket whose save creates two semifinals, in slots 0 and 1 |
| Bracket.PickSemis | src/routes/Torneo.jsx:1215-1216 | `s0` is the first closed semifinal in slot 0 if any, else the first closed one; `s1` the first in slot 1 if any, else the second |
| Bracket.PickSemisBySlot | src/routes/Torneo.jsx:1215-1216 | with slots 0 and 1 the two picks are different matches, in slots 0 and 1 |
| Bracket.PickSemisSameMatch | src/routes/Torneo.jsx:1215-1216 | closed semis in slots 1 and 3 make both picks the same match |
| Bracket.Avanzar | src/routes/Torneo.jsx:1180-1241 | a proposal exactly for a saved semifinal with unequal scores, two closed slotted semis after merging the result, and teams on both picks; an existing third-place or final placeholder (slot 0) is found in the merged list, and none is reported only when the snapshot has none |
| Bracket.AvanzarPairs | src/routes/Torneo.jsx:1218-1221 | each proposed winner beat the proposed loser of the same semifinal |
| Bracket.FanOutCoversSemifinalists | src/routes/Torneo.jsx:1200-1241 | with slots 0 and 1 and four distinct teams, the winners and losers are those four teams, and no winner is a loser |
| Bracket.CanchaPreferida | src/routes/Torneo.jsx:727-736 | with two or more semifinals, the first one's venue, else the second's; otherwise "A definir"; never empty |
| Bracket.DefFor | src/routes/Torneo.jsx:738-768 | each proposal row keeps its teams, the existing match's id, venue and date when set, and always some venue |
| Bracket.AbrirProgramarDefiniciones | src/routes/Torneo.jsx:738-768 | third place is loser 0 against loser 1, the final winner 0 against winner 1 |
| Bracket.DefWrites | src/routes/Torneo.jsx:777-804 | a ready row (both teams, date, venue) gives one write, an update by id when it has a match id and a create otherwise, pending in slot 0 |
| Bracket.GuardarDefsProgramacion | src/routes/Torneo.jsx:770-805 | one write per ready row; the third-place write comes first and the final's last, each a pending match of its round in slot 0 between the row's teams |
| Bracket.DefsSave | src/routes/Torneo.jsx:770-805 | with all four teams known the modal's definitions save two writes: third place (losers) and final (winners), each a create or update in slot 0, updating the placeholder by id exactly when one was found |
| Bracket.ProposalSaves | src/routes/Torneo.jsx:770-805 | the same for the definitions proposed once both semifinals close |
| Bracket.FinishedPlaceholderReopened | src/routes/Torneo.jsx:1225-1230 | as written: a finished third-place match or final in slot 0 is proposed again, and saving updates it by id back to pending |
| Bracket.ProtectedDefWrites | src/routes/Torneo.jsx:789-804 | corrected: a row whose match is already finished writes nothing, otherwise as the code writes it; no update targets a finished match |
| Bracket.GuardarDefsProtegido | src/routes/Torneo.jsx:770-805 | corrected: never updates a finished match, and writes no match of a round whose placeholder is finished |
| Bracket.ProtectedWritesSubset | src/routes/Torneo.jsx:770-805 | corrected: every write of the protected save is one the code makes |
| Bracket.ProtectedProposalSaves | src/routes/Torneo.jsx:770-805 | corrected: when neither placeholder is finished, the protected save of the proposal keeps every promise of `ProposalSaves` |
| Cups.GroupPicks | src/routes/Torneo.jsx:1519-1528 | the loop over the group tables puts the leaders in Oro, the seconds in Plata, the thirds in Bronce |
| Cups.RecomendacionCopas | src/routes/Torneo.jsx:1510-1529 | the method computes exactly the recommendation specification |
| Cups.RecomendacionPerGroup | src/routes/Torneo.jsx:1519-1528 | with two or more active groups, a team is in a cup exactly when it holds that cup's place (1st, 2nd, 3rd) in some group table, and a cup has at most one team per group |
| Cups.RecommendGeneral | src/routes/Torneo.jsx:1511-1518 | with fewer than two active groups, Oro is the 1st of the general table, Plata the 2nd and Bronce the 3rd and 4th, where they exist |
| Cups.RecomendacionExclusive | src/routes/Torneo.jsx:1510-1529 | no team is recommended twice, within a cup or across cups |
| Cups.GroupTablesSeparate | src/routes/Torneo.jsx:1030-1060 | a team has a row in at most one group table, at most once |
| Cups.GeneralIdsDistinct | src/routes/Torneo.jsx:1024-1027 | the general table lists each team once |
| Cups.GuardarCopasManual | src/routes/Torneo.jsx:1622-1654 | rejected outside cups mode, then for a roster over its quota, then for a team listed twice; otherwise one write of the three rosters and the quotas |
| Cups.SavedRostersExclusive | src/routes/Torneo.jsx:1630-1639 | saved rosters fit their quotas and are pairwise disjoint, each without repeats |
| Cups.AsignarCopasAuto | src/routes/Torneo.jsx:1531-1552 | writes exactly in cups mode: the recommendation, with quotas `max(1, size)` for Oro and Plata and the roster size for Bronce |
| Cups.AutoAssignmentAccepted | src/routes/Torneo.jsx:1531-1552 | the auto assignment would also pass the manual save's checks |
| Cups.AbrirCopasManual | src/routes/Torneo.jsx:1554-1578 | opens only in cups mode, with the stored rosters and quotas if any, else the recommendation with quotas of its roster sizes, an empty roster giving 1, 1 and 2 |
| Cups.OpenedEditorSaves | src/routes/Torneo.jsx:1554-1654 | an editor opened in cups mode, on the recommendation or on stored rosters that pass the checks, saves unchanged |
| Cups.AutoRellenarCopas | src/routes/Torneo.jsx:1580-1606 | the method builds exactly the fill specification, for both the general and the by-group variant |
| Cups.FillTop | src/routes/Torneo.jsx:1580-1590 | without groups the rosters are consecutive slices of the general table, as long as the quotas allow |
| Cups.FillAccepted | src/routes/Torneo.jsx:1580-1606 | a fill respects the quotas and lists no team twice |
| Cups.AutoRellenoTop | src/routes/Torneo.jsx:1580-1590 | the general fill takes the first `oro+plata+bronce` ranked teams |
| Cups.AutoRellenoAccepted | src/routes/Torneo.jsx:1580-1654 | a general fill is accepted by the manual save |
| Cups.ToggleCopaAsWrittenMoves | src/routes/Torneo.jsx:1608-1620 | as written, toggling moves the team into the target cup, whatever its current place |
| Cups.ToggleCopaNeverUnchecks | src/routes/Torneo.jsx:1608-1620 | as written, the toggled team is always in the target cup afterwards |
| Cups.ToggleCopaStuck | src/routes/Torneo.jsx:1608-1620 | as written, toggling a checked team changes nothing |
| Cups.ToggleCopaSpec | src/routes/Torneo.jsx:1608-1620 | corrected: a team in the cup leaves it; otherwise it is put in that cup once and taken out of the others; no other team moves |
| Cups.ToggleCopaTwice | src/routes/Torneo.jsx:1608-1620 | corrected: toggling twice restores the team's membership in every cup |
| Cups.ClampQuota | src/routes/Torneo.jsx:3985-3991 | the quota is the value when in `[0, teams]`, else 0 or the team count |
| Cups.ClampQuotaIdempotent | src/routes/Torneo.jsx:3985-3991 | clamping a clamped quota changes nothing |
| Cups.SetQuota | src/routes/Torneo.jsx:3985-3991 | only the edited cup's quota changes, to the clamped value |
| Cups.AllPairsSpec | src/routes/Torneo.jsx:1664-1672 | `k` ids give `k(k-1)/2` pairs: every `(ids[i], ids[j])` with `i < j` occurs, and no other pair |
| Cups.PairIndexOrdered | src/routes/Torneo.jsx:1664-1672 | the pairs come in lexicographic order of their index pairs |
| Cups.RoundRobin | src/routes/Torneo.jsx:1664-1672 | the nested loop builds exactly the all-pairs specification |
| Cups.AbrirModalFixtureCopa | src/routes/Torneo.jsx:1656-1676 | refused outside cups mode or with fewer than two teams, with the matching alert; otherwise the modal holds all pairs of the roster |
| Cups.AbrirModalFixtureGrupo | src/routes/Torneo.jsx:1827-1844 | refused for fewer than two teams in the group; otherwise all pairs of the group's teams |
| Cups.FixtureProblem | src/routes/Torneo.jsx:1686-1691 | no problem exactly when every pair has a date and a venue |
| Cups.FixtureCreates | src/routes/Torneo.jsx:1699-1711 | one create per pair, in order, in the cup's phase |
| Cups.GuardarFixtureCopa | src/routes/Torneo.jsx:1678-1720 | rejected outside cups mode; nothing without a cup or pairs; writes exactly when every pair has a date and a venue: delete the cup's old matches, then create one per pair |
| Cups.OpenedFixtureSaves | src/routes/Torneo.jsx:1656-1720 | the modal's pairs, once scheduled, are saved: `k(k-1)/2` creates, after deleting exactly the cup's stored matches |
| Mode.CambiarModo | src/routes/Torneo.jsx:1467-1507 | nothing for the same mode or a declined confirmation; otherwise the new mode is written last |
| Mode.ModeWrittenLast | src/routes/Torneo.jsx:1467-1502 | every write before the final mode write is a deletion |
| Mode.PlayoffDeletes | src/routes/Torneo.jsx:1445-1452 | exactly the final-phase matches outside the cups are deleted, and the cups document is kept |
| Mode.CupDeletes | src/routes/Torneo.jsx:1453-1465 | exactly the cup matches and the cups document are deleted |
| Mode.ToCopasDeletes | src/routes/Torneo.jsx:1467-1507 | going to cups deletes exactly the playoff matches |
| Mode.ToPlayoffsDeletes | src/routes/Torneo.jsx:1467-1507 | going to playoffs deletes exactly the cup matches and the cups document |
| Mode.SwitchKeepsExclusive | src/routes/Torneo.jsx:1445-1507 | with distinct match ids a switch never deletes a group-stage match, and leaves no match of the vacated mode |
| Posiciones.CalcularPosiciones | src/lib/posiciones.js:1-38 | the `forEach` loops that mutate the table, then the sort, return exactly the specification `Posiciones` |
| Posiciones.SeedRows | src/lib/posiciones.js:3-12 | the loop over `equipos` builds exactly the seeded dictionary `Init`, a repeated id keeping its first place |
| Posiciones.CountMatches | src/lib/posiciones.js:13-27 | the loop over `partidos` leaves exactly the functional `Tally` of the seeded dictionary |
| Posiciones.CountMatch | src/lib/posiciones.js:13-27 | one iteration of the match loop equals the functional `Count` |
| Posiciones.Increment | src/lib/posiciones.js:18-26 | each `++` on a row object adds to that one row and leaves the key order alone |
| Posiciones.FinalizeRows | src/lib/posiciones.js:28-30 | the points loop keeps the keys and sets `pts` as the functional rows do |
| Posiciones.InitWellFormed | src/lib/posiciones.js:3-12 | after the first loop every listed team has a zero row under the last name listed for its id |
| Posiciones.PosicionesRows | src/lib/posiciones.js:3-12 | the result has one row per listed id, including teams without matches, none twice, each with the last name listed for its id |
| Posiciones.PosicionesCounts | src/lib/posiciones.js:13-30 | each row's pj/pg/pp are the sums over the played matches between listed teams, `pts = 2*pg + pp`, and a team with no such match has zeros |
| Posiciones.QuietTeam | src/lib/posiciones.js:14-17 | a team in no counted match accumulates nothing |
| Posiciones.IgnoredMatch | src/lib/posiciones.js:14-17 | a match not marked played, or naming an unlisted team, leaves the table unchanged |
| Posiciones.TallyAt | src/lib/posiciones.js:18-27 | each row's counts grow by exactly that team's share of the counted matches |
| Posiciones.PosicionesTotals | src/lib/posiciones.js:18-27 | over the whole table total pg equals total pp, and total pj is twice the number of counted matches |
| Posiciones.BeforeTotal | src/lib/posiciones.js:31-37 | two rows that differ in pts, pg, pp or name are ordered one way or the other |
| Posiciones.PosicionesSorted | src/lib/posiciones.js:31-37 | the result is ordered by pts desc, then pg desc, then pp asc, then name asc |
| Scorers.RankGoleadores | src/routes/Torneo.jsx:1938-1964 | the loop over the results that mutates the accumulator, then the sort, returns exactly the specification `Ranking` |
| Scorers.PushSide | src/routes/Torneo.jsx:1941-1957 | one side of one result updates the accumulator as the functional `Push` does |
| Scorers.FoldAt | src/routes/Torneo.jsx:1940-1960 | an entry exists for a key exactly when some counted annotation has it; its total is the sum of those points and its pj their number |
| Scorers.FoldAligned | src/routes/Torneo.jsx:1940-1960 | the key list and the entry map hold the same keys, each key once |
| Scorers.RankingSorted | src/routes/Torneo.jsx:1961-1963 | the ranking is a permutation of the entries, ordered by total desc, then name |
| Scorers.RankingRow | src/routes/Torneo.jsx:1938-1964 | a player key is ranked exactly when annotated, with its summed total and count |
| Scorers.RankingRowsAreEntries | src/routes/Torneo.jsx:1938-1964 | every ranked row is the entry of a key starting with its team id, with pj at least 1 and the team's display name |
| Scorers.QuietMatch | src/routes/Torneo.jsx:1942-1945 | a result without a counted annotation changes nothing |
| Scorers.BeforeTotal | src/routes/Torneo.jsx:1961-1963 | two rows that differ in total or name are ordered one way or the other |
| Torneos.CatIdx | src/routes/Torneos.jsx:35-38 | 999 exactly for a category not in the list, else its position |
| Torneos.CatIdxOfCategoria | src/routes/Torneos.jsx:35-38 | the index of the `k`-th category is `k` |
| Torneos.HueIsPolyHash | src/routes/Torneos.jsx:76-80 | the hue is the base-31 polynomial hash of the UTF-16 code units mod 360, and lies in `[0, 360)` |
| Torneos.HueFromString | src/routes/Torneos.jsx:76-80 | the loop computes exactly that hue, in `[0, 360)` |
| Torneos.DynamicCatOptionsSpec | src/routes/Torneos.jsx:169-173 | the options are exactly the listed categories some tournament has, or all categories when none has one |
| Torneos.DynamicCatOptionsOrder | src/routes/Torneos.jsx:169-173 | the options keep the official category order, each once |
| Torneos.FilteredSpec | src/routes/Torneos.jsx:175-182 | a tournament is kept exactly when the trimmed lower-cased query is empty or in its lower-cased name, and the filter is "Todas" or its category |
| Torneos.NoFilterKeepsAll | src/routes/Torneos.jsx:175-182 | an empty query with "Todas" keeps the whole list in order |
| Torneos.SortedSpec | src/routes/Torneos.jsx:184-210 | a permutation of the filtered list, ordered by creation time asc ("antiguos") or desc (default), by name either way, or by category index then name |
| Torneos.VisibleSpec | src/routes/Torneos.jsx:216-217 | the visible list is the first `min(count, total)` tournaments, and more can be loaded exactly when some are hidden |
| Torneos.LoadMoreExtends | src/routes/Torneos.jsx:488 | loading more keeps the visible prefix and adds one page, or what is left, and nothing when all are shown |
| Torneos.PagesShowAll | src/routes/Torneos.jsx:216-217 | `ceil(n/8)` pages show all tournaments, and one page fewer does not |
| Torneos.Guardar | src/routes/Torneos.jsx:230-249 | alert exactly for an empty trimmed name or an unlisted category (which alert); otherwise an update of the edited id or a create, with the trimmed name |

## Left out

- Storage: the snapshot listeners, `addDoc`/`updateDoc`/`deleteDoc`/
  `setDoc`, server timestamps and `deleteField`. They are I/O, so handlers
  return write lists instead. The parallel writes of `Promise.all` are not
  modelled, nor a write that fails half-way.
- Authentication, `canManage` and admin lookups: remote state. Every handler
  is modelled as run by a manager.
- `confirm()` prompts are a boolean input. `alert` is the `Rejected`
  outcome.
- The clock and time zones: the current time, date formatting and parsing
  (`toDatetimeLocalValue`, `fmtFecha`, `ago`). The formatter and the default
  dates are parameters.
- Locale behaviour: `localeCompare` is modelled as code-point order (`StrLess`), and
  `toLowerCase`/`toUpperCase` as the ASCII mapping. NFD normalisation is the
  identity; marks already in the input are still dropped. This is a
  deterministic stand-in, not the browser's collation.
- Numbers are unbounded integers. A score or `puntos` that is missing, not a number or
  not finite is `None`. Fractional scores are not modelled.
- `Posiciones`: a `puntosLocal`/`puntosVisitante` that is `null` or a numeric
  string is not modelled. JavaScript compares `null` as 0 and a numeric
  string as its number, so such a match would count a win or loss in the
  source; the model only has integer scores or `None` (`undefined`, `NaN`),
  and a `None` score counts the match as played only.
- `Scorers`: `Number(null)` is 0, so an annotation whose `puntos` is `null` counts in the source. The
  model counts only present numeric `puntos`.
- `Cups.ClampQuota`: the quota input is an integer. A non-numeric entry, where
  `parseInt` gives `NaN`, is not modelled.
- `Posiciones` and `Standings`: `Object.values` lists integer-like keys first,
  in both `posiciones.js` and the table of `Torneo.jsx` (line 301). The model
  takes insertion order. This only matters for rows tied on every sort key
  and for numeric team ids.
- `Scorers.RankGoleadores`: the name normaliser is a parameter. The ranking
  instantiates it with `Teams.NameKey`. The model does not state that an
  entry's printed name and team come from the first annotation of its key.
  All entries are proved present with the right totals.
- The scorer average `total / pj` is floating point.
- `Torneos` sorting copies the array and sorts it in place. It is modelled as
  the sorted value (`SortBy`), with no array.
- The reset of the visible count when the filters change is a React effect,
  not modelled as state. `visible` takes the count as an input.
- `Array.prototype.sort` is modelled as a stable insertion sort. Engines are
  required to sort stably, so the result is the same.
- The cups document read by `abrirCopasManual` is assumed to carry quotas.
- Handlers that only edit fields are not modelled, as they carry no rule:
  - `revertirResultado` and `guardarMeta`;
  - `nextFase` with `abrirProgramarSiguiente`/`guardarProgramacionSiguiente`;
    only `nextFase` is modelled, because nothing triggers the others;
  - `guardarFixtureGrupo` (the group variant of the fixture save) and
    `borrarCrucesFaseFinal`;
  - the list page's delete, open-create and open-edit handlers.
- Rendering: JSX, modals, tab scrolling, colour pill classes, monograms and
  image upload.

## Findings

| source | as written | input that shows it | evidently intended | confidence | as-written member | corrected member |
|---|---|---|---|---|---|---|
| src/routes/Torneo.jsx:789-804 | the definitions save updates the slot-0 third-place match or final by id with `estado: "pendiente"`, whether or not it is finished; the placeholder lookup at 1225-1230 ignores `estado` | two finished semifinals in slots 0 and 1 and a finished final in slot 0; the semifinal result is saved again and the proposal saved: the final goes back to pending, keeping its old scores | an already-finished final or third-place match is not overwritten | not executed | Bracket.FinishedPlaceholderReopened | Bracket.GuardarDefsProtegido (Bracket.ProtectedDefWrites, Bracket.ProtectedProposalSaves) |
| src/routes/Torneo.jsx:1608-1620 | `toggleCopa` removes the team from every roster before asking whether the target roster has it, so the "remove" branch never runs | Oro = ["a"], toggle Oro on "a": Oro stays ["a"] | clicking a checked team unchecks it | not executed | Cups.ToggleCopaAsWritten (Cups.ToggleCopaStuck, Cups.ToggleCopaNeverUnchecks) | Cups.ToggleCopa (Cups.ToggleCopaSpec, Cups.ToggleCopaTwice) |
