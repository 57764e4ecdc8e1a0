/** The top-scorer ranking (`goleadores`): the annotations of the finished
    group-stage matches are accumulated per team and normalised player name,
    then ranked by points. */
module Scorers {
  import opened Common
  import opened Domain
  import opened Sorting
  import Teams

  /** One ranking entry: the name as first written (trimmed), the team, the
      team's display name, the points and the matches counted. */
  datatype Goleador = Goleador(nombre: string, equipoId: Id, equipo: string, total: int, pj: int)

  datatype Side = Local | Visitante

  /** The accumulator `acc`: its entries and the order in which their keys
      were first added (the order `Object.values` lists them in, since no
      key is an integer). */
  datatype Acc = Acc(entries: map<string, Goleador>, keys: seq<string>)

  /** The key normaliser. The accumulation below takes it as a parameter, so
      that its proofs do not unfold `nameKey`; `Goleadores` fixes it to
      `Teams.NameKey`. */
  type Normaliser = string -> string

  function TeamOf(m: Match, side: Side): Id {
    if side == Local then m.localId else m.visitanteId
  }

  /** The annotation `push` counts for a side: one with a non-empty name and
      finite points; `None` when `push` returns early. */
  function CountedTop(m: Match, side: Side): Option<Top> {
    match m.tops
    case None => None
    case Some(ts) =>
      var t := if side == Local then ts.local else ts.visitante;
      if t.Some? && t.value.nombre != "" && t.value.puntos.Some? then t else None
  }

  /** `${teamId}::${nameKey(nombre)}` */
  function KeyOf(teamId: Id, nombre: string, nameKey: Normaliser): string {
    teamId + "::" + nameKey(nombre)
  }

  function NewEntry(t: Top, team: Id, names: map<Id, string>): Goleador {
    Goleador(Trim(t.nombre), team, DisplayName(names, team), 0, 0)
  }

  /** Every listed key has an entry. */
  predicate Listed(a: Acc) {
    forall k :: 0 <= k < |a.keys| ==> a.keys[k] in a.entries
  }

  /** `if (!acc[key]) acc[key] = {...}` */
  function Enter(a: Acc, key: string, e: Goleador): (r: Acc)
    requires Listed(a)
    ensures Listed(r) && key in r.entries
  {
    if key in a.entries then a else Acc(a.entries[key := e], a.keys + [key])
  }

  /** `acc[key].total += puntos; acc[key].pj += 1` */
  function Credit(a: Acc, key: string, puntos: int): (r: Acc)
    requires Listed(a) && key in a.entries
    ensures Listed(r)
  {
    var g := a.entries[key];
    Acc(a.entries[key := g.(total := g.total + puntos, pj := g.pj + 1)], a.keys)
  }

  /** `push(side, teamId)` */
  function Push(a: Acc, m: Match, side: Side, names: map<Id, string>, nameKey: Normaliser): (r: Acc)
    requires Listed(a)
    ensures Listed(r)
  {
    match CountedTop(m, side)
    case None => a
    case Some(t) =>
      var team := TeamOf(m, side);
      var key := KeyOf(team, t.nombre, nameKey);
      Credit(Enter(a, key, NewEntry(t, team, names)), key, t.puntos.value)
  }

  /** The loop over `resultados`, each match pushing its local side, then
      its visiting side. */
  function Fold(ms: seq<Match>, names: map<Id, string>, nameKey: Normaliser): (r: Acc)
    ensures Listed(r)
  {
    if |ms| == 0 then Acc(map[], [])
    else
      var m := ms[|ms| - 1];
      Push(Push(Fold(ms[..|ms| - 1], names, nameKey), m, Local, names, nameKey), m, Visitante, names, nameKey)
  }

  /** `Object.values(acc)` */
  function Values(a: Acc): seq<Goleador>
    requires Listed(a)
  {
    seq(|a.keys|, k requires 0 <= k < |a.keys| => a.entries[a.keys[k]])
  }

  /** The comparator `b.total - a.total || a.nombre.localeCompare(b.nombre)`
      as "a ranks strictly before b". */
  predicate Before(a: Goleador, b: Goleador) {
    a.total > b.total || (a.total == b.total && StrLess(a.nombre, b.nombre))
  }

  function Ranking(resultados: seq<Match>, names: map<Id, string>, nameKey: Normaliser): seq<Goleador> {
    SortBy(Values(Fold(resultados, names, nameKey)), Before)
  }

  /** `goleadores` as a value. */
  function Goleadores(resultados: seq<Match>, names: map<Id, string>): seq<Goleador> {
    Ranking(resultados, names, Teams.NameKey)
  }

  /** The imperative `goleadores`: the loop fills the dictionary, then its
      values are sorted. */
  method RankGoleadores(resultados: seq<Match>, names: map<Id, string>, nameKey: Normaliser)
    returns (ranking: seq<Goleador>)
    ensures ranking == Ranking(resultados, names, nameKey)
  {
    var acc: map<string, Goleador> := map[];
    var keys: seq<string> := [];
    for i := 0 to |resultados|
      invariant Acc(acc, keys) == Fold(resultados[..i], names, nameKey)
    {
      var p := resultados[i];
      FoldStep(resultados, i, names, nameKey);
      acc, keys := PushSide(acc, keys, p, Local, names, nameKey);
      acc, keys := PushSide(acc, keys, p, Visitante, names, nameKey);
    }
    assert resultados[..|resultados|] == resultados;
    var values := Values(Acc(acc, keys));
    ranking := SortBy(values, Before);
  }

  lemma FoldStep(ms: seq<Match>, i: nat, names: map<Id, string>, nameKey: Normaliser)
    requires i < |ms|
    ensures var a := Fold(ms[..i], names, nameKey);
      Fold(ms[..i + 1], names, nameKey)
        == Push(Push(a, ms[i], Local, names, nameKey), ms[i], Visitante, names, nameKey)
  {
    assert ms[..i + 1][..i] == ms[..i];
  }

  /** The body of `push`, updating the dictionary in place. */
  method PushSide(acc: map<string, Goleador>, keys: seq<string>, p: Match, side: Side,
                  names: map<Id, string>, nameKey: Normaliser)
    returns (acc': map<string, Goleador>, keys': seq<string>)
    requires Listed(Acc(acc, keys))
    ensures Acc(acc', keys') == Push(Acc(acc, keys), p, side, names, nameKey)
  {
    var t := CountedTop(p, side);
    if t.None? {
      return acc, keys;
    }
    var team := TeamOf(p, side);
    var key := KeyOf(team, t.value.nombre, nameKey);
    acc', keys' := EnterKey(acc, keys, key, NewEntry(t.value, team, names));
    acc' := CreditKey(acc', keys', key, t.value.puntos.value);
  }

  method EnterKey(acc: map<string, Goleador>, keys: seq<string>, key: string, e: Goleador)
    returns (acc': map<string, Goleador>, keys': seq<string>)
    requires Listed(Acc(acc, keys))
    ensures Acc(acc', keys') == Enter(Acc(acc, keys), key, e)
  {
    acc', keys' := acc, keys;
    if key !in acc' {
      acc' := acc'[key := e];
      keys' := keys' + [key];
    }
  }

  method CreditKey(acc: map<string, Goleador>, keys: seq<string>, key: string, puntos: int)
    returns (acc': map<string, Goleador>)
    requires Listed(Acc(acc, keys)) && key in acc
    ensures Acc(acc', keys) == Credit(Acc(acc, keys), key, puntos)
  {
    var g := acc[key];
    acc' := acc[key := g.(total := g.total + puntos)];
    var h := acc'[key];
    acc' := acc'[key := h.(pj := h.pj + 1)];
    assert acc'[key] == g.(total := g.total + puntos, pj := g.pj + 1);
  }

  // ---------------------------------------------------------------------
  // Reference: the annotations with a given key

  /** The points one side contributes to `key`. */
  function SidePoints(m: Match, side: Side, nameKey: Normaliser, key: string): int {
    match CountedTop(m, side)
    case None => 0
    case Some(t) => if KeyOf(TeamOf(m, side), t.nombre, nameKey) == key then t.puntos.value else 0
  }

  /** 1 when the side's counted annotation has key `key`. */
  function SideHits(m: Match, side: Side, nameKey: Normaliser, key: string): nat {
    match CountedTop(m, side)
    case None => 0
    case Some(t) => if KeyOf(TeamOf(m, side), t.nombre, nameKey) == key then 1 else 0
  }

  /** The sum of the points of the counted annotations with key `key`. */
  function Points(ms: seq<Match>, nameKey: Normaliser, key: string): int {
    if |ms| == 0 then 0
    else
      var m := ms[|ms| - 1];
      Points(ms[..|ms| - 1], nameKey, key) + SidePoints(m, Local, nameKey, key) + SidePoints(m, Visitante, nameKey, key)
  }

  /** The number of counted annotations with key `key`. */
  function Hits(ms: seq<Match>, nameKey: Normaliser, key: string): nat {
    if |ms| == 0 then 0
    else
      var m := ms[|ms| - 1];
      Hits(ms[..|ms| - 1], nameKey, key) + SideHits(m, Local, nameKey, key) + SideHits(m, Visitante, nameKey, key)
  }

  /** `a` holds, under `key`, what the annotations counted so far give. */
  predicate Holds(a: Acc, key: string, points: int, hits: nat, names: map<Id, string>) {
    && (key in a.entries <==> hits > 0)
    && (hits == 0 ==> points == 0)
    && (key in a.entries ==>
      && a.entries[key].total == points
      && a.entries[key].pj == hits
      && a.entries[key].equipoId + "::" <= key
      && a.entries[key].equipo == DisplayName(names, a.entries[key].equipoId))
  }

  lemma PushAt(a: Acc, m: Match, side: Side, names: map<Id, string>, nameKey: Normaliser,
               key: string, points: int, hits: nat)
    requires Listed(a)
    requires Holds(a, key, points, hits, names)
    ensures Holds(Push(a, m, side, names, nameKey), key,
      points + SidePoints(m, side, nameKey, key), hits + SideHits(m, side, nameKey, key), names)
  {
    if CountedTop(m, side).Some? {
      var t := CountedTop(m, side).value;
      var team := TeamOf(m, side);
      var k := KeyOf(team, t.nombre, nameKey);
      assert k[..|team + "::"|] == team + "::";
      var e := Enter(a, k, NewEntry(t, team, names));
      if k == key {
        assert e.entries[key].total == (if key in a.entries then points else 0);
        assert e.entries[key].pj == (if key in a.entries then hits else 0);
        assert e.entries[key].equipoId + "::" <= key;
      } else {
        assert key in e.entries <==> key in a.entries;
        assert key in a.entries ==> e.entries[key] == a.entries[key];
      }
    }
  }

  /** Each key has an entry exactly when some counted annotation has that
      key; the entry's points and matches are the sums over those
      annotations, and its team is the key's prefix. */
  lemma {:induction false} FoldAt(ms: seq<Match>, names: map<Id, string>, nameKey: Normaliser, key: string)
    ensures Holds(Fold(ms, names, nameKey), key, Points(ms, nameKey, key), Hits(ms, nameKey, key), names)
  {
    if |ms| > 0 {
      var front, m := ms[..|ms| - 1], ms[|ms| - 1];
      FoldAt(front, names, nameKey, key);
      var a := Fold(front, names, nameKey);
      PushAt(a, m, Local, names, nameKey, key, Points(front, nameKey, key), Hits(front, nameKey, key));
      PushAt(Push(a, m, Local, names, nameKey), m, Visitante, names, nameKey, key,
        Points(front, nameKey, key) + SidePoints(m, Local, nameKey, key),
        Hits(front, nameKey, key) + SideHits(m, Local, nameKey, key));
    }
  }

  /** The keys are the dictionary's keys, each listed once. */
  ghost predicate Aligned(a: Acc) {
    (forall k :: k in a.entries <==> k in a.keys) && Distinct(a.keys)
  }

  lemma PushAligned(a: Acc, m: Match, side: Side, names: map<Id, string>, nameKey: Normaliser)
    requires Listed(a) && Aligned(a)
    ensures Aligned(Push(a, m, side, names, nameKey))
  {
    if CountedTop(m, side).Some? {
      var t := CountedTop(m, side).value;
      var team := TeamOf(m, side);
      var key := KeyOf(team, t.nombre, nameKey);
      var e := Enter(a, key, NewEntry(t, team, names));
      EnterAligned(a, key, NewEntry(t, team, names));
      CreditAligned(e, key, t.puntos.value);
    }
  }

  lemma EnterAligned(a: Acc, key: string, g: Goleador)
    requires Listed(a) && Aligned(a)
    ensures Aligned(Enter(a, key, g))
  {
    if key !in a.entries {
      var ks := a.keys + [key];
      assert key !in a.keys;
      forall i, j | 0 <= i < j < |ks| ensures ks[i] != ks[j] {
        if j == |a.keys| {
          assert ks[i] == a.keys[i];
        }
      }
    }
  }

  lemma CreditAligned(a: Acc, key: string, puntos: int)
    requires Listed(a) && key in a.entries && Aligned(a)
    ensures Aligned(Credit(a, key, puntos))
  {
    assert Credit(a, key, puntos).entries.Keys == a.entries.Keys;
  }

  lemma {:induction false} FoldAligned(ms: seq<Match>, names: map<Id, string>, nameKey: Normaliser)
    ensures Aligned(Fold(ms, names, nameKey))
  {
    if |ms| > 0 {
      var front, m := ms[..|ms| - 1], ms[|ms| - 1];
      FoldAligned(front, names, nameKey);
      var a := Fold(front, names, nameKey);
      PushAligned(a, m, Local, names, nameKey);
      PushAligned(Push(a, m, Local, names, nameKey), m, Visitante, names, nameKey);
    }
  }

  // ---------------------------------------------------------------------
  // The ranking

  lemma BeforeStrict()
    ensures StrictOrder(Before)
  {
    forall a: Goleador ensures !Before(a, a) {
      StrLessIrreflexive(a.nombre);
    }
    forall a: Goleador, b: Goleador, c: Goleador | Before(a, b) && Before(b, c) ensures Before(a, c) {
      if a.total == b.total == c.total {
        StrLessTransitive(a.nombre, b.nombre, c.nombre);
      }
    }
  }

  /** Of two entries with different points or names, one ranks before the
      other. */
  lemma BeforeTotal(a: Goleador, b: Goleador)
    requires (a.total, a.nombre) != (b.total, b.nombre)
    ensures Before(a, b) || Before(b, a)
  {
    if a.total == b.total {
      StrLessTotal(a.nombre, b.nombre);
    }
  }

  /** The ranking lists the dictionary's entries, one per key, highest
      points first and, on equal points, by name. */
  lemma RankingSorted(resultados: seq<Match>, names: map<Id, string>, nameKey: Normaliser)
    ensures var a := Fold(resultados, names, nameKey);
      && Distinct(a.keys)
      && multiset(Ranking(resultados, names, nameKey)) == multiset(Values(a))
      && SortedBy(Ranking(resultados, names, nameKey), Before)
  {
    FoldAligned(resultados, names, nameKey);
    BeforeStrict();
    SortBySorted(Values(Fold(resultados, names, nameKey)), Before);
  }

  /** The ranking has a row for each key some counted annotation has: its
      points and matches are the sums over the annotations with that key. */
  lemma RankingRow(resultados: seq<Match>, names: map<Id, string>, nameKey: Normaliser, key: string)
    ensures var a := Fold(resultados, names, nameKey);
      && (key in a.keys <==> Hits(resultados, nameKey, key) > 0)
      && (key in a.keys ==>
        && a.entries[key] in Ranking(resultados, names, nameKey)
        && a.entries[key].total == Points(resultados, nameKey, key)
        && a.entries[key].pj == Hits(resultados, nameKey, key))
  {
    FoldAt(resultados, names, nameKey, key);
    FoldAligned(resultados, names, nameKey);
    var a := Fold(resultados, names, nameKey);
    if key in a.keys {
      var k :| 0 <= k < |a.keys| && a.keys[k] == key;
      assert Values(a)[k] == a.entries[key];
      SortByMembers(Values(a), Before, a.entries[key]);
    }
  }

  /** Every row of the ranking is the entry of a key that starts with the
      row's team; it counts at least one match, and carries the team's
      display name. */
  lemma RankingRowsAreEntries(resultados: seq<Match>, names: map<Id, string>, nameKey: Normaliser, g: Goleador)
    requires g in Ranking(resultados, names, nameKey)
    ensures exists key ::
      && key in Fold(resultados, names, nameKey).keys
      && Fold(resultados, names, nameKey).entries[key] == g
      && g.equipoId + "::" <= key
    ensures g.pj >= 1 && g.equipo == DisplayName(names, g.equipoId)
  {
    var a := Fold(resultados, names, nameKey);
    SortByMembers(Values(a), Before, g);
    var k :| 0 <= k < |a.keys| && Values(a)[k] == g;
    FoldAt(resultados, names, nameKey, a.keys[k]);
  }

  /** A match without an annotation that counts leaves the dictionary as it
      was. */
  lemma QuietMatch(ms: seq<Match>, m: Match, names: map<Id, string>, nameKey: Normaliser)
    requires CountedTop(m, Local).None? && CountedTop(m, Visitante).None?
    ensures Fold(ms + [m], names, nameKey) == Fold(ms, names, nameKey)
  {
    assert (ms + [m])[..|ms|] == ms;
  }
}
