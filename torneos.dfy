/** The tournament list page: the category helpers, the monogram hue, the
    search/filter/sort/pagination pipeline over the tournaments, and the
    validation of the create/edit form. */
module Torneos {
  import opened Common
  import opened Sorting

  /** `CATEGORIAS` */
  const Categorias: seq<string> := [
    "U11", "U13", "U15", "U17", "U19", "Primera",
    "Femenino U11", "Femenino U13", "Femenino U15", "Femenino U17", "Femenino U19", "Femenino Primera"
  ]

  /** `PAGE_SIZE` */
  const PageSize: nat := 8

  /** The category position `catIdx` gives to an unknown category. */
  const Unknown: nat := 999

  /** A tournament document; `nombre` and `categoria` are `""` when absent,
      `createdAt` is the creation timestamp in seconds. */
  datatype Torneo = Torneo(id: string, nombre: string, categoria: string, createdAt: Option<int>)

  lemma CategoriasDistinct()
    ensures Distinct(Categorias) && "" !in Categorias
  {
  }

  // ---------------------------------------------------------------------
  // catIdx

  /** `s.indexOf(c)`, with `|s|` for -1. */
  function IndexOf(s: seq<string>, c: string): (i: nat)
    ensures i <= |s|
    ensures i < |s| ==> s[i] == c
    ensures forall k :: 0 <= k < i ==> s[k] != c
  {
    if |s| == 0 then 0
    else if s[0] == c then 0
    else
      var i := IndexOf(s[1..], c);
      assert forall k :: 1 <= k < 1 + i ==> s[k] == s[1..][k - 1];
      1 + i
  }

  /** `catIdx(c)`: the position of the category in `CATEGORIAS`, or 999. */
  function CatIdx(c: string): (i: nat)
    ensures i == Unknown <==> c !in Categorias
    ensures i != Unknown ==> i < |Categorias| && Categorias[i] == c
  {
    var i := IndexOf(Categorias, c);
    if i == |Categorias| then Unknown else i
  }

  /** Each category sits at its own position. */
  lemma CatIdxOfCategoria(k: nat)
    requires k < |Categorias|
    ensures CatIdx(Categorias[k]) == k
  {
    CategoriasDistinct();
  }

  // ---------------------------------------------------------------------
  // hueFromString

  /** The UTF-16 code units of one character, which `charCodeAt` reads one
      at a time. */
  function CodeUnits(c: char): (us: seq<nat>)
    ensures 1 <= |us| <= 2
    ensures forall k :: 0 <= k < |us| ==> us[k] < 0x10000
  {
    var n := c as int;
    if n < 0x10000 then [n]
    else [0xD800 + (n - 0x10000) / 0x400, 0xDC00 + (n - 0x10000) % 0x400]
  }

  /** The code units of a string, as `s.length` and `s.charCodeAt(i)` see
      them. */
  function Units(s: string): seq<nat> {
    if |s| == 0 then [] else Units(s[..|s| - 1]) + CodeUnits(s[|s| - 1])
  }

  /** One step of the loop: `h = (h * 31 + code) % 360`. */
  function HueStep(h: int, u: int): int {
    (h * 31 + u) % 360
  }

  /** The loop of `hueFromString` over the code units. */
  function Hue(us: seq<nat>): int {
    if |us| == 0 then 0 else HueStep(Hue(us[..|us| - 1]), us[|us| - 1])
  }

  /** The polynomial string hash `u0 * 31^(n-1) + ... + u(n-1)`, without
      any reduction. */
  function PolyHash(us: seq<nat>): nat {
    if |us| == 0 then 0 else PolyHash(us[..|us| - 1]) * 31 + us[|us| - 1]
  }

  /** Reducing modulo 360 after each step gives the polynomial hash reduced
      once, and always a hue in [0, 360). */
  lemma {:induction false} HueIsPolyHash(us: seq<nat>)
    ensures Hue(us) == PolyHash(us) % 360
    ensures 0 <= Hue(us) < 360
  {
    if |us| > 0 {
      var front := us[..|us| - 1];
      HueIsPolyHash(front);
      var x, u := PolyHash(front), us[|us| - 1];
      var q := x / 360;
      assert x == 360 * q + x % 360;
      assert x * 31 + u == 360 * (31 * q) + ((x % 360) * 31 + u);
    }
  }

  /** `hueFromString(s)` as written: a loop over the code units. */
  method HueFromString(s: string) returns (h: int)
    ensures h == Hue(Units(s))
    ensures 0 <= h < 360
  {
    h := 0;
    for i := 0 to |s|
      invariant h == Hue(Units(s[..i]))
    {
      assert s[..i + 1][..i] == s[..i];
      h := StepUnits(h, Units(s[..i]), CodeUnits(s[i]));
    }
    assert s[..|s|] == s;
    HueIsPolyHash(Units(s));
  }

  /** The iterations of the loop for the code units of one character. */
  method StepUnits(h: int, ghost before: seq<nat>, us: seq<nat>) returns (h': int)
    requires h == Hue(before)
    ensures h' == Hue(before + us)
  {
    h' := h;
    assert before + us[..0] == before;
    for j := 0 to |us|
      invariant h' == Hue(before + us[..j])
    {
      assert (before + us[..j + 1])[..|before| + j] == before + us[..j];
      h' := HueStep(h', us[j]);
    }
    assert us[..|us|] == us;
  }

  // ---------------------------------------------------------------------
  // dynamicCatOptions

  /** `present`: the non-empty categories used by some tournament. */
  function Present(torneos: seq<Torneo>): set<string> {
    set k | 0 <= k < |torneos| && torneos[k].categoria != "" :: torneos[k].categoria
  }

  function InPresent(torneos: seq<Torneo>): string -> bool {
    (c: string) => c in Present(torneos)
  }

  /** `fromData.length ? fromData : cats` with `fromData` the entries of
      `cats` present in the data. */
  function OptionsFrom(cats: seq<string>, torneos: seq<Torneo>): seq<string> {
    var fromData := Filter(cats, InPresent(torneos));
    if |fromData| > 0 then fromData else cats
  }

  /** `dynamicCatOptions`: the categories present in the data, in
      `CATEGORIAS` order, or all of them when none is present. */
  function DynamicCatOptions(torneos: seq<Torneo>): seq<string> {
    OptionsFrom(Categorias, torneos)
  }

  /** Some tournament has one of the categories `cats`. */
  predicate AnyListed(cats: seq<string>, torneos: seq<Torneo>) {
    exists k :: 0 <= k < |torneos| && torneos[k].categoria in cats
  }

  lemma PresentMembers(torneos: seq<Torneo>, c: string)
    ensures c in Present(torneos) <==> c != "" && exists k :: 0 <= k < |torneos| && torneos[k].categoria == c
  {
    if c != "" && exists k :: 0 <= k < |torneos| && torneos[k].categoria == c {
      var k :| 0 <= k < |torneos| && torneos[k].categoria == c;
      assert torneos[k].categoria in Present(torneos);
    }
  }

  lemma OptionsMembers(cats: seq<string>, torneos: seq<Torneo>, c: string)
    requires "" !in cats
    ensures AnyListed(cats, torneos) ==> (c in OptionsFrom(cats, torneos) <==>
      c in cats && exists k :: 0 <= k < |torneos| && torneos[k].categoria == c)
    ensures !AnyListed(cats, torneos) ==> OptionsFrom(cats, torneos) == cats
  {
    var fromData := Filter(cats, InPresent(torneos));
    FilterMembers(cats, InPresent(torneos), c);
    PresentMembers(torneos, c);
    if AnyListed(cats, torneos) {
      var k :| 0 <= k < |torneos| && torneos[k].categoria in cats;
      var d := torneos[k].categoria;
      FilterMembers(cats, InPresent(torneos), d);
      PresentMembers(torneos, d);
      assert d in fromData;
    } else if |fromData| > 0 {
      var d := fromData[0];
      FilterMembers(cats, InPresent(torneos), d);
      PresentMembers(torneos, d);
      assert false;
    }
  }

  /** `IndexOf(cats, a) <= IndexOf(cats, b)` */
  function NotAfterIn(cats: seq<string>): (string, string) -> bool {
    (a: string, b: string) => IndexOf(cats, a) <= IndexOf(cats, b)
  }

  lemma {:induction false} IndexOfDistinct(cats: seq<string>, k: nat)
    requires Distinct(cats) && k < |cats|
    ensures IndexOf(cats, cats[k]) == k
  {
  }

  lemma OptionsOrder(cats: seq<string>, torneos: seq<Torneo>)
    requires Distinct(cats)
    ensures var r := OptionsFrom(cats, torneos);
      forall i, j :: 0 <= i < j < |r| ==> IndexOf(cats, r[i]) < IndexOf(cats, r[j])
  {
    forall i, j | 0 <= i < j < |cats| ensures !NotAfterIn(cats)(cats[j], cats[i]) {
      IndexOfDistinct(cats, i);
      IndexOfDistinct(cats, j);
    }
    FilterSorted(cats, InPresent(torneos), NotAfterIn(cats));
  }

  /** With a listed category in the data, the options are exactly the
      categories some tournament has; otherwise they are all of
      `CATEGORIAS`. */
  lemma DynamicCatOptionsSpec(torneos: seq<Torneo>, c: string)
    ensures AnyListed(Categorias, torneos) ==> (c in DynamicCatOptions(torneos) <==>
      c in Categorias && exists k :: 0 <= k < |torneos| && torneos[k].categoria == c)
    ensures !AnyListed(Categorias, torneos) ==> DynamicCatOptions(torneos) == Categorias
  {
    CategoriasDistinct();
    OptionsMembers(Categorias, torneos, c);
  }

  /** The options are listed in the order of `CATEGORIAS`. */
  lemma DynamicCatOptionsOrder(torneos: seq<Torneo>)
    ensures var r := DynamicCatOptions(torneos);
      forall i, j :: 0 <= i < j < |r| ==> CatIdx(r[i]) < CatIdx(r[j])
  {
    CategoriasDistinct();
    OptionsOrder(Categorias, torneos);
    var r := DynamicCatOptions(torneos);
    forall i | 0 <= i < |r| ensures CatIdx(r[i]) == IndexOf(Categorias, r[i]) {
      OptionsMembers(Categorias, torneos, r[i]);
    }
  }

  // ---------------------------------------------------------------------
  // filtered

  /** The test of `filtered` for one tournament, given the trimmed,
      lower-cased query. */
  predicate Keep(t: Torneo, q: string, catFilter: string) {
    && (q == "" || Contains(Lower(t.nombre), q))
    && (catFilter == "Todas" || t.categoria == catFilter)
  }

  /** `filtered` */
  function Filtered(torneos: seq<Torneo>, query: string, catFilter: string): seq<Torneo> {
    var q := Lower(Trim(query));
    Filter(torneos, (t: Torneo) => Keep(t, q, catFilter))
  }

  /** A tournament is kept exactly when its name contains the query (or the
      query is blank) and its category is the one chosen (or any). */
  lemma FilteredSpec(torneos: seq<Torneo>, query: string, catFilter: string, t: Torneo)
    ensures t in Filtered(torneos, query, catFilter) <==>
      && t in torneos
      && (Lower(Trim(query)) == "" || Contains(Lower(t.nombre), Lower(Trim(query))))
      && (catFilter == "Todas" || t.categoria == catFilter)
  {
    var q := Lower(Trim(query));
    FilterMembers(torneos, (t: Torneo) => Keep(t, q, catFilter), t);
  }

  /** A blank query with every category shows the whole list, in order. */
  lemma {:induction false} NoFilterKeepsAll(torneos: seq<Torneo>, query: string)
    requires Trim(query) == ""
    ensures Filtered(torneos, query, "Todas") == torneos
  {
    KeepAll(torneos, (t: Torneo) => Keep(t, Lower(Trim(query)), "Todas"));
  }

  lemma {:induction false} KeepAll<T>(s: seq<T>, keep: T -> bool)
    requires forall k :: 0 <= k < |s| ==> keep(s[k])
    ensures Filter(s, keep) == s
  {
    if s != [] {
      KeepAll(s[1..], keep);
      assert s == [s[0]] + s[1..];
    }
  }

  // ---------------------------------------------------------------------
  // sorted

  /** `t.createdAt?.seconds ?? 0` */
  function Ts(t: Torneo): int {
    t.createdAt.GetOr(0)
  }

  predicate Older(a: Torneo, b: Torneo) { Ts(a) < Ts(b) }
  predicate Newer(a: Torneo, b: Torneo) { Ts(a) > Ts(b) }
  predicate NameAZ(a: Torneo, b: Torneo) { StrLess(a.nombre, b.nombre) }
  predicate NameZA(a: Torneo, b: Torneo) { StrLess(b.nombre, a.nombre) }
  predicate CategoryAZ(a: Torneo, b: Torneo) {
    CatIdx(a.categoria) < CatIdx(b.categoria)
    || (CatIdx(a.categoria) == CatIdx(b.categoria) && StrLess(a.nombre, b.nombre))
  }

  /** The comparator the `switch (sortBy)` picks, as "a ranks strictly
      before b"; any other value sorts as `recientes`. */
  function Comparator(sortBy: string): (Torneo, Torneo) -> bool {
    if sortBy == "antiguos" then Older
    else if sortBy == "nombreAZ" then NameAZ
    else if sortBy == "nombreZA" then NameZA
    else if sortBy == "categoriaAZ" then CategoryAZ
    else Newer
  }

  /** `sorted`: a copy of `filtered`, sorted. */
  function Sorted(filtered: seq<Torneo>, sortBy: string): seq<Torneo> {
    SortBy(filtered, Comparator(sortBy))
  }

  lemma NameAZStrict()
    ensures StrictOrder(NameAZ)
  {
    forall a: Torneo ensures !NameAZ(a, a) {
      StrLessIrreflexive(a.nombre);
    }
    forall a: Torneo, b: Torneo, c: Torneo | NameAZ(a, b) && NameAZ(b, c) ensures NameAZ(a, c) {
      StrLessTransitive(a.nombre, b.nombre, c.nombre);
    }
  }

  lemma NameZAStrict()
    ensures StrictOrder(NameZA)
  {
    forall a: Torneo ensures !NameZA(a, a) {
      StrLessIrreflexive(a.nombre);
    }
    forall a: Torneo, b: Torneo, c: Torneo | NameZA(a, b) && NameZA(b, c) ensures NameZA(a, c) {
      StrLessTransitive(c.nombre, b.nombre, a.nombre);
    }
  }

  lemma CategoryAZStrict()
    ensures StrictOrder(CategoryAZ)
  {
    forall a: Torneo ensures !CategoryAZ(a, a) {
      StrLessIrreflexive(a.nombre);
    }
    forall a: Torneo, b: Torneo, c: Torneo | CategoryAZ(a, b) && CategoryAZ(b, c) ensures CategoryAZ(a, c) {
      if CatIdx(a.categoria) == CatIdx(b.categoria) == CatIdx(c.categoria) {
        StrLessTransitive(a.nombre, b.nombre, c.nombre);
      }
    }
  }

  lemma ComparatorStrict(sortBy: string)
    ensures StrictOrder(Comparator(sortBy))
  {
    if sortBy == "nombreAZ" {
      NameAZStrict();
    } else if sortBy == "nombreZA" {
      NameZAStrict();
    } else if sortBy == "categoriaAZ" {
      CategoryAZStrict();
    }
  }

  /** The sorted list is a reordering of the filtered one, in the order the
      chosen mode asks for. */
  lemma SortedSpec(filtered: seq<Torneo>, sortBy: string)
    ensures multiset(Sorted(filtered, sortBy)) == multiset(filtered)
    ensures var r := Sorted(filtered, sortBy);
      forall i, j :: 0 <= i < j < |r| ==>
        && (sortBy == "antiguos" ==> Ts(r[i]) <= Ts(r[j]))
        && (sortBy == "nombreAZ" ==> !StrLess(r[j].nombre, r[i].nombre))
        && (sortBy == "nombreZA" ==> !StrLess(r[i].nombre, r[j].nombre))
        && (sortBy == "categoriaAZ" ==>
             CatIdx(r[i].categoria) <= CatIdx(r[j].categoria)
             && (CatIdx(r[i].categoria) == CatIdx(r[j].categoria) ==> !StrLess(r[j].nombre, r[i].nombre)))
        && (sortBy !in {"antiguos", "nombreAZ", "nombreZA", "categoriaAZ"} ==> Ts(r[i]) >= Ts(r[j]))
  {
    ComparatorStrict(sortBy);
    SortBySorted(filtered, Comparator(sortBy));
  }

  // ---------------------------------------------------------------------
  // visible / canLoadMore

  /** `sorted.slice(0, visibleCount)` */
  function Visible(sorted: seq<Torneo>, visibleCount: nat): seq<Torneo> {
    Slice(sorted, 0, visibleCount)
  }

  /** `visibleCount < sorted.length` */
  predicate CanLoadMore(sorted: seq<Torneo>, visibleCount: nat) {
    visibleCount < |sorted|
  }

  /** The page shows the first `min(visibleCount, |sorted|)` tournaments,
      and more can be loaded exactly when some are hidden. */
  lemma VisibleSpec(sorted: seq<Torneo>, visibleCount: nat)
    ensures var v := Visible(sorted, visibleCount);
      && |v| == (if visibleCount < |sorted| then visibleCount else |sorted|)
      && v <= sorted
      && (CanLoadMore(sorted, visibleCount) <==> |v| < |sorted|)
  {
  }

  /** "Cargar más" (`visibleCount + PAGE_SIZE`) keeps the page shown and
      adds up to `PAGE_SIZE` tournaments after it. */
  lemma LoadMoreExtends(sorted: seq<Torneo>, visibleCount: nat)
    ensures Visible(sorted, visibleCount) <= Visible(sorted, visibleCount + PageSize)
    ensures |Visible(sorted, visibleCount + PageSize)| - |Visible(sorted, visibleCount)| ==
      (if CanLoadMore(sorted, visibleCount) then
         (if visibleCount + PageSize <= |sorted| then PageSize else |sorted| - visibleCount)
       else 0)
  {
  }

  /** The number of pages needed: after the first page, `Pages(n) - 1`
      clicks on "Cargar más" show everything. */
  function Pages(n: nat): nat {
    if n <= PageSize then 1 else 1 + Pages(n - PageSize)
  }

  lemma {:induction false} PagesShowAll(sorted: seq<Torneo>, n: nat)
    requires n == |sorted|
    ensures !CanLoadMore(sorted, Pages(n) * PageSize)
    ensures Visible(sorted, Pages(n) * PageSize) == sorted
    ensures CanLoadMore(sorted, (Pages(n) - 1) * PageSize)
      || Pages(n) == 1
  {
    if n > PageSize {
      PagesShowAll(sorted[PageSize..], n - PageSize);
    }
  }

  // ---------------------------------------------------------------------
  // guardar

  datatype GuardarAlert =
    | NombreRequerido     // "Poné un nombre para el torneo"
    | CategoriaInvalida   // "Elegí una categoría válida"

  /** The create/edit form. */
  datatype Form = Form(nombre: string, categoria: string)

  /** What `guardar` does: an alert, an update of the edited tournament, or
      a new tournament document (its `createdAt` is the server time). */
  datatype Guardado =
    | Alerta(why: GuardarAlert)
    | Actualizar(id: string, nombre: string, categoria: string)
    | Crear(nombre: string, categoria: string)

  /** `guardar`: `editingId` is `None` (or empty) when creating. */
  function Guardar(form: Form, editingId: Option<string>): (r: Guardado)
    ensures r.Alerta? <==> Trim(form.nombre) == "" || form.categoria !in Categorias
    ensures r.Alerta? ==> (r.why == NombreRequerido <==> Trim(form.nombre) == "")
    ensures r.Actualizar? <==> !r.Alerta? && editingId.Some? && editingId.value != ""
    ensures r.Actualizar? ==> r == Actualizar(editingId.value, Trim(form.nombre), form.categoria)
    ensures r.Crear? ==> r == Crear(Trim(form.nombre), form.categoria)
    ensures !r.Alerta? ==> r.nombre != "" && CatIdx(r.categoria) < |Categorias|
  {
    var nombre := Trim(form.nombre);
    if nombre == "" then Alerta(NombreRequerido)
    else if form.categoria !in Categorias then Alerta(CategoriaInvalida)
    else if editingId.Some? && editingId.value != "" then Actualizar(editingId.value, nombre, form.categoria)
    else Crear(nombre, form.categoria)
  }
}
