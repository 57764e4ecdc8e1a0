/** Team names and the team handlers: the normalised comparison key
    `nameKey`, creating a team, editing a team (duplicate names, the group
    freeze) and deleting a team. */
module Teams {
  import opened Common
  import opened Domain

  /** The combining diacritical marks U+0300..U+036F that `nameKey` drops
      once the name is decomposed. */
  predicate IsMark(c: char) {
    '\U{300}' <= c <= '\U{36F}'
  }

  /** A character that survives the removal of combining marks. */
  predicate Unmarked(c: char) {
    !IsMark(c)
  }

  /** Removes the combining marks and keeps every other character, in
      order. */
  function StripMarks(s: string): (r: string)
    ensures forall i :: 0 <= i < |r| ==> !IsMark(r[i]) && r[i] in s
    ensures (forall i :: 0 <= i < |s| ==> !IsMark(s[i])) ==> r == s
  {
    if s == [] then []
    else
      var rest := StripMarks(s[1..]);
      assert s == [s[0]] + s[1..];
      if IsMark(s[0]) then rest else [s[0]] + rest
  }

  /** Dropping marks is the filter that keeps the unmarked characters, in
      their order. */
  lemma {:induction false} StripMarksIsFilter(s: string)
    ensures StripMarks(s) == Filter(s, Unmarked)
  {
    if s != [] {
      StripMarksIsFilter(s[1..]);
    }
  }

  /** `.replace(/\s+/g, " ")`: each maximal run of white space becomes one
      space. */
  function Collapse(s: string): (r: string)
    ensures (forall i :: 0 <= i < |s| ==> !IsMark(s[i])) ==> (forall i :: 0 <= i < |r| ==> !IsMark(r[i]))
    ensures forall i :: 0 <= i < |r| ==> IsSpace(r[i]) ==> r[i] == ' '
    ensures forall i :: 0 <= i < |r| - 1 ==> !(r[i] == ' ' && r[i + 1] == ' ')
    ensures |r| > 0 && r[0] == ' ' ==> |s| > 0 && IsSpace(s[0])
    decreases |s|
  {
    if s == [] then []
    else if IsSpace(s[0]) then
      var t := TrimStart(s);
      assert |t| < |s|;
      [' '] + Collapse(t)
    else
      [s[0]] + Collapse(s[1..])
  }

  /** `nameKey(s)`: decompose (the identity here), drop combining marks,
      collapse white space, trim, lower-case. */
  function NameKey(s: string): string {
    Lower(Trim(Collapse(StripMarks(s))))
  }

  /** The shape of every key: no combining marks, no upper-case ASCII
      letter, no white space but single inner spaces. */
  predicate KeyForm(k: string) {
    && (forall i :: 0 <= i < |k| ==> !IsMark(k[i]) && !('A' <= k[i] <= 'Z'))
    && (forall i :: 0 <= i < |k| ==> IsSpace(k[i]) ==> k[i] == ' ')
    && (forall i :: 0 <= i < |k| - 1 ==> !(k[i] == ' ' && k[i + 1] == ' '))
    && (k == [] || (k[0] != ' ' && k[|k| - 1] != ' '))
  }

  /** A trimmed string is a slice of the original with no white space at
      either end. */
  lemma {:induction false} TrimSlice(s: string)
    ensures exists a, b :: 0 <= a <= b <= |s| && Trim(s) == s[a..b]
  {
    var t := TrimStart(s);
    var r := TrimEnd(t);
    assert r == s[|s| - |t|..][..|r|];
    assert r == s[|s| - |t|..|s| - |t| + |r|];
  }

  /** No combining marks, no white space but spaces, no two spaces in a
      row: what collapsing leaves. */
  predicate Spaced(t: string) {
    && (forall i :: 0 <= i < |t| ==> !IsMark(t[i]) && (IsSpace(t[i]) ==> t[i] == ' '))
    && (forall i :: 0 <= i < |t| - 1 ==> !(t[i] == ' ' && t[i + 1] == ' '))
  }

  lemma KeyFormTrimmed(c: string)
    requires Spaced(c)
    ensures KeyForm(Lower(Trim(c)))
  {
    TrimSlice(c);
    var a, b :| 0 <= a <= b <= |c| && Trim(c) == c[a..b];
    SliceShape(c, a, b);
    var t := Trim(c);
    assert Spaced(t);
    LowerShape(t);
  }

  lemma SliceShape(c: string, a: nat, b: nat)
    requires a <= b <= |c| && Spaced(c)
    ensures Spaced(c[a..b])
  {
    var t := c[a..b];
    forall i | 0 <= i < |t| ensures t[i] == c[a + i] {
    }
    forall i | 0 <= i < |t| - 1 ensures !(t[i] == ' ' && t[i + 1] == ' ') {
      assert t[i] == c[a + i] && t[i + 1] == c[a + i + 1];
    }
  }

  /** Lower-casing keeps white space, spaces and combining marks where they
      are. */
  lemma LowerShape(t: string)
    requires Spaced(t)
    requires t == [] || (t[0] != ' ' && t[|t| - 1] != ' ')
    ensures KeyForm(Lower(t))
  {
    var k := Lower(t);
    forall i | 0 <= i < |k| ensures (k[i] == ' ' <==> t[i] == ' ') && (IsSpace(k[i]) ==> k[i] == ' ') && !IsMark(k[i]) {
      LowerCharShape(t[i]);
    }
  }

  lemma LowerCharShape(c: char)
    ensures LowerChar(c) == ' ' <==> c == ' '
    ensures IsSpace(LowerChar(c)) <==> IsSpace(c)
    ensures IsMark(LowerChar(c)) <==> IsMark(c)
  {
  }

  /** Every key has the key shape. */
  lemma NameKeyForm(s: string)
    ensures KeyForm(NameKey(s))
  {
    var c := Collapse(StripMarks(s));
    KeyFormTrimmed(c);
  }

  /** A string that already has the key shape is its own key. */
  lemma NameKeyFixed(k: string)
    requires KeyForm(k)
    ensures NameKey(k) == k
  {
    assert StripMarks(k) == k;
    CollapseFixed(k);
    TrimFixed(k);
    LowerFixed(k);
  }

  /** `nameKey` is idempotent: keys compare equal to their own key. */
  lemma NameKeyIdempotent(s: string)
    ensures NameKey(NameKey(s)) == NameKey(s)
  {
    NameKeyForm(s);
    NameKeyFixed(NameKey(s));
  }

  lemma {:induction false} CollapseFixed(k: string)
    requires forall i :: 0 <= i < |k| ==> IsSpace(k[i]) ==> k[i] == ' '
    requires forall i :: 0 <= i < |k| - 1 ==> !(k[i] == ' ' && k[i + 1] == ' ')
    ensures Collapse(k) == k
  {
    if k != [] {
      var rest := k[1..];
      assert forall i :: 0 <= i < |rest| ==> rest[i] == k[i + 1];
      CollapseFixed(rest);
      if IsSpace(k[0]) {
        assert k[0] == ' ';
        if rest != [] {
          assert !IsSpace(rest[0]) by {
            assert !(k[0] == ' ' && k[1] == ' ');
          }
        }
        assert TrimStart(rest) == rest;
        assert TrimStart(k) == rest;
      }
    }
  }

  lemma TrimFixed(k: string)
    requires k == [] || (!IsSpace(k[0]) && !IsSpace(k[|k| - 1]))
    ensures Trim(k) == k
  {
  }

  lemma LowerFixed(k: string)
    requires forall i :: 0 <= i < |k| ==> !('A' <= k[i] <= 'Z')
    ensures Lower(k) == k
  {
  }

  // ---------------------------------------------------------------------
  // What the key ignores: ASCII case, combining marks and spacing

  /** Every character of `w` is white space. */
  predicate AllSpace(w: string) {
    forall i :: 0 <= i < |w| ==> IsSpace(w[i])
  }

  /** Dropping marks distributes over concatenation. */
  lemma {:induction false} StripMarksAppend(a: string, b: string)
    ensures StripMarks(a + b) == StripMarks(a) + StripMarks(b)
  {
    if a == [] {
      assert a + b == b;
    } else {
      assert (a + b)[1..] == a[1..] + b;
      StripMarksAppend(a[1..], b);
    }
  }

  /** White space holds no combining mark. */
  lemma StripMarksSpaces(w: string)
    requires AllSpace(w)
    ensures StripMarks(w) == w
  {
  }

  /** A white-space prefix is trimmed away whatever follows it. */
  lemma {:induction false} TrimStartSpaces(w: string, b: string)
    requires AllSpace(w)
    ensures TrimStart(w + b) == TrimStart(b)
  {
    if w == [] {
      assert w + b == b;
    } else {
      assert (w + b)[1..] == w[1..] + b;
      TrimStartSpaces(w[1..], b);
    }
  }

  /** Once a non-space character is reached, what follows is kept. */
  lemma {:induction false} TrimStartKeeps(a: string, b: string)
    requires TrimStart(a) != []
    ensures TrimStart(a + b) == TrimStart(a) + b
  {
    assert a != [];
    if IsSpace(a[0]) {
      assert (a + b)[1..] == a[1..] + b;
      TrimStartKeeps(a[1..], b);
    } else {
      assert (a + b)[0] == a[0];
    }
  }

  /** A leading run of white space becomes one space, whatever follows. */
  lemma CollapseRunHead(w: string, b: string)
    requires w != [] && AllSpace(w)
    ensures Collapse(w + b) == [' '] + Collapse(TrimStart(b))
  {
    assert (w + b)[0] == w[0];
    TrimStartSpaces(w, b);
  }

  /** Collapsing past a leading run that ends inside `a`. */
  lemma CollapseSpacedPrefix(a: string, x: string)
    requires a != [] && IsSpace(a[0]) && TrimStart(a) != []
    ensures Collapse(a + x) == [' '] + Collapse(TrimStart(a) + x)
  {
    assert (a + x)[0] == a[0];
    TrimStartKeeps(a, x);
  }

  /** Collapsing past a leading character that is not white space. */
  lemma CollapseCharPrefix(a: string, x: string)
    requires a != [] && !IsSpace(a[0])
    ensures Collapse(a + x) == [a[0]] + Collapse(a[1..] + x)
  {
    assert (a + x)[0] == a[0];
    assert (a + x)[1..] == a[1..] + x;
  }

  /** Two tails that both open with white space and agree once it is
      trimmed collapse alike behind any prefix. */
  lemma {:induction false} CollapseTails(a: string, x: string, y: string)
    requires x != [] && IsSpace(x[0]) && y != [] && IsSpace(y[0])
    requires TrimStart(x) == TrimStart(y)
    ensures Collapse(a + x) == Collapse(a + y)
    decreases |a|
  {
    if a == [] {
      assert a + x == x && a + y == y;
    } else if !IsSpace(a[0]) {
      CollapseCharPrefix(a, x);
      CollapseCharPrefix(a, y);
      CollapseTails(a[1..], x, y);
    } else if TrimStart(a) == [] {
      assert AllSpace(a);
      CollapseRunHead(a, x);
      CollapseRunHead(a, y);
    } else {
      var t := TrimStart(a);
      assert t == TrimStart(a[1..]);
      CollapseSpacedPrefix(a, x);
      CollapseSpacedPrefix(a, y);
      CollapseTails(t, x, y);
    }
  }

  /** Collapsing: a run of white space of any length between `a` and `b`
      gives the same result as a single space. */
  lemma CollapseRun(a: string, w: string, b: string)
    requires w != [] && AllSpace(w)
    ensures Collapse(a + w + b) == Collapse(a + [' '] + b)
  {
    var x, y := w + b, [' '] + b;
    assert Collapse(a + x) == Collapse(a + y) by {
      assert x[0] == w[0] && y[0] == ' ';
      TrimStartSpaces(w, b);
      TrimStartSpaces([' '], b);
      CollapseTails(a, x, y);
    }
    Regroup(a, w, b);
    Regroup(a, [' '], b);
  }

  lemma Regroup(a: string, w: string, b: string)
    ensures a + w + b == a + (w + b)
  {
  }

  /** Collapsing works piecewise across a boundary that is not inside a
      run of white space. */
  lemma {:induction false} CollapseAppend(a: string, b: string)
    requires a == [] || !IsSpace(a[|a| - 1])
    ensures Collapse(a + b) == Collapse(a) + Collapse(b)
    decreases |a|
  {
    if a == [] {
      assert a + b == b;
    } else if !IsSpace(a[0]) {
      CollapseCharPrefix(a, b);
      CollapseAppend(a[1..], b);
      assert Collapse(a) == [a[0]] + Collapse(a[1..]);
      Regroup([a[0]], Collapse(a[1..]), Collapse(b));
    } else {
      var t := TrimStart(a);
      assert t != [] && t[|t| - 1] == a[|a| - 1];
      assert t == TrimStart(a[1..]);
      CollapseSpacedPrefix(a, b);
      CollapseAppend(t, b);
      assert Collapse(a) == [' '] + Collapse(t);
      Regroup([' '], Collapse(t), Collapse(b));
    }
  }

  /** A run of white space on its own collapses to one space. */
  lemma CollapseSpaces(w: string)
    requires w != [] && AllSpace(w)
    ensures Collapse(w) == [' ']
  {
    TrimStartSpaces(w, []);
    assert w + [] == w;
  }

  /** A leading space does not survive trimming. */
  lemma TrimLeadingSpace(x: string)
    ensures Trim([' '] + x) == Trim(x)
  {
    TrimStartSpaces([' '], x);
  }

  /** A trailing space does not survive trimming. */
  lemma TrimTrailingSpace(x: string)
    ensures Trim(x + [' ']) == Trim(x)
  {
    var t := TrimStart(x);
    if t == [] {
      assert AllSpace(x);
      TrimStartSpaces(x, [' ']);
      assert TrimStart([' ']) == [];
    } else {
      TrimStartKeeps(x, [' ']);
      assert (t + [' '])[..|t + [' ']| - 1] == t;
    }
  }

  /** Two names whose collapsed, trimmed forms agree have the same key. */
  lemma KeyOfCollapsed(x: string, y: string)
    requires Trim(Collapse(StripMarks(x))) == Trim(Collapse(StripMarks(y)))
    ensures NameKey(x) == NameKey(y)
  {
  }

  /** Collapsing opens with at most one space before the collapse of the
      trimmed input. */
  lemma CollapseHead(m: string)
    ensures Collapse(m) == Collapse(TrimStart(m))
         || Collapse(m) == [' '] + Collapse(TrimStart(m))
  {
  }

  /** White space in front does not survive collapsing and trimming. */
  lemma TrimCollapseLeading(w: string, m: string)
    requires w != [] && AllSpace(w)
    ensures Trim(Collapse(w + m)) == Trim(Collapse(m))
  {
    var x := Collapse(TrimStart(m));
    var c, d := Collapse(w + m), Collapse(m);
    CollapseRunHead(w, m);
    CollapseHead(m);
    assert c == [' '] + x;
    assert d == x || d == [' '] + x;
    TrimLeadingSpace(x);
    TrimLeadingSpace([' '] + x);
  }

  /** Behind a string that does not end in white space, a run of white
      space collapses to one more space. */
  lemma CollapseTrailingRun(m: string, w: string)
    requires w != [] && AllSpace(w)
    requires m == [] || !IsSpace(m[|m| - 1])
    ensures Collapse(m + w) == Collapse(m) + [' ']
  {
    CollapseAppend(m, w);
    CollapseSpaces(w);
  }

  /** Behind a string that ends in white space, more white space changes
      nothing. */
  lemma CollapseLongerRun(u: string, v: string, w: string)
    requires v != [] && AllSpace(v) && AllSpace(w)
    ensures Collapse(u + v + w) == Collapse(u + v)
  {
    var vw := v + w;
    assert AllSpace(vw);
    CollapseRun(u, vw, []);
    CollapseRun(u, v, []);
    Regroup(u, v, w);
    assert u + vw + [] == u + vw;
    assert u + v + [] == u + v;
  }

  /** Collapsing a string followed by white space adds at most one
      space. */
  lemma CollapseTrailing(m: string, w: string)
    requires w != [] && AllSpace(w)
    ensures Collapse(m + w) == Collapse(m) || Collapse(m + w) == Collapse(m) + [' ']
  {
    var u := TrimEnd(m);
    var v := m[|u|..];
    assert m == u + v;
    if v == [] {
      CollapseTrailingRun(m, w);
    } else {
      CollapseLongerRun(u, v, w);
    }
  }

  /** White space behind does not survive collapsing and trimming. */
  lemma TrimCollapseTrailing(m: string, w: string)
    requires w != [] && AllSpace(w)
    ensures Trim(Collapse(m + w)) == Trim(Collapse(m))
  {
    var c, d := Collapse(m + w), Collapse(m);
    CollapseTrailing(m, w);
    assert c == d || c == d + [' '];
    TrimTrailingSpace(d);
  }

  /** Keys ignore white space before the name. */
  lemma NameKeyLeadingSpace(w: string, s: string)
    requires AllSpace(w)
    ensures NameKey(w + s) == NameKey(s)
  {
    if w == [] {
      assert w + s == s;
    } else {
      StripMarksAppend(w, s);
      StripMarksSpaces(w);
      TrimCollapseLeading(w, StripMarks(s));
      KeyOfCollapsed(w + s, s);
    }
  }

  /** Keys ignore white space after the name. */
  lemma NameKeyTrailingSpace(s: string, w: string)
    requires AllSpace(w)
    ensures NameKey(s + w) == NameKey(s)
  {
    if w == [] {
      assert s + w == s;
    } else {
      StripMarksAppend(s, w);
      StripMarksSpaces(w);
      TrimCollapseTrailing(StripMarks(s), w);
      KeyOfCollapsed(s + w, s);
    }
  }

  /** Keys ignore white space around the name: the key of a name is the
      key of the name trimmed. */
  lemma NameKeyTrim(s: string)
    ensures NameKey(Trim(s)) == NameKey(s)
  {
    var a, b :| 0 <= a <= b <= |s| && Trim(s) == s[a..b] && SpaceAround(s, a, b);
    assert SpaceAround(s, a, b);
    assert forall i :: 0 <= i < a ==> IsSpace(s[i]);
    assert forall i :: b <= i < |s| ==> IsSpace(s[i]);
    var pre, mid, post := s[..a], s[a..b], s[b..];
    assert s == pre + (mid + post);
    forall i | 0 <= i < |pre| ensures IsSpace(pre[i]) {
      assert pre[i] == s[i];
    }
    forall i | 0 <= i < |post| ensures IsSpace(post[i]) {
      assert post[i] == s[b + i];
    }
    NameKeyLeadingSpace(pre, mid + post);
    NameKeyTrailingSpace(mid, post);
  }

  /** Keys ignore the length and the kind of the white space between
      words. */
  lemma NameKeyInnerRun(a: string, w1: string, w2: string, b: string)
    requires w1 != [] && AllSpace(w1)
    requires w2 != [] && AllSpace(w2)
    ensures NameKey(a + w1 + b) == NameKey(a + w2 + b)
  {
    var ma, mb := StripMarks(a), StripMarks(b);
    StripMarksAppend(a + w1, b);
    StripMarksAppend(a, w1);
    StripMarksSpaces(w1);
    StripMarksAppend(a + w2, b);
    StripMarksAppend(a, w2);
    StripMarksSpaces(w2);
    CollapseRun(ma, w1, mb);
    CollapseRun(ma, w2, mb);
  }

  /** Dropping marks removes a mark wherever it stands. */
  lemma StripMarksDrops(a: string, c: char, b: string)
    requires IsMark(c)
    ensures StripMarks(a + [c] + b) == StripMarks(a + b)
  {
    var ac, mc := a + [c], [c];
    assert StripMarks(mc) == [];
    StripMarksAppend(a, mc);
    StripMarksAppend(ac, b);
    StripMarksAppend(a, b);
  }

  /** Keys ignore a combining mark anywhere in the name. */
  lemma NameKeyIgnoresMark(a: string, c: char, b: string)
    requires IsMark(c)
    ensures NameKey(a + [c] + b) == NameKey(a + b)
  {
    StripMarksDrops(a, c, b);
    KeyOfCollapsed(a + [c] + b, a + b);
  }

  /** Keys ignore all combining marks at once. */
  lemma NameKeyStripMarks(s: string)
    ensures NameKey(StripMarks(s)) == NameKey(s)
  {
    assert StripMarks(StripMarks(s)) == StripMarks(s);
  }

  /** `a` and `b` differ at most in the case of ASCII letters. */
  predicate SameLower(a: string, b: string) {
    |a| == |b| && forall i :: 0 <= i < |a| ==> LowerChar(a[i]) == LowerChar(b[i])
  }

  /** Case variants agree on marks and white space. */
  lemma LowerCharSame(c: char, d: char)
    requires LowerChar(c) == LowerChar(d)
    ensures IsMark(c) <==> IsMark(d)
    ensures IsSpace(c) <==> IsSpace(d)
  {
  }

  lemma {:induction false} StripMarksSame(a: string, b: string)
    requires SameLower(a, b)
    ensures SameLower(StripMarks(a), StripMarks(b))
  {
    if a != [] {
      LowerCharSame(a[0], b[0]);
      assert SameLower(a[1..], b[1..]);
      StripMarksSame(a[1..], b[1..]);
    }
  }

  lemma {:induction false} TrimStartSame(a: string, b: string)
    requires SameLower(a, b)
    ensures SameLower(TrimStart(a), TrimStart(b))
  {
    if a != [] {
      LowerCharSame(a[0], b[0]);
      if IsSpace(a[0]) {
        assert SameLower(a[1..], b[1..]);
        TrimStartSame(a[1..], b[1..]);
      }
    }
  }

  lemma {:induction false} TrimEndSame(a: string, b: string)
    requires SameLower(a, b)
    ensures SameLower(TrimEnd(a), TrimEnd(b))
  {
    if a != [] {
      LowerCharSame(a[|a| - 1], b[|b| - 1]);
      if IsSpace(a[|a| - 1]) {
        assert SameLower(a[..|a| - 1], b[..|b| - 1]);
        TrimEndSame(a[..|a| - 1], b[..|b| - 1]);
      }
    }
  }

  lemma {:induction false} CollapseSame(a: string, b: string)
    requires SameLower(a, b)
    ensures SameLower(Collapse(a), Collapse(b))
    decreases |a|
  {
    if a != [] {
      LowerCharSame(a[0], b[0]);
      if IsSpace(a[0]) {
        TrimStartSame(a, b);
        assert TrimStart(a) == TrimStart(a[1..]);
        CollapseSame(TrimStart(a), TrimStart(b));
      } else {
        assert SameLower(a[1..], b[1..]);
        CollapseSame(a[1..], b[1..]);
      }
    }
  }

  /** Keys ignore the case of ASCII letters. */
  lemma NameKeyIgnoresCase(a: string, b: string)
    requires SameLower(a, b)
    ensures NameKey(a) == NameKey(b)
  {
    StripMarksSame(a, b);
    CollapseSame(StripMarks(a), StripMarks(b));
    var ca, cb := Collapse(StripMarks(a)), Collapse(StripMarks(b));
    TrimStartSame(ca, cb);
    TrimEndSame(TrimStart(ca), TrimStart(cb));
  }

  lemma LowerUpperChar(c: char)
    ensures LowerChar(UpperChar(c)) == LowerChar(c)
  {
  }

  /** An upper-cased name has the same key as the name. */
  lemma NameKeyUpper(s: string)
    ensures NameKey(Upper(s)) == NameKey(s)
  {
    var u := Upper(s);
    forall i | 0 <= i < |s| ensures LowerChar(u[i]) == LowerChar(s[i]) {
      LowerUpperChar(s[i]);
    }
    NameKeyIgnoresCase(u, s);
  }

  // ---------------------------------------------------------------------
  // The team handlers

  /** The group label a team is stored with: trimmed, upper-cased. */
  function StoredGroup(g: string): string {
    Upper(Trim(g))
  }

  /** The form of the "Nuevo equipo" dialog. */
  datatype TeamForm = TeamForm(nombre: string, grupo: string, logoUrl: string)

  /** Some team other than `except` already has the key `key`. */
  predicate KeyTaken(equipos: seq<Team>, key: string, except: Option<Id>) {
    exists i :: 0 <= i < |equipos| && Some(equipos[i].id) != except && NameKey(equipos[i].nombre) == key
  }

  /** The submit handler of the new-team form. */
  function CrearEquipo(equipos: seq<Team>, form: TeamForm): (o: Outcome)
    ensures o.Rejected? && o.why == NameRequired <==> Trim(form.nombre) == ""
    ensures o.Rejected? && o.why == NameExists <==>
      Trim(form.nombre) != "" && KeyTaken(equipos, NameKey(Trim(form.nombre)), None)
    ensures o.Writes? ==> o.writes == [CreateTeam(Trim(form.nombre), NameKey(Trim(form.nombre)),
                                                  Trim(form.logoUrl), StoredGroup(form.grupo))]
    ensures !o.Declined?
  {
    var nombre := Trim(form.nombre);
    if nombre == "" then Rejected(NameRequired)
    else
      var key := NameKey(nombre);
      if KeyTaken(equipos, key, None) then Rejected(NameExists)
      else Writes([CreateTeam(nombre, key, Trim(form.logoUrl), StoredGroup(form.grupo))])
  }

  /** The duplicate check refuses every name whose key is a stored team's
      key; by the lemmas above that covers a name differing from a stored
      one only in ASCII case, combining marks or spacing. */
  lemma CrearEquipoRefusesSameKey(equipos: seq<Team>, i: int, form: TeamForm)
    requires 0 <= i < |equipos|
    requires Trim(form.nombre) != ""
    requires NameKey(form.nombre) == NameKey(equipos[i].nombre)
    ensures CrearEquipo(equipos, form) == Rejected(NameExists)
  {
    NameKeyTrim(form.nombre);
    assert KeyTaken(equipos, NameKey(Trim(form.nombre)), None);
  }

  /** No two teams share a name key. */
  predicate KeysUnique(equipos: seq<Team>) {
    forall i, j :: 0 <= i < j < |equipos| ==> NameKey(equipos[i].nombre) != NameKey(equipos[j].nombre)
  }

  /** Creating a team keeps the keys unique. */
  lemma CrearEquipoKeepsKeysUnique(equipos: seq<Team>, form: TeamForm, newId: Id)
    requires KeysUnique(equipos)
    requires CrearEquipo(equipos, form).Writes?
    ensures KeysUnique(equipos + [Team(newId, Trim(form.nombre), StoredGroup(form.grupo), Trim(form.logoUrl))])
  {
    var nombre := Trim(form.nombre);
    var e := equipos + [Team(newId, nombre, StoredGroup(form.grupo), Trim(form.logoUrl))];
    TrimIdempotent(form.nombre);
    forall i, j | 0 <= i < j < |e| ensures NameKey(e[i].nombre) != NameKey(e[j].nombre) {
      if j == |equipos| {
        assert !KeyTaken(equipos, NameKey(nombre), None);
        assert e[i] == equipos[i];
      }
    }
  }

  lemma TrimIdempotent(s: string)
    ensures Trim(Trim(s)) == Trim(s)
  {
    TrimFixed(Trim(s));
  }

  /** The edit form of a team. */
  datatype EditForm = EditForm(nombre: string, grupo: string, logoUrl: string)

  /** A group-stage match of the old group `group` that involves `team`
      (pending or finished: the rule looks at every such match). */
  predicate PlayedInGroup(partidos: seq<Match>, team: Id, group: string) {
    exists i :: 0 <= i < |partidos| &&
      partidos[i].fase == Regular && Upper(partidos[i].grupo) != "" &&
      Upper(partidos[i].grupo) == group && partidos[i].Involves(team)
  }

  /** `guardarEdicionEquipo` */
  function GuardarEdicionEquipo(equipos: seq<Team>, partidos: seq<Match>, team: Team, form: EditForm): (o: Outcome)
    ensures o.Rejected? && o.why == NameRequired <==> Trim(form.nombre) == ""
    ensures o.Rejected? && o.why == NameExists <==>
      Trim(form.nombre) != "" && KeyTaken(equipos, NameKey(Trim(form.nombre)), Some(team.id))
    ensures o.Rejected? && o.why == GroupFrozen <==>
      && Trim(form.nombre) != "" && !KeyTaken(equipos, NameKey(Trim(form.nombre)), Some(team.id))
      && StoredGroup(team.grupo) != "" && StoredGroup(form.grupo) != StoredGroup(team.grupo)
      && PlayedInGroup(partidos, team.id, StoredGroup(team.grupo))
    ensures o.Writes? ==> o.writes == [UpdateTeam(team.id, Trim(form.nombre), NameKey(Trim(form.nombre)),
                                                  Trim(form.logoUrl), StoredGroup(form.grupo))]
    ensures !o.Declined?
  {
    var nombre := Trim(form.nombre);
    if nombre == "" then Rejected(NameRequired)
    else
      var key := NameKey(nombre);
      if KeyTaken(equipos, key, Some(team.id)) then Rejected(NameExists)
      else
        var oldGroup := StoredGroup(team.grupo);
        var newGroup := StoredGroup(form.grupo);
        if oldGroup != "" && newGroup != oldGroup && PlayedInGroup(partidos, team.id, oldGroup) then
          Rejected(GroupFrozen)
        else
          Writes([UpdateTeam(team.id, nombre, key, Trim(form.logoUrl), newGroup)])
  }

  /** The team list after an `UpdateTeam` write. */
  function ApplyUpdate(equipos: seq<Team>, w: Write): (r: seq<Team>)
    requires w.UpdateTeam?
    ensures |r| == |equipos|
    ensures forall i :: 0 <= i < |r| ==>
      r[i] == (if equipos[i].id == w.teamId then Team(w.teamId, w.newNombre, w.newGrupo, w.newLogo) else equipos[i])
  {
    if equipos == [] then []
    else
      [if equipos[0].id == w.teamId then Team(w.teamId, w.newNombre, w.newGrupo, w.newLogo) else equipos[0]]
      + ApplyUpdate(equipos[1..], w)
  }

  /** An accepted edit keeps the keys unique when the team ids are. */
  lemma EdicionKeepsKeysUnique(equipos: seq<Team>, partidos: seq<Match>, team: Team, form: EditForm)
    requires KeysUnique(equipos) && UniqueTeamIds(equipos)
    requires GuardarEdicionEquipo(equipos, partidos, team, form).Writes?
    ensures KeysUnique(ApplyUpdate(equipos, GuardarEdicionEquipo(equipos, partidos, team, form).writes[0]))
  {
    var w := GuardarEdicionEquipo(equipos, partidos, team, form).writes[0];
    var e := ApplyUpdate(equipos, w);
    var key := NameKey(Trim(form.nombre));
    TrimIdempotent(form.nombre);
    assert NameKey(w.newNombre) == key;
    forall i, j | 0 <= i < j < |e| ensures NameKey(e[i].nombre) != NameKey(e[j].nombre) {
      if equipos[i].id == team.id {
        assert equipos[j].id != team.id;
        assert !KeyTaken(equipos, key, Some(team.id));
      } else if equipos[j].id == team.id {
        assert !KeyTaken(equipos, key, Some(team.id));
      }
    }
  }

  /** An accepted change of group means the team has no group-stage match
      in its old group. */
  lemma EdicionGroupFreeze(equipos: seq<Team>, partidos: seq<Match>, team: Team, form: EditForm)
    requires GuardarEdicionEquipo(equipos, partidos, team, form).Writes?
    requires StoredGroup(team.grupo) != "" && StoredGroup(form.grupo) != StoredGroup(team.grupo)
    ensures forall i :: 0 <= i < |partidos| && partidos[i].fase == Regular && partidos[i].Involves(team.id) ==>
      Upper(partidos[i].grupo) != StoredGroup(team.grupo)
  {
  }

  /** `borrarEquipo` */
  function BorrarEquipo(partidos: seq<Match>, teamId: Id, confirmed: bool): (o: Outcome)
    ensures o.Rejected? <==> exists i :: 0 <= i < |partidos| && partidos[i].Involves(teamId)
    ensures o.Rejected? ==> o.why == TeamReferenced
    ensures o.Writes? <==> confirmed && forall i :: 0 <= i < |partidos| ==> !partidos[i].Involves(teamId)
    ensures o.Writes? ==> o.writes == [DeleteTeam(teamId)]
  {
    if exists i :: 0 <= i < |partidos| && partidos[i].Involves(teamId) then Rejected(TeamReferenced)
    else if !confirmed then Declined
    else Writes([DeleteTeam(teamId)])
  }

  /** Every match refers to teams of the list. */
  predicate Referential(equipos: seq<Team>, partidos: seq<Match>) {
    forall i :: 0 <= i < |partidos| ==>
      FindTeam(equipos, partidos[i].localId).Some? && FindTeam(equipos, partidos[i].visitanteId).Some?
  }

  function Without(equipos: seq<Team>, teamId: Id): (r: seq<Team>)
    ensures forall t :: t in r <==> t in equipos && t.id != teamId
  {
    if equipos == [] then []
    else if equipos[0].id == teamId then Without(equipos[1..], teamId)
    else [equipos[0]] + Without(equipos[1..], teamId)
  }

  /** Deleting a team never leaves a match pointing at a missing team. */
  lemma BorrarEquipoKeepsReferences(equipos: seq<Team>, partidos: seq<Match>, teamId: Id)
    requires Referential(equipos, partidos)
    requires BorrarEquipo(partidos, teamId, true).Writes?
    ensures Referential(Without(equipos, teamId), partidos)
  {
    var e := Without(equipos, teamId);
    forall i | 0 <= i < |partidos|
      ensures FindTeam(e, partidos[i].localId).Some? && FindTeam(e, partidos[i].visitanteId).Some?
    {
      var m := partidos[i];
      assert !m.Involves(teamId);
      var tl := FindTeam(equipos, m.localId).value;
      var tv := FindTeam(equipos, m.visitanteId).value;
      assert tl in e && tv in e;
      FindTeamMember(e, tl);
      FindTeamMember(e, tv);
    }
  }

  lemma FindTeamMember(equipos: seq<Team>, t: Team)
    requires t in equipos
    ensures FindTeam(equipos, t.id).Some?
  {
    var k :| 0 <= k < |equipos| && equipos[k] == t;
    assert equipos[k].id == t.id;
  }
}
