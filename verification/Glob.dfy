/** Matching a criterion value against a pattern with wildcards (share/criteria.go).

    The pattern is rewritten into a regular expression and handed to the regexp
    engine. The engine is a parameter; the theorems ask of it only that it gives
    the usual meaning to expressions built from literals, `.`, `\.` and `.*`. */
module Glob {
  import opened Options

  // ---- regular expressions

  datatype Re = Empty | Lit(c: char) | Any | Star(r: Re) | Cat(left: Re, right: Re)

  /** `.` does not match a newline. */
  ghost predicate Matches(r: Re, v: string)
    decreases r, |v|
  {
    match r
    case Empty => v == []
    case Lit(c) => v == [c]
    case Any => |v| == 1 && v[0] != '\n'
    case Star(r1) => v == [] || exists k :: 0 < k <= |v| && Matches(r1, v[..k]) && Matches(r, v[k..])
    case Cat(r1, r2) => exists k :: 0 <= k <= |v| && Matches(r1, v[..k]) && Matches(r2, v[k..])
  }

  predicate IsMeta(c: char) { c in "\\.+*?()|[]{}^$" }

  /** The atom at the head of an expression and how many characters it takes. */
  function ParseAtom(s: string): Option<(Re, nat)> {
    if s == [] then None
    else if s[0] == '\\' then if |s| > 1 && s[1] == '.' then Some((Lit('.'), 2)) else None
    else if s[0] == '.' then Some((Any, 1))
    else if IsMeta(s[0]) then None
    else Some((Lit(s[0]), 1))
  }

  /** Expressions made of literals, escaped dots, dots, and `*` after any of these. */
  function Parse(s: string): Option<Re> {
    if s == [] then Some(Empty)
    else
      match ParseAtom(s)
      case None => None
      case Some((atom, n)) =>
        var starred := n < |s| && s[n] == '*';
        match Parse(s[if starred then n + 1 else n..])
        case None => None
        case Some(rest) => Some(Cat(if starred then Star(atom) else atom, rest))
  }

  /** Compiling and matching: None when the expression does not compile. */
  type Engine = (string, string) -> Option<bool>

  ghost predicate Standard(engine: Engine) {
    forall body: string, v: string {:trigger engine("^" + body + "$", v)} ::
      Parse(body).Some? ==> engine("^" + body + "$", v) == Some(Matches(Parse(body).value, v))
  }

  // ---- the code

  function Replace(s: string, c: char, sub: string): string {
    if s == [] then [] else (if s[0] == c then sub else [s[0]]) + Replace(s[1..], c, sub)
  }

  predicate HasWildcard(pattern: string) { '?' in pattern || '*' in pattern }

  function Rewrite(pattern: string): string {
    Replace(Replace(Replace(pattern, '.', "\\."), '?', "."), '*', ".*")
  }

  predicate EqualMatch(pattern: string, value: string, engine: Engine) {
    if !HasWildcard(pattern) then pattern == value
    else
      match engine("^" + Rewrite(pattern) + "$", value)
      case None => pattern == value
      case Some(matched) => matched
  }

  // ---- what a pattern means

  /** `?` stands for one character and `*` for any run of them; `cross` says whether
      they may stand for a newline. */
  predicate GlobMatch(pattern: string, v: string, cross: bool)
    decreases |pattern| + |v|
  {
    if pattern == [] then v == []
    else if pattern[0] == '*' then
      || GlobMatch(pattern[1..], v, cross)
      || (v != [] && (cross || v[0] != '\n') && GlobMatch(pattern, v[1..], cross))
    else
      && v != []
      && (if pattern[0] == '?' then cross || v[0] != '\n' else v[0] == pattern[0])
      && GlobMatch(pattern[1..], v[1..], cross)
  }

  /** No regexp metacharacter other than the dot and the two wildcards. */
  predicate Plain(pattern: string) {
    forall c <- pattern :: IsMeta(c) ==> c == '.' || c == '?' || c == '*'
  }

  // ---- the rewriting

  function TranslateChar(c: char): string {
    if c == '.' then "\\." else if c == '?' then "." else if c == '*' then ".*" else [c]
  }

  function Translate(pattern: string): string {
    if pattern == [] then [] else TranslateChar(pattern[0]) + Translate(pattern[1..])
  }

  lemma {:induction false} ReplaceSplit(a: string, b: string, c: char, sub: string)
    ensures Replace(a + b, c, sub) == Replace(a, c, sub) + Replace(b, c, sub)
  {
    if a == [] {
      assert a + b == b;
    } else {
      assert (a + b)[1..] == a[1..] + b;
      ReplaceSplit(a[1..], b, c, sub);
    }
  }

  lemma ReplaceChar(x: char, c: char, sub: string)
    ensures Replace([x], c, sub) == if x == c then sub else [x]
  {
    assert [x][1..] == [];
    assert sub + [] == sub;
  }

  lemma RewriteChar(c: char)
    ensures Rewrite([c]) == TranslateChar(c)
  {
    ReplaceChar(c, '.', "\\.");
    if c == '.' {
      assert "\\." == ['\\'] + ['.'];
      ReplaceSplit(['\\'], ['.'], '?', ".");
      ReplaceSplit(['\\'], ['.'], '*', ".*");
      ReplaceChar('\\', '?', ".");
      ReplaceChar('.', '?', ".");
      ReplaceChar('\\', '*', ".*");
      ReplaceChar('.', '*', ".*");
    } else {
      ReplaceChar(c, '?', ".");
      ReplaceChar(if c == '?' then '.' else c, '*', ".*");
    }
  }

  lemma RewriteSplit(a: string, b: string)
    ensures Rewrite(a + b) == Rewrite(a) + Rewrite(b)
  {
    ReplaceSplit(a, b, '.', "\\.");
    var a1, b1 := Replace(a, '.', "\\."), Replace(b, '.', "\\.");
    ReplaceSplit(a1, b1, '?', ".");
    ReplaceSplit(Replace(a1, '?', "."), Replace(b1, '?', "."), '*', ".*");
  }

  /** The three replacements in sequence amount to translating each character once. */
  lemma {:induction false} RewriteIsTranslate(pattern: string)
    ensures Rewrite(pattern) == Translate(pattern)
  {
    if pattern != [] {
      assert pattern == [pattern[0]] + pattern[1..];
      RewriteSplit([pattern[0]], pattern[1..]);
      RewriteChar(pattern[0]);
      RewriteIsTranslate(pattern[1..]);
    }
  }

  function Atom(c: char): Re {
    if c == '?' then Any else if c == '*' then Star(Any) else Lit(c)
  }

  function Compiled(pattern: string): Re {
    if pattern == [] then Empty else Cat(Atom(pattern[0]), Compiled(pattern[1..]))
  }

  lemma NoLeadingStar(pattern: string)
    requires Plain(pattern) && pattern != []
    ensures Translate(pattern) != [] && Translate(pattern)[0] != '*'
  {
  }

  lemma HeadParses(c: char, t: string)
    requires Plain([c]) && (t != [] ==> t[0] != '*')
    ensures var s := TranslateChar(c) + t;
            && ParseAtom(s).Some?
            && var (atom, n) := ParseAtom(s).value;
            if c == '*' then atom == Any && n == 1 && |s| > 1 && s[1] == '*'
            else atom == Atom(c) && n == |TranslateChar(c)| && (n < |s| ==> s[n] != '*')
  {
    assert c in [c];
  }

  lemma {:induction false} TranslateParses(pattern: string)
    requires Plain(pattern)
    ensures Parse(Translate(pattern)) == Some(Compiled(pattern))
  {
    if pattern != [] {
      var rest := pattern[1..];
      var t, h := Translate(rest), TranslateChar(pattern[0]);
      TranslateParses(rest);
      if rest != [] { NoLeadingStar(rest); }
      assert (h + t)[|h|..] == t;
      HeadParses(pattern[0], t);
    }
  }

  // ---- the meaning

  lemma {:induction false} StarAny(v: string)
    ensures Matches(Star(Any), v) <==> '\n' !in v
  {
    if v != [] {
      StarAny(v[1..]);
      if '\n' !in v {
        assert Matches(Any, v[..1]) && Matches(Star(Any), v[1..]);
      }
      if Matches(Star(Any), v) {
        var k :| 0 < k <= |v| && Matches(Any, v[..k]) && Matches(Star(Any), v[k..]);
        assert k == 1;
      }
    }
  }

  lemma CatOne(r: Re, rest: Re, v: string)
    requires r.Lit? || r.Any?
    ensures Matches(Cat(r, rest), v) <==> v != [] && Matches(r, v[..1]) && Matches(rest, v[1..])
  {
    if Matches(Cat(r, rest), v) {
      var k :| 0 <= k <= |v| && Matches(r, v[..k]) && Matches(rest, v[k..]);
      assert k == 1;
    }
  }

  lemma StarTakesOne(rest: Re, v: string)
    requires v != [] && v[0] != '\n' && Matches(Cat(Star(Any), rest), v[1..])
    ensures Matches(Cat(Star(Any), rest), v)
  {
    var u := v[1..];
    var k :| 0 <= k <= |u| && Matches(Star(Any), u[..k]) && Matches(rest, u[k..]);
    StarAny(u[..k]);
    StarAny(v[..k + 1]);
    assert v[..k + 1] == [v[0]] + u[..k];
    assert v[k + 1..] == u[k..];
  }

  lemma StarStopsOrTakes(rest: Re, v: string)
    requires Matches(Cat(Star(Any), rest), v) && !Matches(rest, v)
    ensures v != [] && v[0] != '\n' && Matches(Cat(Star(Any), rest), v[1..])
  {
    var k :| 0 <= k <= |v| && Matches(Star(Any), v[..k]) && Matches(rest, v[k..]);
    assert v[0..] == v;
    StarAny(v[..k]);
    var u := v[1..];
    assert v[0] in v[..k];
    assert u[..k - 1] == v[1..k] && u[k - 1..] == v[k..];
    assert v[..k] == [v[0]] + u[..k - 1];
    StarAny(u[..k - 1]);
  }

  lemma CatStarAny(rest: Re, v: string)
    ensures Matches(Cat(Star(Any), rest), v) <==>
            Matches(rest, v) || (v != [] && v[0] != '\n' && Matches(Cat(Star(Any), rest), v[1..]))
  {
    if Matches(rest, v) {
      assert Matches(Star(Any), v[..0]) && v[0..] == v;
    } else if Matches(Cat(Star(Any), rest), v) {
      StarStopsOrTakes(rest, v);
    }
    if v != [] && v[0] != '\n' && Matches(Cat(Star(Any), rest), v[1..]) {
      StarTakesOne(rest, v);
    }
  }

  lemma {:induction false} CompiledMeans(pattern: string, v: string)
    ensures Matches(Compiled(pattern), v) <==> GlobMatch(pattern, v, false)
    decreases |pattern| + |v|
  {
    if pattern != [] {
      var rest := Compiled(pattern[1..]);
      if pattern[0] == '*' {
        CatStarAny(rest, v);
        CompiledMeans(pattern[1..], v);
        if v != [] { CompiledMeans(pattern, v[1..]); }
      } else {
        CatOne(Atom(pattern[0]), rest, v);
        if v != [] { CompiledMeans(pattern[1..], v[1..]); }
      }
    }
  }

  lemma {:induction false} LiteralMeans(pattern: string, v: string, cross: bool)
    requires !HasWildcard(pattern)
    ensures GlobMatch(pattern, v, cross) <==> pattern == v
  {
    if pattern != [] {
      assert pattern[0] in pattern && pattern == [pattern[0]] + pattern[1..];
      if v != [] {
        LiteralMeans(pattern[1..], v[1..], cross);
        assert v == [v[0]] + v[1..];
      }
    }
  }

  lemma {:induction false} NoNewlineToCross(pattern: string, v: string)
    requires '\n' !in v
    ensures GlobMatch(pattern, v, false) == GlobMatch(pattern, v, true)
    decreases |pattern| + |v|
  {
    if pattern != [] {
      NoNewlineToCross(pattern[1..], v);
      if v != [] {
        NoNewlineToCross(pattern, v[1..]);
        NoNewlineToCross(pattern[1..], v[1..]);
      }
    }
  }

  /** For every pattern whose only metacharacters are the dot and the wildcards, the match is the
      glob's, wildcards stopping at newlines; without newlines in the value it is the glob's. */
  lemma EqualMatchIsGlob(pattern: string, value: string, engine: Engine)
    requires Standard(engine) && Plain(pattern)
    ensures EqualMatch(pattern, value, engine) == GlobMatch(pattern, value, false)
    ensures '\n' !in value ==> EqualMatch(pattern, value, engine) == GlobMatch(pattern, value, true)
  {
    if !HasWildcard(pattern) {
      LiteralMeans(pattern, value, false);
    } else {
      RewriteIsTranslate(pattern);
      TranslateParses(pattern);
      CompiledMeans(pattern, value);
      assert engine("^" + Rewrite(pattern) + "$", value) == Some(Matches(Compiled(pattern), value));
    }
    if '\n' !in value { NoNewlineToCross(pattern, value); }
  }

  lemma {:induction false} StarMeans(v: string)
    ensures GlobMatch("*", v, true)
    ensures GlobMatch("*", v, false) <==> '\n' !in v
  {
    assert "*"[1..] == [];
    if v != [] {
      StarMeans(v[1..]);
      assert v == [v[0]] + v[1..];
    }
  }

  /** The plain reading, in which a wildcard stands for any character, is right about a value for all
      patterns if and only if the value has no newline. */
  lemma PlainReadingIffNoNewline(v: string, engine: Engine)
    requires Standard(engine)
    ensures (forall pattern | Plain(pattern) :: EqualMatch(pattern, v, engine) == GlobMatch(pattern, v, true)) <==> '\n' !in v
  {
    if '\n' !in v {
      forall pattern | Plain(pattern)
        ensures EqualMatch(pattern, v, engine) == GlobMatch(pattern, v, true)
      {
        EqualMatchIsGlob(pattern, v, engine);
      }
    } else {
      StarMeans(v);
      EqualMatchIsGlob("*", v, engine);
      assert EqualMatch("*", v, engine) != GlobMatch("*", v, true);
    }
  }
}
