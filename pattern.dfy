/**
 * The path-template matcher `extractPattern`.
 *
 * A template such as `/device/:id/rssi` is read as a sequence of tokens:
 * a placeholder is a `:` followed by the longest run of `[a-zA-Z0-9]`,
 * found leftmost-first and without overlap, and every other character is
 * literal. Each placeholder becomes the capture `([^/]+)` and the whole
 * template is anchored, so a path matches when it is the template with
 * every placeholder replaced by one non-empty, slash-free piece of text.
 */
module Pattern {
  import opened Wrappers

  /** `[a-zA-Z0-9]`, the characters of a placeholder name. */
  predicate IsAlnum(c: char) {
    ('a' <= c <= 'z') || ('A' <= c <= 'Z') || ('0' <= c <= '9')
  }

  /** Characters that a regular expression would not read as themselves. */
  predicate IsRegexMeta(c: char) {
    c in "\\.+*?()|[]{}^$"
  }

  datatype Token = Lit(c: char) | Hole(name: string)

  /** Length of the longest `[a-zA-Z0-9]` prefix of `s`. */
  function NameLength(s: string): (n: nat)
    ensures n <= |s|
  {
    if s != [] && IsAlnum(s[0]) then 1 + NameLength(s[1..]) else 0
  }

  /** NameLength is the length of the longest alphanumeric prefix: all of it is alphanumeric and it cannot be extended. */
  lemma {:induction false} NameLengthMaximal(s: string)
    ensures forall i :: 0 <= i < NameLength(s) ==> IsAlnum(s[i])
    ensures NameLength(s) < |s| ==> !IsAlnum(s[NameLength(s)])
  {
    if s != [] && IsAlnum(s[0]) {
      NameLengthMaximal(s[1..]);
      forall i | 0 <= i < NameLength(s) ensures IsAlnum(s[i]) {
        if i > 0 { assert s[i] == s[1..][i - 1]; }
      }
    }
  }

  /** Writes tokens back as template text. */
  function Render(toks: seq<Token>): string {
    if toks == [] then []
    else
      (match toks[0]
       case Lit(c) => [c]
       case Hole(n) => [':'] + n) + Render(toks[1..])
  }

  predicate IsName(n: string) {
    n != [] && forall i :: 0 <= i < |n| ==> IsAlnum(n[i])
  }

  predicate StartsName(tok: Token) {
    tok.Lit? && IsAlnum(tok.c)
  }

  /**
   * The token sequences the placeholder scan can produce: names are
   * non-empty and alphanumeric, and no name could be extended (after a
   * placeholder or a literal `:` there is no literal alphanumeric).
   */
  predicate Canonical(toks: seq<Token>) {
    && (forall i :: 0 <= i < |toks| && toks[i].Hole? ==> IsName(toks[i].name))
    && (forall i :: 0 <= i < |toks| - 1 && (toks[i].Hole? || toks[i] == Lit(':')) ==> !StartsName(toks[i + 1]))
  }

  /** The scan of a template for `:([a-zA-Z0-9]+)`, leftmost-first and greedy. */
  function Tokenize(t: string): seq<Token>
    decreases |t|
  {
    if t == [] then []
    else if t[0] == ':' && |t| > 1 && IsAlnum(t[1]) then
      var n := NameLength(t[1..]);
      [Hole(t[1..1 + n])] + Tokenize(t[1 + n..])
    else
      [Lit(t[0])] + Tokenize(t[1..])
  }

  /** The scan of a non-empty template starts with a token, a literal one being its first character. */
  lemma TokenizeHead(t: string)
    ensures t != [] ==> Tokenize(t) != [] && (Tokenize(t)[0].Lit? ==> Tokenize(t)[0].c == t[0])
  {
  }

  lemma CanonicalCons(x: Token, rest: seq<Token>)
    requires Canonical(rest)
    requires x.Hole? ==> IsName(x.name)
    requires rest != [] && (x.Hole? || x == Lit(':')) ==> !StartsName(rest[0])
    ensures Canonical([x] + rest)
  {
    var toks := [x] + rest;
    forall i | 0 <= i < |toks| && toks[i].Hole? ensures IsName(toks[i].name) {
      if i > 0 { assert toks[i] == rest[i - 1]; }
    }
    forall i | 0 <= i < |toks| - 1 && (toks[i].Hole? || toks[i] == Lit(':'))
      ensures !StartsName(toks[i + 1])
    {
      if i > 0 { assert toks[i] == rest[i - 1] && toks[i + 1] == rest[i]; }
    }
  }

  lemma CanonicalTail(toks: seq<Token>)
    requires Canonical(toks) && toks != []
    ensures Canonical(toks[1..])
  {
    var rest := toks[1..];
    forall i | 0 <= i < |rest| && rest[i].Hole? ensures IsName(rest[i].name) {
      assert rest[i] == toks[i + 1];
    }
    forall i | 0 <= i < |rest| - 1 && (rest[i].Hole? || rest[i] == Lit(':'))
      ensures !StartsName(rest[i + 1])
    {
      assert rest[i] == toks[i + 1] && rest[i + 1] == toks[i + 2];
    }
  }

  /** The name a placeholder scan takes at the start of `t`, and the text after it. */
  lemma HoleAtStart(t: string)
    requires t != [] && t[0] == ':' && |t| > 1 && IsAlnum(t[1])
    ensures var n := NameLength(t[1..]);
      && 1 + n <= |t|
      && IsName(t[1..1 + n])
      && t == [':'] + t[1..1 + n] + t[1 + n..]
      && (1 + n < |t| ==> !IsAlnum(t[1 + n]))
  {
    var n := NameLength(t[1..]);
    var name := t[1..1 + n];
    NameLengthMaximal(t[1..]);
    assert n >= 1;
    forall i | 0 <= i < |name| ensures IsAlnum(name[i]) {
      assert name[i] == t[1..][i];
    }
    if 1 + n < |t| {
      assert t[1 + n] == t[1..][n];
    }
    assert t == t[..1] + t[1..1 + n] + t[1 + n..];
    assert t[..1] == [':'];
  }

  lemma InverseHoleStep(name: string, after: string, rest: seq<Token>)
    requires IsName(name)
    requires after == [] || !IsAlnum(after[0])
    requires Render(rest) == after && Canonical(rest)
    requires after != [] ==> rest != [] && (rest[0].Lit? ==> rest[0].c == after[0])
    ensures Render([Hole(name)] + rest) == [':'] + name + after && Canonical([Hole(name)] + rest)
  {
    assert ([Hole(name)] + rest)[1..] == rest;
    CanonicalCons(Hole(name), rest);
  }

  lemma InverseLitStep(c: char, after: string, rest: seq<Token>)
    requires c == ':' ==> after == [] || !IsAlnum(after[0])
    requires Render(rest) == after && Canonical(rest)
    requires after != [] ==> rest != [] && (rest[0].Lit? ==> rest[0].c == after[0])
    ensures Render([Lit(c)] + rest) == [c] + after && Canonical([Lit(c)] + rest)
  {
    assert ([Lit(c)] + rest)[1..] == rest;
    CanonicalCons(Lit(c), rest);
  }

  /** Tokenize splits a template into canonical tokens that render back to it. */
  lemma {:induction false} TokenizeInverse(t: string)
    ensures Render(Tokenize(t)) == t
    ensures Canonical(Tokenize(t))
    decreases |t|
  {
    if t != [] {
      if t[0] == ':' && |t| > 1 && IsAlnum(t[1]) {
        var n := NameLength(t[1..]);
        var name, after := t[1..1 + n], t[1 + n..];
        HoleAtStart(t);
        assert after != [] ==> after[0] == t[1 + n];
        TokenizeHoleAt(t, n);
        TokenizeInverse(after);
        TokenizeHead(after);
        InverseHoleStep(name, after, Tokenize(after));
      } else {
        var after := t[1..];
        assert after != [] ==> after[0] == t[1];
        TokenizeLitAt(t);
        TokenizeInverse(after);
        TokenizeHead(after);
        InverseLitStep(t[0], after, Tokenize(after));
        assert t == [t[0]] + after;
      }
    }
  }

  lemma {:induction false} NameLengthOfName(n: string, s: string)
    requires IsName(n)
    requires s == [] || !IsAlnum(s[0])
    ensures NameLength(n + s) == |n|
  {
    assert (n + s)[0] == n[0];
    assert (n + s)[1..] == n[1..] + s;
    if |n| > 1 {
      NameLengthOfName(n[1..], s);
    } else {
      assert n[1..] + s == s;
    }
  }

  /** One step of the scan when `t` starts with a placeholder whose name has length `k`. */
  lemma TokenizeHoleAt(t: string, k: nat)
    requires |t| > 1 && t[0] == ':' && IsAlnum(t[1]) && NameLength(t[1..]) == k
    ensures Tokenize(t) == [Hole(t[1..1 + k])] + Tokenize(t[1 + k..])
  {
  }

  /** One step of the scan when `t` does not start with a placeholder. */
  lemma TokenizeLitAt(t: string)
    requires t != [] && !(t[0] == ':' && |t| > 1 && IsAlnum(t[1]))
    ensures Tokenize(t) == [Lit(t[0])] + Tokenize(t[1..])
  {
  }

  lemma TokenizeLit(c: char, r: string)
    requires c != ':' || r == [] || !IsAlnum(r[0])
    ensures Tokenize([c] + r) == [Lit(c)] + Tokenize(r)
  {
    var t := [c] + r;
    assert t[0] == c && t[1..] == r;
    assert |t| > 1 ==> t[1] == r[0];
    TokenizeLitAt(t);
  }

  lemma TokenizeHole(n: string, r: string)
    requires IsName(n)
    requires r == [] || !IsAlnum(r[0])
    ensures Tokenize([':'] + n + r) == [Hole(n)] + Tokenize(r)
  {
    var t := [':'] + n + r;
    var k := |n|;
    assert t[1..] == n + r;
    assert t[1] == n[0];
    NameLengthOfName(n, r);
    assert t[1..1 + k] == n;
    assert t[1 + k..] == r;
    TokenizeHoleAt(t, k);
  }

  /** Tokenize inverts Render on canonical sequences. */
  lemma {:induction false} TokenizeRender(toks: seq<Token>)
    requires Canonical(toks)
    ensures Tokenize(Render(toks)) == toks
  {
    if toks != [] {
      var rest := toks[1..];
      CanonicalTail(toks);
      TokenizeRender(rest);
      var r := Render(rest);
      assert r != [] && (toks[0].Hole? || toks[0] == Lit(':')) ==> !IsAlnum(r[0]) by {
        if r != [] && (toks[0].Hole? || toks[0] == Lit(':')) {
          assert !StartsName(toks[1]);
          assert rest[0] == toks[1];
        }
      }
      assert toks == [toks[0]] + rest;
      match toks[0]
      case Lit(c) =>
        TokenizeLit(c, r);
      case Hole(n) =>
        assert IsName(toks[0].name);
        TokenizeHole(n, r);
    }
  }

  /** The placeholder names in template order (`match[1]` of each match). */
  function Names(toks: seq<Token>): seq<string> {
    if toks == [] then []
    else (if toks[0].Hole? then [toks[0].name] else []) + Names(toks[1..])
  }

  /** No literal character of the template is a regular-expression operator. */
  predicate PlainLiterals(toks: seq<Token>) {
    forall i :: 0 <= i < |toks| && toks[i].Lit? ==> !IsRegexMeta(toks[i].c)
  }

  /** Every placeholder is followed by `/` or by the end of the template. */
  predicate HolesEndSegments(toks: seq<Token>) {
    forall i :: 0 <= i < |toks| && toks[i].Hole? ==> i + 1 == |toks| || toks[i + 1] == Lit('/')
  }

  /**
   * The templates this model covers. For them the regular expression the
   * source builds matches literal characters as themselves and has exactly
   * one way to split a path among its captures.
   */
  predicate Supported(t: string) {
    PlainLiterals(Tokenize(t)) && HolesEndSegments(Tokenize(t))
  }

  /** What one capture `([^/]+)` can hold. */
  predicate ValidCapture(s: string) {
    s != [] && '/' !in s
  }

  predicate ValidCaptures(caps: seq<string>) {
    forall i :: 0 <= i < |caps| ==> ValidCapture(caps[i])
  }

  /** The template with `caps` put in place of its placeholders, in order. */
  function Fill(toks: seq<Token>, caps: seq<string>): string
    requires |caps| == |Names(toks)|
  {
    if toks == [] then []
    else
      match toks[0]
      case Lit(c) => [c] + Fill(toks[1..], caps)
      case Hole(_) => caps[0] + Fill(toks[1..], caps[1..])
  }

  /** Length of the longest prefix of `p` without `/`. */
  function SegmentLength(p: string): (n: nat)
    ensures n <= |p|
    ensures forall i :: 0 <= i < n ==> p[i] != '/'
    ensures n < |p| ==> p[n] == '/'
  {
    if p != [] && p[0] != '/' then 1 + SegmentLength(p[1..]) else 0
  }

  /**
   * The anchored match of a path against a token sequence, as
   * `FindStringSubmatch` on `^...$`: each capture takes the whole
   * remaining segment. The result, when there is one, fills the template
   * back into the path exactly.
   */
  function Captures(toks: seq<Token>, p: string): (r: Option<seq<string>>)
    ensures r.Some? ==> |r.value| == |Names(toks)| && ValidCaptures(r.value) && Fill(toks, r.value) == p
    decreases |toks|
  {
    if toks == [] then
      if p == [] then Some([]) else None
    else
      match toks[0]
      case Lit(c) =>
        if p != [] && p[0] == c then
          var r := Captures(toks[1..], p[1..]);
          assert r.Some? ==> [c] + p[1..] == p;
          r
        else None
      case Hole(_) =>
        var k := SegmentLength(p);
        if k == 0 then None
        else
          match Captures(toks[1..], p[k..])
          case None => None
          case Some(rest) =>
            var caps := [p[..k]] + rest;
            assert caps[1..] == rest;
            assert p[..k] + p[k..] == p;
            assert ValidCapture(p[..k]) by {
              assert forall i :: 0 <= i < k ==> p[..k][i] != '/';
            }
            Some(caps)
  }

  lemma {:induction false} SegmentOfCapture(c: string, f: string)
    requires ValidCapture(c)
    requires f == [] || f[0] == '/'
    ensures SegmentLength(c + f) == |c|
  {
    assert (c + f)[0] == c[0] && c[0] in c;
    assert (c + f)[1..] == c[1..] + f;
    if |c| > 1 {
      assert forall x :: x in c[1..] ==> x in c;
      SegmentOfCapture(c[1..], f);
    } else {
      assert c[1..] + f == f;
    }
  }

  lemma FillHead(toks: seq<Token>, caps: seq<string>)
    requires |caps| == |Names(toks)| && ValidCaptures(caps)
    requires toks != [] && toks[0] == Lit('/')
    ensures Fill(toks, caps) != [] && Fill(toks, caps)[0] == '/'
  {
  }

  /**
   * Every filling of a supported template with valid captures is matched,
   * and the match gives back exactly those captures.
   */
  lemma {:induction false} CapturesComplete(toks: seq<Token>, caps: seq<string>)
    requires HolesEndSegments(toks)
    requires |caps| == |Names(toks)| && ValidCaptures(caps)
    ensures Captures(toks, Fill(toks, caps)) == Some(caps)
  {
    if toks != [] {
      var rest := toks[1..];
      assert HolesEndSegments(rest) by {
        forall i | 0 <= i < |rest| && rest[i].Hole?
          ensures i + 1 == |rest| || rest[i + 1] == Lit('/')
        {
          assert toks[i + 1] == rest[i];
        }
      }
      var p := Fill(toks, caps);
      match toks[0]
      case Lit(c) =>
        CapturesComplete(rest, caps);
        assert p[1..] == Fill(rest, caps);
      case Hole(_) =>
        var tail := caps[1..];
        assert ValidCaptures(tail) by {
          forall i | 0 <= i < |tail| ensures ValidCapture(tail[i]) {
            assert tail[i] == caps[i + 1];
          }
        }
        CapturesComplete(rest, tail);
        var f := Fill(rest, tail);
        assert ValidCapture(caps[0]);
        if rest != [] {
          assert toks[1] == Lit('/');
          FillHead(rest, tail);
        }
        SegmentOfCapture(caps[0], f);
        assert p == caps[0] + f;
        assert p[..|caps[0]|] == caps[0];
        assert p[|caps[0]|..] == f;
        assert [caps[0]] + tail == caps;
    }
  }

  /**
   * The map the source fills: `params[names[i]] = caps[i]` for each i in
   * order, so a later placeholder with the same name overwrites an earlier one.
   */
  function ParamsOf(names: seq<string>, caps: seq<string>): (m: map<string, string>)
    requires |names| == |caps|
    ensures m.Keys == set i | 0 <= i < |names| :: names[i]
    ensures forall k :: k in m ==> exists i :: 0 <= i < |caps| && m[k] == caps[i]
  {
    if names == [] then map[]
    else
      var n := |names| - 1;
      var m := ParamsOf(names[..n], caps[..n]);
      assert forall i :: 0 <= i < n ==> names[..n][i] == names[i];
      assert forall i :: 0 <= i < n ==> caps[..n][i] == caps[i];
      m[names[n] := caps[n]]
  }

  /** The value under a name is the capture of the last placeholder with that name. */
  lemma {:induction false} ParamsOfLastWins(names: seq<string>, caps: seq<string>, i: nat)
    requires |names| == |caps| && i < |names|
    requires forall j :: i < j < |names| ==> names[j] != names[i]
    ensures names[i] in ParamsOf(names, caps) && ParamsOf(names, caps)[names[i]] == caps[i]
  {
    var n := |names| - 1;
    if i < n {
      var names', caps' := names[..n], caps[..n];
      assert names'[i] == names[i];
      forall j | i < j < |names'| ensures names'[j] != names'[i] {
        assert names'[j] == names[j];
      }
      ParamsOfLastWins(names', caps', i);
      assert caps'[i] == caps[i];
    }
  }

  /** `extractPattern` as a function: no match, or the map of captures by name. */
  function Extract(template: string, path: string): Option<map<string, string>>
    requires Supported(template)
  {
    var toks := Tokenize(template);
    match Captures(toks, path)
    case None => None
    case Some(caps) => Some(ParamsOf(Names(toks), caps))
  }

  /**
   * `extractPattern`: find the placeholder names, match the anchored
   * pattern, and fill a fresh map in a loop over the names.
   */
  method ExtractPattern(template: string, path: string) returns (params: Option<map<string, string>>)
    requires Supported(template)
    ensures params == Extract(template, path)
  {
    var toks := Tokenize(template);
    var names := Names(toks);
    var pathMatches := Captures(toks, path);
    if pathMatches.None? {
      return None;
    }
    var caps := pathMatches.value;
    var m: map<string, string> := map[];
    for i := 0 to |names|
      invariant m == ParamsOf(names[..i], caps[..i])
    {
      assert names[..i + 1][..i] == names[..i];
      assert caps[..i + 1][..i] == caps[..i];
      m := m[names[i] := caps[i]];
    }
    assert names[..|names|] == names;
    assert caps[..|caps|] == caps;
    return Some(m);
  }

  /** A path is an instance of a template when some valid captures fill the template into it. */
  ghost predicate IsInstance(toks: seq<Token>, p: string) {
    exists caps :: |caps| == |Names(toks)| && ValidCaptures(caps) && Fill(toks, caps) == p
  }

  /**
   * Anchoring: a supported template matches a path exactly when the path is
   * an instance of the whole template, so a longer or shorter path never matches.
   */
  lemma ExtractIffInstance(template: string, path: string)
    requires Supported(template)
    ensures Extract(template, path).Some? <==> IsInstance(Tokenize(template), path)
  {
    var toks := Tokenize(template);
    if IsInstance(toks, path) {
      var caps :| |caps| == |Names(toks)| && ValidCaptures(caps) && Fill(toks, caps) == path;
      CapturesComplete(toks, caps);
    }
  }

  /** Matching any instance of a supported template gives back the map of its captures. */
  lemma ExtractComplete(template: string, caps: seq<string>)
    requires Supported(template)
    requires |caps| == |Names(Tokenize(template))| && ValidCaptures(caps)
    ensures Extract(template, Fill(Tokenize(template), caps)) == Some(ParamsOf(Names(Tokenize(template)), caps))
  {
    CapturesComplete(Tokenize(template), caps);
  }

  predicate DistinctNames(names: seq<string>) {
    forall i, j :: 0 <= i < j < |names| ==> names[i] != names[j]
  }

  /** The template with each placeholder replaced by the value its name has in `m`. */
  function Substitute(toks: seq<Token>, m: map<string, string>): string
    requires forall i :: 0 <= i < |toks| && toks[i].Hole? ==> toks[i].name in m
  {
    if toks == [] then []
    else
      (match toks[0]
       case Lit(c) => [c]
       case Hole(n) => m[n]) + Substitute(toks[1..], m)
  }

  lemma HolesInNames(toks: seq<Token>, i: nat)
    requires i < |toks| && toks[i].Hole?
    ensures toks[i].name in Names(toks)
  {
    if i > 0 {
      HolesInNames(toks[1..], i - 1);
    }
  }

  lemma {:induction false} SubstituteFill(toks: seq<Token>, caps: seq<string>, m: map<string, string>)
    requires |caps| == |Names(toks)|
    requires forall i :: 0 <= i < |caps| ==> Names(toks)[i] in m && m[Names(toks)[i]] == caps[i]
    requires forall i :: 0 <= i < |toks| && toks[i].Hole? ==> toks[i].name in m
    ensures Substitute(toks, m) == Fill(toks, caps)
  {
    if toks != [] {
      var rest := toks[1..];
      match toks[0]
      case Lit(c) =>
        assert Names(toks) == Names(rest);
        SubstituteFill(rest, caps, m);
      case Hole(n) =>
        assert Names(toks) == [n] + Names(rest);
        forall i | 0 <= i < |caps| - 1
          ensures Names(rest)[i] in m && m[Names(rest)[i]] == caps[1..][i]
        {
          assert Names(rest)[i] == Names(toks)[i + 1];
        }
        SubstituteFill(rest, caps[1..], m);
    }
  }

  /**
   * When the placeholder names are distinct, putting each value of the
   * returned map back in place of its placeholder reproduces the path.
   * Every value is a single non-empty segment and the keys are exactly
   * the placeholder names.
   */
  lemma ExtractSound(template: string, path: string, m: map<string, string>)
    requires Supported(template)
    requires Extract(template, path) == Some(m)
    ensures m.Keys == set n | n in Names(Tokenize(template))
    ensures forall k :: k in m ==> ValidCapture(m[k])
    ensures DistinctNames(Names(Tokenize(template))) ==>
      (forall i :: 0 <= i < |Tokenize(template)| && Tokenize(template)[i].Hole? ==> Tokenize(template)[i].name in m) &&
      Substitute(Tokenize(template), m) == path
  {
    var toks := Tokenize(template);
    var names := Names(toks);
    var caps := Captures(toks, path).value;
    assert m == ParamsOf(names, caps);
    assert (set i | 0 <= i < |names| :: names[i]) == set n | n in names;
    if DistinctNames(names) {
      forall i | 0 <= i < |caps|
        ensures names[i] in m && m[names[i]] == caps[i]
      {
        ParamsOfLastWins(names, caps, i);
      }
      forall i | 0 <= i < |toks| && toks[i].Hole? ensures toks[i].name in m {
        HolesInNames(toks, i);
      }
      SubstituteFill(toks, caps, m);
    }
  }

  lemma {:induction false} FillWithoutHoles(toks: seq<Token>)
    requires Names(toks) == []
    ensures Fill(toks, []) == Render(toks)
  {
    if toks != [] {
      assert toks[0].Lit?;
      FillWithoutHoles(toks[1..]);
    }
  }

  /**
   * A template without placeholders yields the empty map exactly when the
   * path equals the template, and no match for every other path.
   */
  lemma ExtractLiteralTemplate(template: string, path: string)
    requires Supported(template)
    requires Names(Tokenize(template)) == []
    ensures Extract(template, path) == Some(map[]) <==> path == template
    ensures path != template ==> Extract(template, path) == None
  {
    var toks := Tokenize(template);
    TokenizeInverse(template);
    FillWithoutHoles(toks);
    if path == template {
      CapturesComplete(toks, []);
    }
  }

  /** Number of `/` characters. */
  function Slashes(s: string): nat {
    if s == [] then 0 else (if s[0] == '/' then 1 else 0) + Slashes(s[1..])
  }

  lemma {:induction false} SlashesAppend(a: string, b: string)
    ensures Slashes(a + b) == Slashes(a) + Slashes(b)
  {
    if a != [] {
      assert (a + b)[0] == a[0];
      assert (a + b)[1..] == a[1..] + b;
      SlashesAppend(a[1..], b);
    } else {
      assert a + b == b;
    }
  }

  lemma {:induction false} NoSlashes(s: string)
    requires '/' !in s
    ensures Slashes(s) == 0
  {
    if s != [] {
      assert s[0] in s;
      assert forall c :: c in s[1..] ==> c in s;
      NoSlashes(s[1..]);
    }
  }

  /** Number of literal `/` tokens. */
  function LiteralSlashes(toks: seq<Token>): nat {
    if toks == [] then 0 else (if toks[0] == Lit('/') then 1 else 0) + LiteralSlashes(toks[1..])
  }

  lemma {:induction false} FillSlashes(toks: seq<Token>, caps: seq<string>)
    requires |caps| == |Names(toks)| && ValidCaptures(caps)
    ensures Slashes(Fill(toks, caps)) == LiteralSlashes(toks)
  {
    if toks != [] {
      match toks[0]
      case Lit(c) =>
        FillSlashes(toks[1..], caps);
        SlashesAppend([c], Fill(toks[1..], caps));
      case Hole(_) =>
        assert ValidCaptures(caps[1..]) by {
          forall i | 0 <= i < |caps| - 1 ensures ValidCapture(caps[1..][i]) {
            assert caps[1..][i] == caps[i + 1];
          }
        }
        FillSlashes(toks[1..], caps[1..]);
        assert ValidCapture(caps[0]);
        NoSlashes(caps[0]);
        SlashesAppend(caps[0], Fill(toks[1..], caps[1..]));
    }
  }

  lemma {:induction false} RenderSlashes(toks: seq<Token>)
    requires forall i :: 0 <= i < |toks| && toks[i].Hole? ==> IsName(toks[i].name)
    ensures Slashes(Render(toks)) == LiteralSlashes(toks)
  {
    if toks != [] {
      RenderSlashes(toks[1..]);
      match toks[0]
      case Lit(c) =>
        SlashesAppend([c], Render(toks[1..]));
      case Hole(n) =>
        assert IsName(n);
        assert '/' !in [':'] + n by {
          forall k | 0 <= k < |[':'] + n| ensures ([':'] + n)[k] != '/' {
            if k > 0 { assert IsAlnum(n[k - 1]); }
          }
        }
        NoSlashes([':'] + n);
        SlashesAppend([':'] + n, Render(toks[1..]));
    }
  }

  /**
   * A match keeps the number of segments: a path with a different number
   * of `/` than the template never matches.
   */
  lemma ExtractKeepsSegmentCount(template: string, path: string)
    requires Supported(template)
    requires Extract(template, path).Some?
    ensures Slashes(path) == Slashes(template)
  {
    var toks := Tokenize(template);
    var caps := Captures(toks, path).value;
    FillSlashes(toks, caps);
    TokenizeInverse(template);
    RenderSlashes(toks);
  }

  lemma Associative<T>(x: seq<T>, y: seq<T>, z: seq<T>)
    ensures x + (y + z) == x + y + z
  {
  }

  /** One literal token per character of `a`. */
  function Literals(a: string): seq<Token> {
    seq(|a|, i requires 0 <= i < |a| => Lit(a[i]))
  }

  lemma LiteralsCons(a: string)
    requires a != []
    ensures Literals(a) == [Lit(a[0])] + Literals(a[1..])
  {
    assert forall i :: 1 <= i < |a| ==> Literals(a)[i] == Literals(a[1..])[i - 1];
  }

  lemma {:induction false} TokenizeLiterals(a: string, r: string)
    requires ':' !in a
    ensures Tokenize(a + r) == Literals(a) + Tokenize(r)
  {
    if a != [] {
      assert a[0] in a;
      assert ':' !in a[1..] by {
        forall k | 0 <= k < |a[1..]| ensures a[1..][k] != ':' {
          assert a[1..][k] == a[k + 1] && a[k + 1] in a;
        }
      }
      var t := a + r;
      assert t[0] == a[0] && t[1..] == a[1..] + r;
      TokenizeLitAt(t);
      TokenizeLiterals(a[1..], r);
      var tail := Literals(a[1..]);
      assert Tokenize(t) == [Lit(a[0])] + (tail + Tokenize(r));
      LiteralsCons(a);
      assert [Lit(a[0])] + (tail + Tokenize(r)) == [Lit(a[0])] + tail + Tokenize(r);
    } else {
      assert a + r == r;
    }
  }

  lemma {:induction false} NamesLiterals(a: string, rest: seq<Token>)
    ensures Names(Literals(a) + rest) == Names(rest)
  {
    if a != [] {
      NamesLiterals(a[1..], rest);
      LiteralsCons(a);
      assert Literals(a) + rest == [Lit(a[0])] + (Literals(a[1..]) + rest);
    } else {
      assert Literals(a) + rest == rest;
    }
  }

  lemma FillLit(c: char, rest: seq<Token>, caps: seq<string>)
    requires |caps| == |Names(rest)|
    ensures Names([Lit(c)] + rest) == Names(rest)
    ensures Fill([Lit(c)] + rest, caps) == [c] + Fill(rest, caps)
  {
    assert ([Lit(c)] + rest)[1..] == rest;
  }

  lemma FillLiteralsStep(c: char, a: string, rest: seq<Token>, caps: seq<string>)
    requires |caps| == |Names(rest)| && Names(Literals(a) + rest) == Names(rest)
    requires Fill(Literals(a) + rest, caps) == a + Fill(rest, caps)
    ensures Names(Literals([c] + a) + rest) == Names(rest)
    ensures Fill(Literals([c] + a) + rest, caps) == [c] + a + Fill(rest, caps)
  {
    var tl := Literals(a) + rest;
    LiteralsCons([c] + a);
    assert ([c] + a)[1..] == a;
    Associative([Lit(c)], Literals(a), rest);
    FillLit(c, tl, caps);
    Associative([c], a, Fill(rest, caps));
  }

  lemma {:induction false} FillLiterals(a: string, rest: seq<Token>, caps: seq<string>)
    requires |caps| == |Names(rest)|
    ensures Names(Literals(a) + rest) == Names(rest)
    ensures Fill(Literals(a) + rest, caps) == a + Fill(rest, caps)
  {
    if a != [] {
      FillLiterals(a[1..], rest, caps);
      FillLiteralsStep(a[0], a[1..], rest, caps);
      assert [a[0]] + a[1..] == a;
    } else {
      assert Literals(a) + rest == rest;
    }
  }

  /** The tokens of a template made of literal text around a single placeholder. */
  function OnePlaceholderTokens(prefix: string, name: string, suffix: string): seq<Token> {
    Literals(prefix) + ([Hole(name)] + Literals(suffix))
  }

  lemma TokenizeOnlyLiterals(a: string)
    requires ':' !in a
    ensures Tokenize(a) == Literals(a)
  {
    TokenizeLiterals(a, []);
    assert a + [] == a;
    assert Literals(a) + [] == Literals(a);
  }

  lemma TokenizeHoleLiterals(name: string, suffix: string)
    requires IsName(name) && ':' !in suffix
    requires suffix == [] || suffix[0] == '/'
    ensures Tokenize([':'] + name + suffix) == [Hole(name)] + Literals(suffix)
  {
    TokenizeHole(name, suffix);
    TokenizeOnlyLiterals(suffix);
  }

  lemma OnePlaceholderTokenize(prefix: string, name: string, suffix: string)
    requires ':' !in prefix && ':' !in suffix
    requires IsName(name)
    requires suffix == [] || suffix[0] == '/'
    ensures Tokenize(prefix + [':'] + name + suffix) == OnePlaceholderTokens(prefix, name, suffix)
  {
    var rest := [':'] + name + suffix;
    TokenizeHoleLiterals(name, suffix);
    assert prefix + [':'] + name + suffix == prefix + rest;
    TokenizeLiterals(prefix, rest);
    assert Tokenize(prefix + rest) == OnePlaceholderTokens(prefix, name, suffix);
  }

  lemma OnePlaceholderShape(prefix: string, name: string, suffix: string)
    requires forall i :: 0 <= i < |prefix| ==> !IsRegexMeta(prefix[i])
    requires forall i :: 0 <= i < |suffix| ==> !IsRegexMeta(suffix[i])
    requires suffix == [] || suffix[0] == '/'
    ensures PlainLiterals(OnePlaceholderTokens(prefix, name, suffix))
    ensures HolesEndSegments(OnePlaceholderTokens(prefix, name, suffix))
  {
    var toks := OnePlaceholderTokens(prefix, name, suffix);
    var p := |prefix|;
    forall i | 0 <= i < |toks|
      ensures toks[i] == if i < p then Lit(prefix[i]) else if i == p then Hole(name) else Lit(suffix[i - p - 1])
    {
      if i < p {
        assert toks[i] == Literals(prefix)[i];
      } else if i > p {
        assert toks[i] == Literals(suffix)[i - p - 1];
      }
    }
  }

  lemma OnePlaceholderNames(prefix: string, name: string, suffix: string)
    ensures Names(OnePlaceholderTokens(prefix, name, suffix)) == [name]
  {
    var tail := [Hole(name)] + Literals(suffix);
    assert OnePlaceholderTokens(prefix, name, suffix) == Literals(prefix) + tail;
    NamesLiterals(suffix, []);
    assert Literals(suffix) + [] == Literals(suffix);
    assert Names(tail) == [name] + Names(Literals(suffix));
    NamesLiterals(prefix, tail);
  }

  lemma FillHole(name: string, rest: seq<Token>, x: string)
    requires Names(rest) == []
    ensures Names([Hole(name)] + rest) == [name]
    ensures Fill([Hole(name)] + rest, [x]) == x + Fill(rest, [])
  {
    var toks := [Hole(name)] + rest;
    assert toks[1..] == rest;
    assert [x][1..] == [];
  }

  lemma OnePlaceholderFill(prefix: string, name: string, suffix: string, x: string)
    ensures Names(OnePlaceholderTokens(prefix, name, suffix)) == [name]
    ensures Fill(OnePlaceholderTokens(prefix, name, suffix), [x]) == prefix + x + suffix
  {
    var ls := Literals(suffix);
    var tail := [Hole(name)] + ls;
    assert OnePlaceholderTokens(prefix, name, suffix) == Literals(prefix) + tail;
    FillLiterals(suffix, [], []);
    assert ls + [] == ls && suffix + [] == suffix;
    FillHole(name, ls, x);
    FillLiterals(prefix, tail, [x]);
    assert prefix + (x + suffix) == prefix + x + suffix;
  }

  /**
   * A template with literal text, one placeholder ending its segment and
   * literal text is supported and has that one name.
   */
  lemma OnePlaceholder(prefix: string, name: string, suffix: string)
    requires ':' !in prefix && ':' !in suffix
    requires forall i :: 0 <= i < |prefix| ==> !IsRegexMeta(prefix[i])
    requires forall i :: 0 <= i < |suffix| ==> !IsRegexMeta(suffix[i])
    requires IsName(name)
    requires suffix == [] || suffix[0] == '/'
    ensures Tokenize(prefix + [':'] + name + suffix) == OnePlaceholderTokens(prefix, name, suffix)
    ensures Supported(prefix + [':'] + name + suffix)
    ensures Names(OnePlaceholderTokens(prefix, name, suffix)) == [name]
  {
    OnePlaceholderTokenize(prefix, name, suffix);
    OnePlaceholderShape(prefix, name, suffix);
    OnePlaceholderNames(prefix, name, suffix);
  }

  lemma ParamsOfSingle(name: string, x: string)
    ensures ParamsOf([name], [x]) == map[name := x]
  {
    assert [name][..0] == [] && [x][..0] == [];
  }

  /**
   * For a template with a single placeholder, a path made of the literal
   * text around one non-empty capture without `/` matches, and the map
   * binds the placeholder's name to that capture.
   */
  lemma ExtractOnePlaceholderComplete(prefix: string, name: string, suffix: string, x: string)
    requires ':' !in prefix && ':' !in suffix
    requires forall i :: 0 <= i < |prefix| ==> !IsRegexMeta(prefix[i])
    requires forall i :: 0 <= i < |suffix| ==> !IsRegexMeta(suffix[i])
    requires IsName(name)
    requires suffix == [] || suffix[0] == '/'
    requires ValidCapture(x)
    ensures Supported(prefix + [':'] + name + suffix)
    ensures Extract(prefix + [':'] + name + suffix, prefix + x + suffix) == Some(map[name := x])
  {
    var t := prefix + [':'] + name + suffix;
    OnePlaceholder(prefix, name, suffix);
    OnePlaceholderFill(prefix, name, suffix, x);
    ParamsOfSingle(name, x);
    ExtractComplete(t, [x]);
  }

  /**
   * Conversely, every path such a template matches has that form, so the
   * capture is the whole text between the literal prefix and suffix.
   */
  lemma ExtractOnePlaceholderSound(prefix: string, name: string, suffix: string, path: string)
    requires ':' !in prefix && ':' !in suffix
    requires forall i :: 0 <= i < |prefix| ==> !IsRegexMeta(prefix[i])
    requires forall i :: 0 <= i < |suffix| ==> !IsRegexMeta(suffix[i])
    requires IsName(name)
    requires suffix == [] || suffix[0] == '/'
    ensures Supported(prefix + [':'] + name + suffix)
    ensures Extract(prefix + [':'] + name + suffix, path).Some? ==>
      |prefix| + |suffix| < |path| &&
      path == prefix + path[|prefix|..|path| - |suffix|] + suffix &&
      ValidCapture(path[|prefix|..|path| - |suffix|]) &&
      Extract(prefix + [':'] + name + suffix, path) == Some(map[name := path[|prefix|..|path| - |suffix|]])
  {
    var t := prefix + [':'] + name + suffix;
    OnePlaceholder(prefix, name, suffix);
    var toks := Tokenize(t);
    var r := Captures(toks, path);
    if r.Some? {
      var x := r.value[0];
      assert r.value == [x];
      OnePlaceholderFill(prefix, name, suffix, x);
      ParamsOfSingle(name, x);
      assert path == prefix + x + suffix;
      assert path[|prefix|..|path| - |suffix|] == x;
    }
  }
}
