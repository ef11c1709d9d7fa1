/**
 * Laws of service-name patterns: literal patterns, generalisation, and a normal form of
 * wildcard runs that is the same for two patterns exactly when they match the same names.
 */
module PatternLaws {
  import opened Wrappers
  import opened DotSplit
  import opened ServiceNames

  // ---------------------------------------------------------------------------------------
  // Composition
  // ---------------------------------------------------------------------------------------

  lemma MatchSnoc(p: NamePattern, x: SectionPattern, n: seq<string>)
    ensures Matches(p + [x], n) <==> exists k :: 0 <= k <= |n| && Matches(p, n[..k]) && Fits(x, n[k..])
  {
    if Matches(p + [x], n) {
      var blocks :| IsCut(blocks, p + [x], n);
      var front := blocks[..|p|];
      var k := |Flatten(front)|;
      assert n[..k] == Flatten(front) && n[k..] == blocks[|p|];
      assert forall i :: 0 <= i < |p| ==> (p + [x])[i] == p[i];
      assert IsCut(front, p, n[..k]);
      assert Fits((p + [x])[|p|], blocks[|p|]);
    }
    if k :| 0 <= k <= |n| && Matches(p, n[..k]) && Fits(x, n[k..]) {
      var front :| IsCut(front, p, n[..k]);
      var blocks := front + [n[k..]];
      assert blocks[..|p|] == front;
      assert n == n[..k] + n[k..];
      assert IsCut(blocks, p + [x], n);
    }
  }

  lemma MatchEmpty(n: seq<string>)
    ensures Matches([], n) <==> n == []
  {
    if n == [] {
      assert IsCut([], [], n);
    }
  }

  /** Concatenated matches make a match. */
  lemma {:induction false} JoinMatches(p: NamePattern, q: NamePattern, n: seq<string>, m: seq<string>)
    requires Matches(p, n) && Matches(q, m)
    ensures Matches(p + q, n + m)
    decreases |q|
  {
    if q == [] {
      MatchEmpty(m);
      assert p + q == p && n + m == n;
    } else {
      var q', x := q[..|q| - 1], q[|q| - 1];
      assert q == q' + [x] && p + q == (p + q') + [x];
      MatchSnoc(q', x, m);
      var k :| 0 <= k <= |m| && Matches(q', m[..k]) && Fits(x, m[k..]);
      JoinMatches(p, q', n, m[..k]);
      assert (n + m)[..|n| + k] == n + m[..k] && (n + m)[|n| + k..] == m[k..];
      MatchSnoc(p + q', x, n + m);
    }
  }

  lemma {:induction false} CutMatch(p: NamePattern, q: NamePattern, n: seq<string>) returns (k: nat)
    requires Matches(p + q, n)
    ensures k <= |n| && Matches(p, n[..k]) && Matches(q, n[k..])
    decreases |q|
  {
    if q == [] {
      k := |n|;
      assert p + q == p && n[..k] == n;
      MatchEmpty(n[k..]);
    } else {
      var q', x := q[..|q| - 1], q[|q| - 1];
      assert q == q' + [x] && p + q == (p + q') + [x];
      MatchSnoc(p + q', x, n);
      var m :| 0 <= m <= |n| && Matches(p + q', n[..m]) && Fits(x, n[m..]);
      k := CutMatch(p, q', n[..m]);
      assert n[..m][..k] == n[..k];
      assert n[..m][k..] == n[k..][..m - k];
      assert n[m..] == n[k..][m - k..];
      MatchSnoc(q', x, n[k..]);
    }
  }

  /** A concatenated pattern matches iff the name can be cut in two for the two halves. */
  lemma MatchConcat(p: NamePattern, q: NamePattern, n: seq<string>)
    ensures Matches(p + q, n) <==> exists k :: 0 <= k <= |n| && Matches(p, n[..k]) && Matches(q, n[k..])
  {
    if Matches(p + q, n) {
      var k := CutMatch(p, q, n);
    }
    if k :| 0 <= k <= |n| && Matches(p, n[..k]) && Matches(q, n[k..]) {
      JoinMatches(p, q, n[..k], n[k..]);
      assert n == n[..k] + n[k..];
    }
  }

  /** Replacing a stretch of a pattern by one with the same meaning keeps the whole meaning. */
  lemma MatchCongruence(a: NamePattern, b: NamePattern, c: NamePattern, rest: NamePattern, n: seq<string>)
    requires forall m: seq<string> :: Matches(b, m) <==> Matches(c, m)
    ensures Matches(a + b + rest, n) <==> Matches(a + c + rest, n)
  {
    MatchConcat(a + b, rest, n);
    MatchConcat(a + c, rest, n);
    forall k | 0 <= k <= |n| ensures Matches(a + b, n[..k]) <==> Matches(a + c, n[..k]) {
      MatchConcat(a, b, n[..k]);
      MatchConcat(a, c, n[..k]);
    }
  }

  // ---------------------------------------------------------------------------------------
  // Literals and generalisation
  // ---------------------------------------------------------------------------------------

  /** `q` is `p` with some literals turned into wildcards and some `*` into `**`. */
  ghost predicate Generalises(p: NamePattern, q: NamePattern) {
    && |p| == |q|
    && forall i :: 0 <= i < |p| ==>
         p[i] == q[i] || q[i].AnySections? || (q[i].AnyName? && p[i].Section?)
  }

  /** Generalising never loses a match. */
  lemma GeneraliseKeepsMatches(p: NamePattern, q: NamePattern, n: seq<string>)
    requires Generalises(p, q) && Matches(p, n)
    ensures Matches(q, n)
  {
    var blocks :| IsCut(blocks, p, n);
    assert IsCut(blocks, q, n);
  }

  lemma {:induction false} LiteralMatch(p: NamePattern, n: seq<string>)
    requires forall i :: 0 <= i < |p| ==> p[i].Section?
    ensures Matches(p, n) <==> n == Printed(p)
  {
    if p == [] {
      MatchEmpty(n);
    } else {
      var p', x := p[..|p| - 1], p[|p| - 1];
      assert p == p' + [x];
      assert Printed(p) == Printed(p') + [x.name];
      MatchSnoc(p', x, n);
      if n != [] {
        LiteralMatch(p', n[..|n| - 1]);
        assert n == n[..|n| - 1] + n[|n| - 1..];
      }
      forall k | 0 <= k <= |n| && Fits(x, n[k..]) ensures k == |n| - 1 && n[k] == x.name {
        assert n[k] == n[k..][0];
      }
    }
  }

  /** A pattern without asterisks matches a well-formed name iff they are the same string. */
  lemma LiteralPatternIsEquality(s: string, p: NamePattern, name: string)
    requires ParseOutcome(s, Ok(p)) && '*' !in s
    ensures Matches(p, Split(name)) <==> name == s
  {
    PrintedSections(p);
    SplitChars(s, '*');
    forall i | 0 <= i < |p| ensures p[i].Section? {
      assert '*' !in Split(s)[i];
      assert Split(s)[i] == PrintSection(p[i]);
      assert "*"[0] == '*' && "**"[0] == '*';
    }
    LiteralMatch(p, Split(name));
    if Matches(p, Split(name)) {
      SplitInjective(name, s);
    }
  }

  // ---------------------------------------------------------------------------------------
  // Wildcard runs
  // ---------------------------------------------------------------------------------------

  predicate Wild(x: SectionPattern) {
    !x.Section?
  }

  ghost predicate AllWild(w: NamePattern) {
    forall i :: 0 <= i < |w| ==> Wild(w[i])
  }

  predicate HasStars(w: NamePattern) {
    exists i :: 0 <= i < |w| && w[i].AnySections?
  }

  /** A run of wildcards only counts sections: exactly its length, or at least that with a `**` in it. */
  lemma {:induction false} RunMatch(w: NamePattern, n: seq<string>)
    requires AllWild(w)
    ensures Matches(w, n) <==> if HasStars(w) then |n| >= |w| else |n| == |w|
  {
    if w == [] {
      MatchEmpty(n);
    } else {
      var u, x := w[..|w| - 1], w[|w| - 1];
      assert w == u + [x];
      assert HasStars(w) <==> HasStars(u) || x.AnySections? by {
        if HasStars(u) {
          var i :| 0 <= i < |u| && u[i].AnySections?;
          assert w[i].AnySections?;
        }
      }
      MatchSnoc(u, x, n);
      forall k | 0 <= k <= |n|
        ensures Matches(u, n[..k]) <==> if HasStars(u) then k >= |u| else k == |u|
      {
        RunMatch(u, n[..k]);
      }
      if |n| >= |w| {
        var k := if x.AnySections? then |u| else |n| - 1;
        assert Fits(x, n[k..]);
        if if HasStars(w) then |n| >= |w| else |n| == |w| {
          assert Matches(u, n[..k]);
        }
      }
    }
  }

  /** The normal form of a run: all `*`, but the last one `**` if there was a `**` anywhere. */
  function NormalRun(w: NamePattern): NamePattern {
    if HasStars(w) then seq(|w| - 1, _ => AnyName) + [AnySections] else w
  }

  lemma NormalRunMatch(w: NamePattern, n: seq<string>)
    requires AllWild(w)
    ensures Matches(NormalRun(w), n) <==> Matches(w, n)
  {
    RunMatch(w, n);
    var v := NormalRun(w);
    if HasStars(w) {
      assert v[|v| - 1].AnySections?;
    }
    RunMatch(v, n);
  }

  function RunLength(p: NamePattern): (k: nat)
    ensures k <= |p|
    ensures forall i :: 0 <= i < k ==> Wild(p[i])
    ensures k < |p| ==> !Wild(p[k])
  {
    if p == [] || !Wild(p[0]) then 0 else 1 + RunLength(p[1..])
  }

  /** Every maximal run of wildcards in its normal form. */
  function Normalize(p: NamePattern): NamePattern
    decreases |p|
  {
    if p == [] then []
    else if Wild(p[0]) then
      assert RunLength(p) > 0;
      NormalRun(p[..RunLength(p)]) + Normalize(p[RunLength(p)..])
    else [p[0]] + Normalize(p[1..])
  }

  /** Normalising replaces the first run, or keeps the first literal, and goes on with the rest. */
  lemma NormalizeHead(p: NamePattern) returns (head: NamePattern, head': NamePattern, rest: NamePattern)
    requires p != []
    ensures p == head + rest && |rest| < |p| && Normalize(p) == head' + Normalize(rest)
    ensures forall m: seq<string> :: Matches(head, m) <==> Matches(head', m)
  {
    if Wild(p[0]) {
      var k := RunLength(p);
      head, head', rest := p[..k], NormalRun(p[..k]), p[k..];
      forall m: seq<string> ensures Matches(head, m) <==> Matches(head', m) {
        NormalRunMatch(head, m);
      }
    } else {
      head, head', rest := [p[0]], [p[0]], p[1..];
    }
  }

  /** Normalising keeps the meaning on every name. */
  lemma {:induction false} NormalizeKeepsMeaning(p: NamePattern, n: seq<string>)
    ensures Matches(Normalize(p), n) <==> Matches(p, n)
    decreases |p|
  {
    if p != [] {
      var head, head', rest := NormalizeHead(p);
      forall m: seq<string> ensures Matches(rest, m) <==> Matches(Normalize(rest), m) {
        NormalizeKeepsMeaning(rest, m);
      }
      MatchCongruence([], head, head', rest, n);
      MatchCongruence(head', rest, Normalize(rest), [], n);
      NoEnds(head, rest);
      NoEnds(head', rest);
      NoEnds(head', Normalize(rest));
    }
  }

  lemma NoEnds(a: NamePattern, b: NamePattern)
    ensures [] + a + b == a + b && a + b + [] == a + b
  {
  }

  // ---------------------------------------------------------------------------------------
  // The normal form is canonical
  // ---------------------------------------------------------------------------------------

  /** `**` only ends a run of wildcards. */
  ghost predicate Normal(p: NamePattern) {
    forall i :: 0 <= i < |p| - 1 && p[i].AnySections? ==> p[i + 1].Section?
  }

  ghost predicate LiteralsOf(p: NamePattern, q: NamePattern) {
    forall x: string :: Section(x) in p ==> Section(x) in q
  }

  lemma {:induction false} NormalizeIsNormal(p: NamePattern)
    ensures Normal(Normalize(p)) && |Normalize(p)| == |p|
    ensures LiteralsOf(Normalize(p), p)
    ensures p != [] ==> (Wild(Normalize(p)[0]) <==> Wild(p[0]))
    decreases |p|
  {
    if p != [] {
      if Wild(p[0]) {
        var k := RunLength(p);
        var rest := p[k..];
        var run := NormalRun(p[..k]);
        NormalizeIsNormal(rest);
        assert |run| == k && AllWild(run);
        assert forall i :: 0 <= i < k - 1 ==> !run[i].AnySections? by {
          if !HasStars(p[..k]) {
            assert forall i :: 0 <= i < k ==> run[i] == p[..k][i];
          }
        }
        assert Normalize(p) == run + Normalize(rest);
        forall x: string | Section(x) in Normalize(p) ensures Section(x) in p {
          assert Section(x) in Normalize(rest);
          assert Section(x) in rest;
        }
      } else {
        NormalizeIsNormal(p[1..]);
        forall x: string | Section(x) in Normalize(p) ensures Section(x) in p {
          assert Section(x) == p[0] || Section(x) in p[1..];
        }
      }
    }
  }

  /** No block is empty, and with as many sections as patterns every block is one section. */
  lemma {:induction false} TightMatch(p: NamePattern, n: seq<string>)
    requires Matches(p, n)
    ensures |p| <= |n|
    ensures |p| == |n| ==> forall i :: 0 <= i < |p| ==> Fits(p[i], [n[i]])
  {
    if p == [] {
      MatchEmpty(n);
    } else {
      var p', x := p[..|p| - 1], p[|p| - 1];
      assert p == p' + [x];
      MatchSnoc(p', x, n);
      var k :| 0 <= k <= |n| && Matches(p', n[..k]) && Fits(x, n[k..]);
      TightMatch(p', n[..k]);
      if |p| == |n| {
        assert n[k..] == [n[k]];
        forall i | 0 <= i < |p| ensures Fits(p[i], [n[i]]) {
          if i < |p'| {
            assert Fits(p'[i], [n[..k][i]]);
          }
        }
      }
    }
  }

  /** With one section more than patterns, exactly one `**` takes two sections. */
  lemma {:induction false} SlackMatch(p: NamePattern, n: seq<string>) returns (j: nat)
    requires Matches(p, n) && |n| == |p| + 1
    ensures j < |p| && p[j].AnySections?
    ensures forall i :: 0 <= i < j ==> Fits(p[i], [n[i]])
    ensures forall i :: j < i < |p| ==> Fits(p[i], [n[i + 1]])
  {
    if p == [] {
      MatchEmpty(n);
      assert false;
    } else {
      var p', x := p[..|p| - 1], p[|p| - 1];
      assert p == p' + [x];
      MatchSnoc(p', x, n);
      var k :| 0 <= k <= |n| && Matches(p', n[..k]) && Fits(x, n[k..]);
      TightMatch(p', n[..k]);
      assert k == |n| - |n[k..]| && |p'| == |n| - 2;
      if k == |p'| {
        j := |p'|;
        SameFits(p', n, k);
      } else {
        assert k == |n| - 1 && n[k..] == [n[k]];
        j := SlackMatch(p', n[..k]);
        SlackExtends(p', x, n, j);
      }
    }
  }

  /** What fits the sections of a prefix fits them in the whole name. */
  lemma SameFits(p: NamePattern, n: seq<string>, k: nat)
    requires |p| == k <= |n| && forall i :: 0 <= i < k ==> Fits(p[i], [n[..k][i]])
    ensures forall i :: 0 <= i < k ==> Fits(p[i], [n[i]])
  {
    forall i | 0 <= i < k ensures Fits(p[i], [n[i]]) {
      assert Fits(p[i], [n[..k][i]]);
    }
  }

  /** One more section at the end of a match with slack at `j`. */
  lemma SlackExtends(p: NamePattern, x: SectionPattern, n: seq<string>, j: nat)
    requires |n| == |p| + 2 && j < |p| && Fits(x, [n[|n| - 1]])
    requires forall i :: 0 <= i < j ==> Fits(p[i], [n[..|n| - 1][i]])
    requires forall i :: j < i < |p| ==> Fits(p[i], [n[..|n| - 1][i + 1]])
    ensures forall i :: 0 <= i < j ==> Fits((p + [x])[i], [n[i]])
    ensures forall i :: j < i < |p| + 1 ==> Fits((p + [x])[i], [n[i + 1]])
  {
    forall i | 0 <= i < j ensures Fits((p + [x])[i], [n[i]]) {
      assert Fits(p[i], [n[..|n| - 1][i]]);
    }
    forall i | j < i < |p| + 1 ensures Fits((p + [x])[i], [n[i + 1]]) {
      if i < |p| {
        assert Fits(p[i], [n[..|n| - 1][i + 1]]);
      }
    }
  }

  /** The shortest name a pattern matches, with `f` for every wildcard. */
  function Shortest(p: NamePattern, f: string): (n: seq<string>)
    ensures |n| == |p|
    ensures forall i :: 0 <= i < |p| ==> n[i] == if p[i].Section? then p[i].name else f
  {
    seq(|p|, i requires 0 <= i < |p| => if p[i].Section? then p[i].name else f)
  }

  lemma {:induction false} ShortestMatches(p: NamePattern, f: string)
    ensures Matches(p, Shortest(p, f))
  {
    if p == [] {
      MatchEmpty([]);
    } else {
      var p', x := p[..|p| - 1], p[|p| - 1];
      ShortestMatches(p', f);
      var n := Shortest(p, f);
      assert p == p' + [x] && n[..|p'|] == Shortest(p', f);
      assert n[|p'|..] == [n[|p'|]];
      MatchSnoc(p', x, n);
    }
  }

  /** The shortest name with one more section for the `**` at `e`. */
  function Stretched(p: NamePattern, f: string, e: nat): (n: seq<string>)
    requires e < |p|
    ensures |n| == |p| + 1
    ensures n[e + 1] == if p[e].Section? then p[e].name else f
    ensures forall i :: 0 <= i < e && Wild(p[i]) ==> n[i] == f
    ensures Wild(p[e]) ==> n[e] == f
  {
    Shortest(p, f)[..e] + [f] + Shortest(p, f)[e..]
  }

  lemma StretchedParts(p: NamePattern, f: string, e: nat)
    requires e < |p| && p[e].AnySections?
    ensures Stretched(p, f, e) == Shortest(p[..e], f) + ([f, f] + Shortest(p[e + 1..], f))
  {
    var n := Shortest(p, f);
    assert n[..e] == Shortest(p[..e], f);
    assert n[e + 1..] == Shortest(p[e + 1..], f);
    assert n[e..] == [f] + n[e + 1..];
    assert n[..e] + [f] + ([f] + n[e + 1..]) == n[..e] + ([f, f] + n[e + 1..]);
  }

  lemma StarsMatchPair(f: string)
    ensures Matches([AnySections], [f, f])
  {
    RunMatch([AnySections], [f, f]);
    assert [AnySections][0].AnySections?;
  }

  lemma StretchedMatches(p: NamePattern, f: string, e: nat)
    requires e < |p| && p[e].AnySections?
    ensures Matches(p, Stretched(p, f, e))
  {
    var a, c := p[..e], p[e + 1..];
    ShortestMatches(a, f);
    ShortestMatches(c, f);
    StarsMatchPair(f);
    JoinMatches([AnySections], c, [f, f], Shortest(c, f));
    JoinMatches(a, [AnySections] + c, Shortest(a, f), [f, f] + Shortest(c, f));
    assert p == a + ([AnySections] + c);
    StretchedParts(p, f, e);
  }

  ghost predicate NameSections(n: seq<string>) {
    forall i :: 0 <= i < |n| ==> NameSection(n[i])
  }

  ghost predicate SameMeaning(p: NamePattern, q: NamePattern) {
    forall n: seq<string> :: NameSections(n) ==> (Matches(p, n) <==> Matches(q, n))
  }

  ghost predicate GoodLiterals(p: NamePattern) {
    forall i :: 0 <= i < |p| && p[i].Section? ==> NameSection(p[i].name)
  }

  ghost predicate Fresh(f: string, p: NamePattern) {
    NameSection(f) && forall i :: 0 <= i < |p| && p[i].Section? ==> p[i].name != f
  }

  /** Patterns that match the same names have the same length and the same literals. */
  lemma SameLiterals(p: NamePattern, q: NamePattern, f: string)
    requires SameMeaning(p, q) && GoodLiterals(p) && GoodLiterals(q) && Fresh(f, p) && Fresh(f, q)
    ensures |p| == |q|
    ensures forall i :: 0 <= i < |p| && q[i].Section? ==> p[i] == q[i]
    ensures forall i :: 0 <= i < |p| && p[i].Section? ==> p[i] == q[i]
  {
    ShortestMatches(p, f);
    ShortestMatches(q, f);
    TightMatch(q, Shortest(p, f));
    TightMatch(p, Shortest(q, f));
    forall i | 0 <= i < |p| ensures (p[i].Section? || q[i].Section?) ==> p[i] == q[i] {
      assert Fits(q[i], [Shortest(p, f)[i]]) && Fits(p[i], [Shortest(q, f)[i]]);
      if q[i].Section? {
        assert [q[i].name][0] == [Shortest(p, f)[i]][0];
      }
      if p[i].Section? {
        assert [p[i].name][0] == [Shortest(q, f)[i]][0];
      }
    }
  }

  /** Between an earlier `**` and a wildcard of the next run there is a literal just before that run. */
  lemma {:induction false} LiteralBefore(q: NamePattern, j: nat, e: nat) returns (l: nat)
    requires j < e < |q| && Wild(q[e]) && q[j + 1].Section?
    ensures j < l < e && q[l].Section? && Wild(q[l + 1])
    decreases e
  {
    if q[e - 1].Section? {
      l := e - 1;
    } else {
      l := LiteralBefore(q, j, e - 1);
    }
  }

  lemma LiteralIsNotFresh(q: NamePattern, f: string, l: nat, section: string)
    requires Fresh(f, q) && l < |q| && q[l].Section? && Fits(q[l], [section])
    ensures section != f
  {
    assert [q[l].name][0] == [section][0];
  }

  /** In normal patterns with the same meaning, a `**` stands against a `**`. */
  lemma SameStars(p: NamePattern, q: NamePattern, f: string, e: nat)
    requires SameMeaning(p, q) && GoodLiterals(p) && GoodLiterals(q) && Fresh(f, p) && Fresh(f, q)
    requires Normal(p) && Normal(q)
    requires e < |p| && p[e].AnySections?
    ensures e < |q| && q[e].AnySections?
  {
    SameLiterals(p, q, f);
    StretchedMatches(p, f, e);
    StretchedSections(p, f, e);
    var j := SlackMatch(q, Stretched(p, f, e));
    StarsMeet(p, q, f, e, j);
  }

  lemma StretchedSections(p: NamePattern, f: string, e: nat)
    requires GoodLiterals(p) && NameSection(f) && e < |p|
    ensures NameSections(Stretched(p, f, e))
  {
  }

  lemma StarsMeet(p: NamePattern, q: NamePattern, f: string, e: nat, j: nat)
    requires |p| == |q| && Normal(p) && Normal(q) && Fresh(f, q)
    requires e < |p| && p[e].AnySections? && j < |q| && q[j].AnySections?
    requires forall i :: 0 <= i < |p| ==> (Wild(p[i]) <==> Wild(q[i]))
    requires forall i :: 0 <= i < j ==> Fits(q[i], [Stretched(p, f, e)[i]])
    requires forall i :: j < i < |q| ==> Fits(q[i], [Stretched(p, f, e)[i + 1]])
    ensures j == e
  {
    var n := Stretched(p, f, e);
    if j < e {
      var l := LiteralBefore(q, j, e);
      LiteralIsNotFresh(q, f, l, n[l + 1]);
    } else if j > e {
      LiteralIsNotFresh(q, f, e + 1, n[e + 1]);
    }
  }

  lemma {:induction false} CanonicalForm(p: NamePattern, q: NamePattern, f: string)
    requires SameMeaning(p, q) && GoodLiterals(p) && GoodLiterals(q) && Fresh(f, p) && Fresh(f, q)
    requires Normal(p) && Normal(q)
    ensures p == q
  {
    SameLiterals(p, q, f);
    forall i | 0 <= i < |p| ensures p[i] == q[i] {
      if p[i].AnySections? {
        SameStars(p, q, f, i);
      } else if q[i].AnySections? {
        SameStars(q, p, f, i);
      }
    }
  }

  /** A literal longer than any in the pattern. */
  lemma {:induction false} FreshLiteral(p: NamePattern) returns (f: string)
    ensures Fresh(f, p)
    ensures forall i :: 0 <= i < |p| && p[i].Section? ==> |p[i].name| < |f|
    ensures forall i :: 0 <= i < |f| ==> f[i] == 'a'
  {
    if p == [] {
      f := "a";
    } else {
      var g := FreshLiteral(p[1..]);
      f := if p[0].Section? && |p[0].name| >= |g| then seq(|p[0].name| + 1, _ => 'a') else g;
      forall i | 0 <= i < |p| && p[i].Section? ensures |p[i].name| < |f| {
        if i > 0 {
          assert p[i] == p[1..][i - 1];
        }
      }
    }
  }

  /**
   * Two patterns match the same names exactly when their normal forms are equal: a wildcard
   * run counts for its length and for holding a `**`, and for nothing else.
   */
  lemma NormalFormDecidesMeaning(p: NamePattern, q: NamePattern)
    requires WellFormed(p) && WellFormed(q)
    ensures SameMeaning(p, q) <==> Normalize(p) == Normalize(q)
  {
    var p', q' := Normalize(p), Normalize(q);
    forall n: seq<string>
      ensures (Matches(p', n) <==> Matches(p, n)) && (Matches(q', n) <==> Matches(q, n))
    {
      NormalizeKeepsMeaning(p, n);
      NormalizeKeepsMeaning(q, n);
    }
    if SameMeaning(p, q) {
      NormalizeIsNormal(p);
      NormalizeIsNormal(q);
      NormalizedLiterals(p);
      NormalizedLiterals(q);
      var f := FreshLiteral(p' + q');
      assert Fresh(f, p') by {
        assert forall i :: 0 <= i < |p'| ==> (p' + q')[i] == p'[i];
      }
      assert Fresh(f, q') by {
        assert forall i :: 0 <= i < |q'| ==> (p' + q')[|p'| + i] == q'[i];
      }
      assert SameMeaning(p', q');
      CanonicalForm(p', q', f);
    }
  }

  lemma NormalizedLiterals(p: NamePattern)
    requires WellFormed(p)
    ensures GoodLiterals(Normalize(p))
  {
    NormalizeIsNormal(p);
    forall i | 0 <= i < |Normalize(p)| && Normalize(p)[i].Section? ensures NameSection(Normalize(p)[i].name) {
      assert Section(Normalize(p)[i].name) in Normalize(p);
      var j :| 0 <= j < |p| && p[j] == Section(Normalize(p)[i].name);
    }
  }
}
