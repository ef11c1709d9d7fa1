/**
 * Service-name patterns: the parser, the printer, and the matcher that walks a set of
 * pattern positions ("leaves") over the sections of a name.
 */
module ServiceNames {
  import opened Wrappers
  import opened DotSplit

  datatype NameError =
    | InvalidSection(section: string)
    | NameContainsAsterisk
    | EmptySection

  datatype SectionPattern =
    | AnyName                  // `*`
    | AnySections              // `**`
    | Section(name: string)    // a literal

  type NamePattern = seq<SectionPattern>

  // ---------------------------------------------------------------------------------------
  // Parsing
  // ---------------------------------------------------------------------------------------

  function ParseSection(s: string): Result<SectionPattern, NameError> {
    if s == "" then Err(EmptySection)
    else if '*' in s then
      if s == "*" then Ok(AnyName)
      else if s == "**" then Ok(AnySections)
      else Err(InvalidSection(s))
    else Ok(Section(s))
  }

  /** A section the parser takes: a non-empty literal without asterisks, or `*`, or `**`. */
  predicate GoodSection(s: string) {
    s != "" && ('*' !in s || s == "*" || s == "**")
  }

  ghost predicate AllGood(sections: seq<string>) {
    forall i :: 0 <= i < |sections| ==> GoodSection(sections[i])
  }

  function PrintSection(p: SectionPattern): string {
    match p
    case AnyName => "*"
    case AnySections => "**"
    case Section(x) => x
  }

  function Printed(p: NamePattern): (r: seq<string>)
    ensures |r| == |p| && forall i :: 0 <= i < |p| ==> r[i] == PrintSection(p[i])
  {
    seq(|p|, i requires 0 <= i < |p| => PrintSection(p[i]))
  }

  function Print(p: NamePattern): string
    requires p != []
  {
    Join(Printed(p))
  }

  /** A section of a service name: no dot, no asterisk, not empty. */
  predicate NameSection(s: string) {
    s != "" && '.' !in s && '*' !in s
  }

  /** What every parsed pattern looks like: at least one section, literals that are name sections. */
  ghost predicate WellFormed(p: NamePattern) {
    p != [] && forall i :: 0 <= i < |p| && p[i].Section? ==> NameSection(p[i].name)
  }

  ghost predicate FirstBad(sections: seq<string>, k: int) {
    0 <= k < |sections| && AllGood(sections[..k]) && !GoodSection(sections[k])
  }

  function Complaint(section: string): NameError {
    if section == "" then EmptySection else InvalidSection(section)
  }

  /**
   * The outcome of parsing, without saying how it is found: the pattern whose printed form is
   * the string, or the complaint about the first bad section.
   */
  ghost predicate ParseOutcome(s: string, r: Result<NamePattern, NameError>) {
    match r
    case Ok(p) => WellFormed(p) && Print(p) == s
    case Err(e) =>
      exists k :: FirstBad(Split(s), k) && e == Complaint(Split(s)[k])
  }

  lemma SectionOutcome(s: string)
    requires '.' !in s
    ensures ParseSection(s).Ok? <==> GoodSection(s)
    ensures ParseSection(s).Ok? ==>
      && PrintSection(ParseSection(s).value) == s
      && (ParseSection(s).value.Section? ==> NameSection(ParseSection(s).value.name))
    ensures ParseSection(s).Err? ==> ParseSection(s).error == Complaint(s)
  {
  }

  ghost predicate ParsedPrefix(sections: seq<string>, patterns: NamePattern) {
    && |patterns| <= |sections|
    && forall j :: 0 <= j < |patterns| ==>
        && GoodSection(sections[j])
        && PrintSection(patterns[j]) == sections[j]
        && (patterns[j].Section? ==> NameSection(patterns[j].name))
  }

  lemma ParsedAll(s: string, patterns: NamePattern)
    requires ParsedPrefix(Split(s), patterns) && |patterns| == |Split(s)|
    ensures ParseOutcome(s, Ok(patterns))
  {
    JoinSplit(s);
    assert Printed(patterns) == Split(s);
  }

  lemma ParseStopped(s: string, patterns: NamePattern, k: nat)
    requires k == |patterns| < |Split(s)| && ParsedPrefix(Split(s), patterns)
    requires ParseSection(Split(s)[k]).Err?
    ensures ParseOutcome(s, Err(ParseSection(Split(s)[k]).error))
  {
    assert FirstBad(Split(s), k);
  }

  lemma ParsedOneMore(sections: seq<string>, patterns: NamePattern, p: SectionPattern)
    requires ParsedPrefix(sections, patterns) && |patterns| < |sections| && '.' !in sections[|patterns|]
    requires ParseSection(sections[|patterns|]) == Ok(p)
    ensures ParsedPrefix(sections, patterns + [p])
  {
    SectionOutcome(sections[|patterns|]);
  }

  /**
   * The pattern matches what its text says, and the complaint names the first section that is empty or
   * mixes asterisks with anything else.
   */
  method FromString(s: string) returns (r: Result<NamePattern, NameError>)
    ensures ParseOutcome(s, r)
    ensures r.Ok? ==> forall n: seq<string> :: Matches(r.value, n) <==> TextMatches(s, n)
    ensures r.Ok? ==> forall x :: x in Split(s) ==> x != "" && ('*' in x ==> x == "*" || x == "**")
    ensures r.Err? ==> exists k :: 0 <= k < |Split(s)| && var x := Split(s)[k];
      && (forall y :: y in Split(s)[..k] ==> y != "" && ('*' in y ==> y == "*" || y == "**"))
      && (x == "" || ('*' in x && x != "*" && x != "**"))
      && r.error == if x == "" then EmptySection else InvalidSection(x)
  {
    var sections := Split(s);
    JoinSplit(s);
    var patterns: NamePattern := [];
    for i := 0 to |sections|
      invariant |patterns| == i && ParsedPrefix(sections, patterns)
    {
      var section := ParseSection(sections[i]);
      if section.Err? {
        ParseStopped(s, patterns, i);
        StoppedText(s, section.error);
        return Err(section.error);
      }
      ParsedOneMore(sections, patterns, section.value);
      patterns := patterns + [section.value];
    }
    ParsedAll(s, patterns);
    ParsedText(s, patterns);
    return Ok(patterns);
  }

  lemma StoppedText(s: string, e: NameError)
    requires ParseOutcome(s, Err(e))
    ensures exists k :: 0 <= k < |Split(s)| && var x := Split(s)[k];
      && (forall y :: y in Split(s)[..k] ==> y != "" && ('*' in y ==> y == "*" || y == "**"))
      && (x == "" || ('*' in x && x != "*" && x != "**"))
      && e == if x == "" then EmptySection else InvalidSection(x)
  {
    var k :| FirstBad(Split(s), k) && e == Complaint(Split(s)[k]);
    forall y | y in Split(s)[..k] ensures GoodSection(y) {
      var j :| 0 <= j < k && Split(s)[..k][j] == y;
    }
  }

  lemma ParsedText(s: string, p: NamePattern)
    requires ParseOutcome(s, Ok(p))
    ensures forall n: seq<string> :: Matches(p, n) <==> TextMatches(s, n)
    ensures forall x :: x in Split(s) ==> x != "" && ('*' in x ==> x == "*" || x == "**")
  {
    ParseAccepts(s, Ok(p));
    forall n: seq<string> ensures Matches(p, n) <==> TextMatches(s, n) {
      TextMeaning(s, p, n);
    }
  }

  /** No string has two parse outcomes, so `ParseOutcome` fixes what `FromString` returns. */
  lemma ParseOutcomeUnique(s: string, r1: Result<NamePattern, NameError>, r2: Result<NamePattern, NameError>)
    requires ParseOutcome(s, r1) && ParseOutcome(s, r2)
    ensures r1 == r2
  {
    ParseAccepts(s, r1);
    ParseAccepts(s, r2);
    if r1.Ok? {
      PrintInjective(r1.value, r2.value);
    }
  }

  /** The sections of a printed pattern are its printed sections. */
  lemma PrintedSections(p: NamePattern)
    requires WellFormed(p)
    ensures Split(Print(p)) == Printed(p)
    ensures AllGood(Printed(p))
  {
    SplitJoin(Printed(p));
  }

  lemma PrintInjective(p: NamePattern, q: NamePattern)
    requires WellFormed(p) && WellFormed(q) && Print(p) == Print(q)
    ensures p == q
  {
    PrintedSections(p);
    PrintedSections(q);
    assert |p| == |q|;
    forall i | 0 <= i < |p| ensures p[i] == q[i] {
      assert PrintSection(p[i]) == Printed(p)[i] == Printed(q)[i] == PrintSection(q[i]);
    }
  }

  /** Parsing accepts a string iff every dot-section of it is acceptable. */
  lemma ParseAccepts(s: string, r: Result<NamePattern, NameError>)
    requires ParseOutcome(s, r)
    ensures r.Ok? <==> AllGood(Split(s))
  {
    match r
    case Ok(p) =>
      PrintedSections(p);
    case Err(_) =>
      var k :| FirstBad(Split(s), k);
  }

  /** Parsing a printed pattern gives the pattern back. */
  lemma ParsePrint(p: NamePattern, r: Result<NamePattern, NameError>)
    requires WellFormed(p) && ParseOutcome(Print(p), r)
    ensures r == Ok(p)
  {
    ParseOutcomeUnique(Print(p), r, Ok(p));
  }

  // ---------------------------------------------------------------------------------------
  // Meaning
  // ---------------------------------------------------------------------------------------

  function Flatten(blocks: seq<seq<string>>): seq<string> {
    if blocks == [] then [] else Flatten(blocks[..|blocks| - 1]) + blocks[|blocks| - 1]
  }

  /** What one section of a pattern stands for: that section, any one section, one or more sections. */
  predicate Fits(p: SectionPattern, block: seq<string>) {
    match p
    case Section(x) => block == [x]
    case AnyName => |block| == 1
    case AnySections => |block| >= 1
  }

  ghost predicate IsCut(blocks: seq<seq<string>>, p: NamePattern, n: seq<string>) {
    && |blocks| == |p|
    && Flatten(blocks) == n
    && forall i :: 0 <= i < |p| ==> Fits(p[i], blocks[i])
  }

  /** The meaning of a pattern: the name can be cut into blocks, one for each pattern section. */
  ghost predicate Matches(p: NamePattern, n: seq<string>) {
    exists blocks :: IsCut(blocks, p, n)
  }

  /** What one section of the text of a pattern stands for. */
  predicate TextFits(section: string, block: seq<string>) {
    if section == "*" then |block| == 1
    else if section == "**" then |block| >= 1
    else block == [section]
  }

  /** The meaning of the text of a pattern: a cut of the name into blocks, one for each section between dots. */
  ghost predicate TextMatches(s: string, n: seq<string>) {
    exists blocks :: TextCut(blocks, s, n)
  }

  ghost predicate TextCut(blocks: seq<seq<string>>, s: string, n: seq<string>) {
    && |blocks| == |Split(s)|
    && Flatten(blocks) == n
    && forall i :: 0 <= i < |blocks| ==> TextFits(Split(s)[i], blocks[i])
  }

  /** A parsed pattern matches exactly what its text matches. */
  lemma TextMeaning(s: string, p: NamePattern, n: seq<string>)
    requires ParseOutcome(s, Ok(p))
    ensures Matches(p, n) <==> TextMatches(s, n)
  {
    PrintedSections(p);
    assert |Split(s)| == |p|;
    forall i, block | 0 <= i < |p| ensures Fits(p[i], block) <==> TextFits(Split(s)[i], block) {
      assert Split(s)[i] == PrintSection(p[i]);
      SectionFits(p[i], block);
    }
    if Matches(p, n) {
      var blocks :| IsCut(blocks, p, n);
      assert TextCut(blocks, s, n);
    }
    if TextMatches(s, n) {
      var blocks :| TextCut(blocks, s, n);
      assert IsCut(blocks, p, n);
    }
  }

  lemma SectionFits(x: SectionPattern, block: seq<string>)
    requires x.Section? ==> NameSection(x.name)
    ensures Fits(x, block) <==> TextFits(PrintSection(x), block)
  {
    assert "*"[0] == '*' && "**"[0] == '*';
  }

  // ---------------------------------------------------------------------------------------
  // The matcher
  // ---------------------------------------------------------------------------------------

  /** The first `i` pattern sections match the first `k` name sections. */
  ghost predicate PrefixMatch(p: NamePattern, n: seq<string>, i: nat, k: nat)
    requires i <= |p| && k <= |n|
    decreases i + k
  {
    if i == 0 then k == 0
    else if k == 0 then false
    else match p[i - 1]
      case Section(x) => x == n[k - 1] && PrefixMatch(p, n, i - 1, k - 1)
      case AnyName => PrefixMatch(p, n, i - 1, k - 1)
      case AnySections => PrefixMatch(p, n, i - 1, k - 1) || PrefixMatch(p, n, i, k - 1)
  }

  lemma {:induction false} PrefixMatchExact(p: NamePattern, n: seq<string>, i: nat, k: nat)
    requires i <= |p| && k <= |n|
    ensures PrefixMatch(p, n, i, k) <==> Matches(p[..i], n[..k])
    decreases i + k
  {
    if PrefixMatch(p, n, i, k) {
      PrefixMatchSound(p, n, i, k);
    }
    if Matches(p[..i], n[..k]) {
      var blocks :| IsCut(blocks, p[..i], n[..k]);
      PrefixMatchComplete(p, n, i, k, blocks);
    }
  }

  lemma {:induction false} PrefixMatchSound(p: NamePattern, n: seq<string>, i: nat, k: nat)
    requires i <= |p| && k <= |n| && PrefixMatch(p, n, i, k)
    ensures Matches(p[..i], n[..k])
    decreases i + k
  {
    if i == 0 {
      assert IsCut([], p[..i], n[..k]);
    } else if PrefixMatch(p, n, i - 1, k - 1) && Fits(p[i - 1], [n[k - 1]]) {
      PrefixMatchSound(p, n, i - 1, k - 1);
      var blocks :| IsCut(blocks, p[..i - 1], n[..k - 1]);
      NewBlock(p, n, i, k, blocks);
    } else {
      PrefixMatchSound(p, n, i, k - 1);
      var blocks :| IsCut(blocks, p[..i], n[..k - 1]);
      LongerBlock(p, n, i, k, blocks);
    }
  }

  lemma NewBlock(p: NamePattern, n: seq<string>, i: nat, k: nat, blocks: seq<seq<string>>)
    requires 0 < i <= |p| && 0 < k <= |n| && Fits(p[i - 1], [n[k - 1]])
    requires IsCut(blocks, p[..i - 1], n[..k - 1])
    ensures Matches(p[..i], n[..k])
  {
    var cut := blocks + [[n[k - 1]]];
    assert cut[..|cut| - 1] == blocks;
    assert n[..k] == n[..k - 1] + [n[k - 1]];
    assert forall h :: 0 <= h < i - 1 ==> p[..i][h] == p[..i - 1][h];
    assert IsCut(cut, p[..i], n[..k]);
  }

  lemma LongerBlock(p: NamePattern, n: seq<string>, i: nat, k: nat, blocks: seq<seq<string>>)
    requires 0 < i <= |p| && 0 < k <= |n| && p[i - 1].AnySections?
    requires IsCut(blocks, p[..i], n[..k - 1])
    ensures Matches(p[..i], n[..k])
  {
    var longer := blocks[i - 1] + [n[k - 1]];
    var cut := blocks[..i - 1] + [longer];
    assert cut[..i - 1] == blocks[..i - 1];
    assert Flatten(cut) == Flatten(blocks[..i - 1]) + longer;
    assert n[..k] == n[..k - 1] + [n[k - 1]];
    assert Flatten(cut) == n[..k];
    assert IsCut(cut, p[..i], n[..k]);
  }

  lemma {:induction false} PrefixMatchComplete(p: NamePattern, n: seq<string>, i: nat, k: nat,
                                              blocks: seq<seq<string>>)
    requires i <= |p| && k <= |n| && IsCut(blocks, p[..i], n[..k])
    ensures PrefixMatch(p, n, i, k)
    decreases i + k
  {
    if i > 0 {
      var last := blocks[i - 1];
      assert Fits(p[..i][i - 1], last);
      assert n[..k] == Flatten(blocks[..i - 1]) + last;
      assert last[|last| - 1] == n[..k][k - 1];
      if |last| == 1 {
        PrefixMatchComplete(p, n, i - 1, k - 1, ShorterCut(p, n, i, k, blocks));
      } else {
        PrefixMatchComplete(p, n, i, k - 1, ThinnerCut(p, n, i, k, blocks));
      }
    }
  }

  /** Without the last block, when that block is one section. */
  ghost function ShorterCut(p: NamePattern, n: seq<string>, i: nat, k: nat, blocks: seq<seq<string>>):
    (cut: seq<seq<string>>)
    requires 0 < i <= |p| && 0 < k <= |n| && IsCut(blocks, p[..i], n[..k]) && |blocks[i - 1]| == 1
    ensures IsCut(cut, p[..i - 1], n[..k - 1])
  {
    assert n[..k] == Flatten(blocks[..i - 1]) + blocks[i - 1];
    assert n[..k - 1] == Flatten(blocks[..i - 1]);
    assert forall h :: 0 <= h < i - 1 ==> p[..i][h] == p[..i - 1][h];
    blocks[..i - 1]
  }

  /** With one section less in the last block, when that block is longer. */
  ghost function ThinnerCut(p: NamePattern, n: seq<string>, i: nat, k: nat, blocks: seq<seq<string>>):
    (cut: seq<seq<string>>)
    requires 0 < i <= |p| && 0 < k <= |n| && IsCut(blocks, p[..i], n[..k]) && |blocks[i - 1]| > 1
    ensures IsCut(cut, p[..i], n[..k - 1])
  {
    var last := blocks[i - 1];
    var thinner := last[..|last| - 1];
    var cut := blocks[..i - 1] + [thinner];
    assert Fits(p[..i][i - 1], last);
    assert cut[..i - 1] == blocks[..i - 1];
    assert n[..k] == Flatten(blocks[..i - 1]) + last;
    assert n[..k - 1] == Flatten(blocks[..i - 1]) + thinner;
    cut
  }

  /**
   * Position `i` is a leaf after `k` name sections: the patterns before it match those sections,
   * or it is `**` and they match fewer of them.
   */
  ghost predicate Leaf(p: NamePattern, n: seq<string>, i: nat, k: nat)
    requires i <= |p| && k <= |n|
  {
    exists j :: 0 <= j <= k && PrefixMatch(p, n, i, j) && (j == k || (i < |p| && p[i].AnySections?))
  }

  /** The leaves that one section of the name makes out of leaf `i`. */
  function Targets(p: NamePattern, section: string, i: nat): set<nat>
    requires i <= |p|
  {
    if i == |p| then {}
    else match p[i]
      case AnyName => {i + 1}
      case AnySections => {i, i + 1}
      case Section(x) => if x == section then {i + 1} else {}
  }

  /** Having `**` behind it, a position is matched exactly when that `**` was a leaf one section ago. */
  lemma {:induction false} MatchAfterStars(p: NamePattern, n: seq<string>, i: nat, k: nat)
    requires i < |p| && k < |n| && p[i].AnySections?
    ensures PrefixMatch(p, n, i + 1, k + 1) <==> Leaf(p, n, i, k)
  {
    if PrefixMatch(p, n, i + 1, k + 1) && !PrefixMatch(p, n, i, k) {
      assert PrefixMatch(p, n, i + 1, k);
      MatchAfterStars(p, n, i, k - 1);
    }
    if Leaf(p, n, i, k) {
      var j :| 0 <= j <= k && PrefixMatch(p, n, i, j);
      if j < k {
        assert Leaf(p, n, i, k - 1);
        MatchAfterStars(p, n, i, k - 1);
      }
    }
  }

  /** The leaves after one more section are exactly the targets of the leaves before it. */
  lemma LeafStep(p: NamePattern, n: seq<string>, i: nat, k: nat)
    requires i <= |p| && k < |n|
    ensures Leaf(p, n, i, k + 1) <==> exists h :: 0 <= h <= |p| && Leaf(p, n, h, k) && i in Targets(p, n[k], h)
  {
    if i < |p| && p[i].AnySections? {
      if Leaf(p, n, i, k) {
        assert i in Targets(p, n[k], i);
        assert Leaf(p, n, i, k + 1);
      }
    }
    if i > 0 {
      if p[i - 1].AnySections? {
        MatchAfterStars(p, n, i - 1, k);
      } else if PrefixMatch(p, n, i - 1, k) {
        assert Leaf(p, n, i - 1, k);
      }
      if PrefixMatch(p, n, i, k + 1) {
        assert Leaf(p, n, i - 1, k) && i in Targets(p, n[k], i - 1);
      }
      if Leaf(p, n, i - 1, k) && i in Targets(p, n[k], i - 1) {
        assert PrefixMatch(p, n, i, k + 1);
      }
    }
    if Leaf(p, n, i, k + 1) && !PrefixMatch(p, n, i, k + 1) {
      assert Leaf(p, n, i, k);
    }
  }

  /**
   * The matcher. The leaves live in a hash set, so each round takes them in an arbitrary order;
   * whatever the order, the answer is the pattern's meaning.
   */
  method MatchName(p: NamePattern, name: string) returns (r: Result<bool, NameError>)
    ensures r == Err(NameContainsAsterisk) <==> '*' in name
    ensures r == Err(EmptySection) <==> '*' !in name && "" in Split(name)
    ensures r.Ok? ==> (r.value <==> Matches(p, Split(name)))
    ensures r.Err? ==> !r.error.InvalidSection?
  {
    if '*' in name {
      return Err(NameContainsAsterisk);
    }
    var n := Split(name);
    if "" in n {
      return Err(EmptySection);
    }
    var leaves: set<nat> := {0};
    assert forall i :: 0 <= i <= |p| ==> (Leaf(p, n, i, 0) <==> i == 0) by {
      assert PrefixMatch(p, n, 0, 0);
    }
    for k := 0 to |n|
      invariant forall i :: i in leaves <==> 0 <= i <= |p| && Leaf(p, n, i, k)
    {
      var next: set<nat> := {};
      var todo := leaves;
      while todo != {}
        invariant todo <= leaves
        invariant forall i :: i in next <==> exists h :: h in leaves && h !in todo && i in Targets(p, n[k], h)
        decreases todo
      {
        var index :| index in todo;
        ghost var before, was := todo, next;
        todo := todo - {index};
        if index < |p| {
          match p[index] {
            case AnyName =>
              next := next + {index + 1};
            case AnySections =>
              next := next + {index};
              next := next + {index + 1};
            case Section(x) =>
              if x == n[k] {
                next := next + {index + 1};
              }
          }
        }
        assert next == was + Targets(p, n[k], index);
        assert forall h :: h !in todo <==> h !in before || h == index;
      }
      forall i: nat ensures i in next <==> i <= |p| && Leaf(p, n, i, k + 1) {
        if i <= |p| {
          LeafStep(p, n, i, k);
        }
      }
      leaves := next;
    }
    PrefixMatchExact(p, n, |p|, |n|);
    assert p[..|p|] == p && n[..|n|] == n;
    return Ok(|p| in leaves);
  }
}
