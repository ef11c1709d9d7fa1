/** Splitting a string at its dots, and putting it together again. */
module DotSplit {

  /** `str::split('.')`: the pieces between dots; a string without a dot is one piece. */
  function Split(s: string): (r: seq<string>)
    ensures |r| >= 1
  {
    if s == "" then [""]
    else
      var rest := Split(s[1..]);
      if s[0] == '.' then [""] + rest else [[s[0]] + rest[0]] + rest[1..]
  }

  function Join(xs: seq<string>): string
    requires xs != []
  {
    if |xs| == 1 then xs[0] else xs[0] + "." + Join(xs[1..])
  }

  ghost predicate DotFree(xs: seq<string>) {
    forall i :: 0 <= i < |xs| ==> '.' !in xs[i]
  }

  /** Joining the pieces gives the string back, and no piece holds a dot. */
  lemma {:induction false} JoinSplit(s: string)
    ensures Join(Split(s)) == s
    ensures DotFree(Split(s))
  {
    if s != "" {
      JoinSplit(s[1..]);
      var rest := Split(s[1..]);
      if s[0] == '.' {
        assert Split(s)[1..] == rest;
        assert s == "" + "." + s[1..];
      } else {
        var r := Split(s);
        assert r[1..] == rest[1..];
        if |rest| > 1 {
          assert Join(r) == [s[0]] + (rest[0] + "." + Join(rest[1..]));
        }
      }
    }
  }

  /** Dot-free pieces survive a join followed by a split. */
  lemma {:induction false} SplitJoin(xs: seq<string>)
    requires xs != [] && DotFree(xs)
    ensures Split(Join(xs)) == xs
  {
    if |xs| == 1 {
      SplitPiece(xs[0], []);
      assert xs == [xs[0]] + [];
      assert xs[0] + "" == xs[0];
    } else {
      SplitJoin(xs[1..]);
      var rest := xs[1..];
      assert DotFree(rest);
      SplitPiece(xs[0], rest);
      assert Join(xs) == xs[0] + ("." + Join(rest));
      assert xs == [xs[0]] + rest;
    }
  }

  /** The split of a dot-free piece that is the end of the string, or is followed by a dot. */
  lemma {:induction false} SplitPiece(x: string, rest: seq<string>)
    requires '.' !in x
    requires rest != [] ==> Split(Join(rest)) == rest
    ensures Split(x + (if rest == [] then "" else "." + Join(rest))) == [x] + rest
  {
    var tail := if rest == [] then "" else "." + Join(rest);
    if x == "" {
      assert x + tail == tail;
      if rest != [] {
        assert tail[1..] == Join(rest);
      }
    } else {
      SplitPiece(x[1..], rest);
      assert (x + tail)[1..] == x[1..] + tail;
      assert [x[0]] + x[1..] == x;
    }
  }

  /** Two strings with the same pieces are the same string. */
  lemma SplitInjective(s: string, t: string)
    requires Split(s) == Split(t)
    ensures s == t
  {
    JoinSplit(s);
    JoinSplit(t);
  }

  /** A string holds a character other than the dot iff one of its pieces does. */
  lemma {:induction false} SplitChars(s: string, c: char)
    requires c != '.'
    ensures c in s <==> exists i :: 0 <= i < |Split(s)| && c in Split(s)[i]
  {
    if s != "" {
      SplitChars(s[1..], c);
      var r, rest := Split(s), Split(s[1..]);
      assert s == [s[0]] + s[1..];
      if s[0] == '.' {
        assert forall i :: 0 <= i < |rest| ==> r[i + 1] == rest[i];
      } else {
        assert r[0] == [s[0]] + rest[0];
        assert forall i :: 1 <= i < |rest| ==> r[i] == rest[i];
        if c in s[1..] {
          var i :| 0 <= i < |rest| && c in rest[i];
          assert c in r[i];
        }
      }
    }
  }
}
