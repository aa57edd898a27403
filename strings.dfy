/** String helpers with JavaScript's meaning: `includes`, joining and splitting on a separator. */
module Strings {

  /** `t` occurs in `s` starting at position `i`. */
  predicate OccursAt(s: string, t: string, i: int) {
    0 <= i <= |s| - |t| && s[i..i + |t|] == t
  }

  /** JavaScript's `s.includes(t)`: `t` occurs in `s` as a contiguous substring. */
  function Includes(s: string, t: string): (r: bool)
    ensures r <==> exists i :: OccursAt(s, t, i)
    decreases |s|
  {
    if |t| > |s| then false
    else if s[..|t|] == t then assert OccursAt(s, t, 0); true
    else
      var r := Includes(s[1..], t);
      assert r ==> exists i :: OccursAt(s, t, i) by {
        if r {
          var j :| OccursAt(s[1..], t, j);
          assert s[1..][j..j + |t|] == s[j + 1..j + 1 + |t|];
          assert OccursAt(s, t, j + 1);
        }
      }
      assert (exists i :: OccursAt(s, t, i)) ==> r by {
        if exists i :: OccursAt(s, t, i) {
          var i :| OccursAt(s, t, i);
          assert i != 0;
          assert s[1..][i - 1..i - 1 + |t|] == s[i..i + |t|];
          assert OccursAt(s[1..], t, i - 1);
        }
      }
      r
  }

  /** A string placed between any two strings is included in the result. */
  lemma IncludesInfix(a: string, t: string, b: string)
    ensures Includes(a + t + b, t)
  {
    assert (a + t + b)[|a|..|a| + |t|] == t;
    assert OccursAt(a + t + b, t, |a|);
  }

  /** Inclusion is transitive. */
  lemma IncludesTransitive(s: string, t: string, u: string)
    requires Includes(s, t) && Includes(t, u)
    ensures Includes(s, u)
  {
    var i :| OccursAt(s, t, i);
    var j :| OccursAt(t, u, j);
    forall k | 0 <= k < |u| ensures s[i + j + k] == u[k] {
      assert t[j..j + |u|][k] == u[k];
      assert s[i..i + |t|][j + k] == t[j + k];
    }
    assert s[i + j..i + j + |u|] == u;
    assert OccursAt(s, u, i + j);
  }

  /** Each part is included in the joined string. */
  lemma {:induction false} JoinIncludes(parts: seq<string>, sep: char, i: int)
    requires 0 <= i < |parts|
    ensures Includes(Join(parts, sep), parts[i])
  {
    if |parts| == 1 {
      IncludesInfix([], parts[0], []);
      assert [] + parts[0] + [] == parts[0];
    } else {
      var rest := Join(parts[1..], sep);
      assert Join(parts, sep) == parts[0] + [sep] + rest;
      if i == 0 {
        IncludesInfix([], parts[0], [sep] + rest);
        assert [] + parts[0] + ([sep] + rest) == parts[0] + [sep] + rest;
      } else {
        JoinIncludes(parts[1..], sep, i - 1);
        IncludesInfix(parts[0] + [sep], rest, []);
        assert parts[0] + [sep] + rest + [] == parts[0] + [sep] + rest;
        IncludesTransitive(Join(parts, sep), rest, parts[i]);
      }
    }
  }

  /** `parts.join(sep)` for a one-character separator. */
  function Join(parts: seq<string>, sep: char): (r: string)
    ensures |parts| == 1 ==> r == parts[0]
  {
    if |parts| == 0 then ""
    else if |parts| == 1 then parts[0]
    else parts[0] + [sep] + Join(parts[1..], sep)
  }

  /** Joining one more part adds the separator and that part at the end. */
  lemma {:induction false} JoinAppend(parts: seq<string>, x: string, sep: char)
    requires |parts| > 0
    ensures Join(parts + [x], sep) == Join(parts, sep) + [sep] + x
  {
    assert (parts + [x])[0] == parts[0];
    if |parts| == 1 {
      assert (parts + [x])[1..] == [x];
    } else {
      assert (parts + [x])[1..] == parts[1..] + [x];
      JoinAppend(parts[1..], x, sep);
    }
  }

  /** Position of the first `sep` in `s`. */
  function IndexOf(s: string, sep: char): (k: nat)
    requires sep in s
    ensures k < |s| && s[k] == sep && sep !in s[..k]
  {
    if s[0] == sep then 0
    else
      var k := 1 + IndexOf(s[1..], sep);
      assert s[..k] == [s[0]] + s[1..][..k - 1];
      k
  }

  /** The first separator is at the one position that has no separator before it. */
  lemma {:induction false} IndexOfUnique(s: string, sep: char, k: nat)
    requires k < |s| && s[k] == sep && sep !in s[..k]
    ensures IndexOf(s, sep) == k
  {
    if k > 0 {
      assert s[0] == s[..k][0];
      assert s[1..][..k - 1] == s[1..k];
      IndexOfUnique(s[1..], sep, k - 1);
    }
  }

  /** `s.split(sep)` for a one-character separator: the maximal pieces between separators. */
  function Split(s: string, sep: char): (r: seq<string>)
    ensures |r| > 0
    decreases |s|
  {
    if sep in s then
      var k := IndexOf(s, sep);
      [s[..k]] + Split(s[k + 1..], sep)
    else [s]
  }

  /** Splitting at a first separator that follows a separator-free prefix. */
  lemma SplitAtFirst(a: string, sep: char, b: string)
    requires sep !in a
    ensures Split(a + [sep] + b, sep) == [a] + Split(b, sep)
  {
    var s := a + [sep] + b;
    var k := |a|;
    assert s[k] == sep;
    assert s[..k] == a;
    IndexOfUnique(s, sep, k);
    assert s[k + 1..] == b;
  }

  /** Splitting a joined list gives the list back when no part contains the separator. */
  lemma {:induction false} SplitJoin(parts: seq<string>, sep: char)
    requires |parts| > 0
    requires forall i :: 0 <= i < |parts| ==> sep !in parts[i]
    ensures Split(Join(parts, sep), sep) == parts
  {
    var p := parts[0];
    assert sep !in p;
    if |parts| > 1 {
      var tail := parts[1..];
      var rest := Join(tail, sep);
      assert forall i :: 0 <= i < |tail| ==> sep !in tail[i] by {
        forall i | 0 <= i < |tail| ensures sep !in tail[i] { assert tail[i] == parts[i + 1]; }
      }
      calc {
        Split(Join(parts, sep), sep);
        { assert Join(parts, sep) == p + [sep] + rest; }
        Split(p + [sep] + rest, sep);
        { SplitAtFirst(p, sep, rest); }
        [p] + Split(rest, sep);
        { SplitJoin(tail, sep); }
        [p] + tail;
        { assert [p] + tail == parts; }
        parts;
      }
    } else {
      assert Split(p, sep) == [p];
      assert parts == [p];
    }
  }
}
