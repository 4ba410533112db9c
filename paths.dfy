/** Strings and paths as the tool handles them: Python's substring test,
    `str.split('/')` and `'/'.join(...)`, and the parent computation the
    navigator performs when `..` is selected. */
module Paths {

  type Path = string

  /** Python's `sub in s` on strings: `sub` occurs in `s` as a contiguous run. */
  predicate Contains(s: string, sub: string)
    decreases |s|
  {
    sub <= s || (|s| > 0 && Contains(s[1..], sub))
  }

  /** `sub` occurs in `s` starting at index `i`. */
  predicate OccursAt(s: string, sub: string, i: int)
  {
    0 <= i <= |s| - |sub| && s[i..i + |sub|] == sub
  }

  /** `Contains` agrees with the textbook definition by an occurrence index. */
  lemma {:induction false} ContainsIff(s: string, sub: string)
    ensures Contains(s, sub) <==> exists i :: OccursAt(s, sub, i)
    decreases |s|
  {
    if sub <= s {
      assert OccursAt(s, sub, 0);
    } else if |s| == 0 {
    } else {
      ContainsIff(s[1..], sub);
      if Contains(s[1..], sub) {
        var i :| OccursAt(s[1..], sub, i);
        assert s[i + 1..i + 1 + |sub|] == s[1..][i..i + |sub|];
        assert OccursAt(s, sub, i + 1);
      }
      if exists i :: OccursAt(s, sub, i) {
        var i :| OccursAt(s, sub, i);
        if i > 0 {
          assert s[1..][i - 1..i - 1 + |sub|] == s[i..i + |sub|];
          assert OccursAt(s[1..], sub, i - 1);
        }
      }
    }
  }

  /** A substring of a prefix is a substring of the whole string. */
  lemma {:induction false} ContainsExtend(s: string, t: string, sub: string)
    requires Contains(s, sub)
    ensures Contains(s + t, sub)
    decreases |s|
  {
    if sub <= s {
      assert (s + t)[..|sub|] == s[..|sub|];
    } else {
      assert (s + t)[1..] == s[1..] + t;
      ContainsExtend(s[1..], t, sub);
    }
  }

  /** The path the remote end resolves: one trailing '/' is not significant,
      so "/a/b/" and "/a/b" name the same entry, and "/" is the root "". */
  function Canon(p: Path): (c: Path)
    ensures |c| <= |p| && c <= p
    ensures |p| > 0 && p[|p| - 1] == '/' ==> c + "/" == p
    ensures c == p || c + "/" == p
  {
    if |p| > 0 && p[|p| - 1] == '/' then p[..|p| - 1] else p
  }

  /** `Canon(p) + "/"` always extends `p`: it is `p` itself when `p` ends in
      '/', and `p + "/"` otherwise. */
  lemma ParentExtends(p: Path)
    ensures p <= Canon(p) + "/"
  {
  }

  /** Python's `s.split('/')`: the maximal '/'-free runs, in order. */
  function Split(s: string): (parts: seq<string>)
    ensures |parts| >= 1
    ensures forall i | 0 <= i < |parts| :: '/' !in parts[i]
  {
    if |s| == 0 then [""]
    else if s[0] == '/' then [""] + Split(s[1..])
    else
      var t := Split(s[1..]);
      [[s[0]] + t[0]] + t[1..]
  }

  /** Python's `'/'.join(parts)`. */
  function Join(parts: seq<string>): string
  {
    if |parts| == 0 then ""
    else if |parts| == 1 then parts[0]
    else parts[0] + "/" + Join(parts[1..])
  }

  /** Splitting and joining again gives the original string back. */
  lemma {:induction false} JoinSplit(s: string)
    ensures Join(Split(s)) == s
  {
    if |s| == 0 {
    } else if s[0] == '/' {
      JoinSplit(s[1..]);
      assert Split(s)[1..] == Split(s[1..]);
    } else {
      JoinSplit(s[1..]);
      var t := Split(s[1..]);
      if |t| == 1 {
        assert Join(Split(s)) == [s[0]] + t[0];
      } else {
        assert Split(s)[1..] == t[1..];
        assert Join(t) == t[0] + "/" + Join(t[1..]);
      }
    }
  }

  /** A segment without '/' splits into itself. */
  lemma {:induction false} SplitSegment(x: string)
    requires '/' !in x
    ensures Split(x) == [x]
  {
    if |x| > 0 {
      assert '/' !in x[1..] by {
        forall j | 0 <= j < |x[1..]| ensures x[1..][j] != '/' {
          assert x[1..][j] == x[j + 1];
        }
      }
      SplitSegment(x[1..]);
      assert [x[0]] + x[1..] == x;
    }
  }

  /** `split` turns each '/' into a segment boundary. */
  lemma {:induction false} SplitAppend(a: string, b: string)
    ensures Split(a + "/" + b) == Split(a) + Split(b)
    decreases |a|
  {
    if |a| == 0 {
      assert a + "/" + b == "/" + b;
      assert ("/" + b)[1..] == b;
    } else {
      assert (a + "/" + b)[1..] == a[1..] + "/" + b;
      assert (a + "/" + b)[0] == a[0];
      SplitAppend(a[1..], b);
    }
  }

  /** Joining '/'-free segments and splitting again gives the segments back. */
  lemma {:induction false} SplitJoin(parts: seq<string>)
    requires |parts| >= 1
    requires forall i | 0 <= i < |parts| :: '/' !in parts[i]
    ensures Split(Join(parts)) == parts
  {
    if |parts| == 1 {
      SplitSegment(parts[0]);
    } else {
      SplitJoin(parts[1..]);
      SplitSegment(parts[0]);
      SplitAppend(parts[0], Join(parts[1..]));
      assert [parts[0]] + parts[1..] == parts;
    }
  }

  /** Python's `xs[:-2]`: all but the last two elements, empty when there are
      fewer than three. */
  function DropLastTwo(xs: seq<string>): seq<string>
  {
    if |xs| <= 2 then [] else xs[..|xs| - 2]
  }

  /** The directory the navigator moves to on `..`:
      `'/'.join(current_dir.split('/')[:-2])`. */
  function Up(p: Path): Path
  {
    Join(DropLastTwo(Split(p)))
  }

  /** `..` from `p/a/b` (segments `a`, `b` free of '/') goes to `p`. For a
      directory path `p/a/` (b empty) this drops the last segment together with
      the trailing '/'. */
  lemma UpOfChild(p: Path, a: string, b: string)
    requires '/' !in a && '/' !in b
    ensures Up(p + "/" + a + "/" + b) == p
  {
    SplitSegment(a);
    SplitSegment(b);
    SplitAppend(a, b);
    assert p + "/" + a + "/" + b == p + "/" + (a + "/" + b);
    SplitAppend(p, a + "/" + b);
    var s := Split(p) + [a] + [b];
    assert Split(p + "/" + a + "/" + b) == s;
    assert DropLastTwo(s) == Split(p);
    JoinSplit(p);
  }

  /** `..` on the shortest paths yields "" and never fails. */
  lemma UpOfShortPaths()
    ensures Up("") == ""
    ensures Up("/") == ""
    ensures forall x: string | '/' !in x :: Up(x) == ""
  {
    assert Split("/") == [""] + Split("");
    forall x: string | '/' !in x ensures Up(x) == "" {
      SplitSegment(x);
    }
  }

  /** Because `..` leaves no trailing '/', a second `..` right after it skips
      a level: from `q/a/b/c/` the first `..` lists `q/a/b`, the second `q`
      rather than `q/a`. */
  lemma UpTwiceSkipsALevel(q: Path, a: string, b: string, c: string)
    requires '/' !in a && '/' !in b && '/' !in c
    ensures Up(q + "/" + a + "/" + b + "/" + c + "/") == q + "/" + a + "/" + b
    ensures Up(Up(q + "/" + a + "/" + b + "/" + c + "/")) == q
  {
    UpOfChild(q + "/" + a + "/" + b, c, "");
    assert q + "/" + a + "/" + b + "/" + c + "/" == q + "/" + a + "/" + b + "/" + c + "/" + "";
    UpOfChild(q, a, b);
  }
}
