/** The Python string operations the library relies on: `str.split` on one
    separator, `str.join`, `str.strip`, `str.lower`, `os.path.basename` and
    `pathlib.PurePath.suffix`. */
module Strs {

  /** `s.split(c)`: the pieces between occurrences of `c`; never empty. */
  function Split(s: string, c: char): (r: seq<string>)
    ensures |r| >= 1
    ensures forall i :: 0 <= i < |r| ==> c !in r[i]
    decreases |s|
  {
    if s == [] then [""]
    else if s[0] == c then [""] + Split(s[1..], c)
    else
      var rest := Split(s[1..], c);
      [[s[0]] + rest[0]] + rest[1..]
  }

  /** `c.join(ps)` */
  function Join(ps: seq<string>, c: char): string
    requires |ps| >= 1
    decreases |ps|
  {
    if |ps| == 1 then ps[0] else ps[0] + [c] + Join(ps[1..], c)
  }

  /** Joining the pieces back gives the original string. */
  lemma {:induction false} JoinSplit(s: string, c: char)
    ensures Join(Split(s, c), c) == s
    decreases |s|
  {
    if s != [] {
      JoinSplit(s[1..], c);
      var rest := Split(s[1..], c);
      if s[0] == c {
        assert Split(s, c)[1..] == rest;
      } else {
        var r := Split(s, c);
        if |rest| == 1 {
          assert r == [[s[0]] + rest[0]];
        } else {
          assert r[1..] == rest[1..];
          assert Join(rest, c) == rest[0] + [c] + Join(rest[1..], c);
        }
      }
    }
  }

  /** A join of several pieces is the join of all but the last, the separator
      and the last piece. */
  lemma {:induction false} JoinSnoc(ps: seq<string>, c: char)
    requires |ps| >= 2
    ensures Join(ps, c) == Join(ps[..|ps| - 1], c) + [c] + ps[|ps| - 1]
    decreases |ps|
  {
    if |ps| > 2 {
      JoinSnoc(ps[1..], c);
      assert ps[1..][..|ps| - 2] == ps[..|ps| - 1][1..];
      assert ps[1..][|ps| - 2] == ps[|ps| - 1];
    }
  }

  /** Splitting a join of separator-free pieces gives the pieces back. */
  lemma {:induction false} SplitJoin(ps: seq<string>, c: char)
    requires |ps| >= 1 && forall i :: 0 <= i < |ps| ==> c !in ps[i]
    ensures Split(Join(ps, c), c) == ps
    decreases |ps|, |ps[0]|
  {
    if |ps| == 1 {
      SplitNoSep(ps[0], c);
    } else if ps[0] == [] {
      SplitJoin(ps[1..], c);
      assert Join(ps, c) == [c] + Join(ps[1..], c);
      SplitSep(Join(ps[1..], c), c);
      assert ps == [ps[0]] + ps[1..];
    } else {
      var ps' := [ps[0][1..]] + ps[1..];
      assert ps'[1..] == ps[1..];
      forall i | 0 <= i < |ps'| ensures c !in ps'[i] {
        if i == 0 { assert forall x :: x in ps[0][1..] ==> x in ps[0]; }
      }
      SplitJoin(ps', c);
      JoinHeadChar(ps, c);
      assert ps[0][0] in ps[0];
      SplitCons(ps[0][0], Join(ps', c), c);
      assert [ps[0][0]] + ps[0][1..] == ps[0];
    }
  }

  lemma JoinHeadChar(ps: seq<string>, c: char)
    requires |ps| >= 2 && ps[0] != []
    ensures Join(ps, c) == [ps[0][0]] + Join([ps[0][1..]] + ps[1..], c)
  {
    var ps' := [ps[0][1..]] + ps[1..];
    assert ps'[1..] == ps[1..];
    var j := Join(ps[1..], c);
    calc {
      Join(ps, c);
      ps[0] + [c] + j;
      { assert ps[0] == [ps[0][0]] + ps[0][1..]; }
      [ps[0][0]] + ps[0][1..] + [c] + j;
      [ps[0][0]] + (ps[0][1..] + [c] + j);
      [ps[0][0]] + Join(ps', c);
    }
  }

  lemma SplitSep(t: string, c: char)
    ensures Split([c] + t, c) == [""] + Split(t, c)
  {
    assert ([c] + t)[1..] == t;
  }

  lemma SplitCons(x: char, t: string, c: char)
    requires x != c
    ensures Split([x] + t, c) == [[x] + Split(t, c)[0]] + Split(t, c)[1..]
  {
    assert ([x] + t)[1..] == t;
  }

  lemma {:induction false} SplitNoSep(s: string, c: char)
    requires c !in s
    ensures Split(s, c) == [s]
    decreases |s|
  {
    if s != [] {
      assert forall x :: x in s[1..] ==> x in s;
      SplitNoSep(s[1..], c);
      assert [s[0]] + s[1..] == s;
    }
  }

  /** The number of occurrences of `c` in `s`. */
  function Count(s: string, c: char): nat {
    multiset(s)[c]
  }

  /** `len(s.split(c))` is one more than the number of separators. */
  lemma {:induction false} SplitCount(s: string, c: char)
    ensures |Split(s, c)| == Count(s, c) + 1
    decreases |s|
  {
    if s != [] {
      SplitCount(s[1..], c);
      assert s == [s[0]] + s[1..];
      assert multiset(s) == multiset([s[0]]) + multiset(s[1..]);
    }
  }

  /** The text before the first `c` (all of `s` when there is none). */
  lemma {:induction false} SplitFirst(s: string, c: char, i: int)
    requires 0 <= i < |s| && s[i] == c && c !in s[..i]
    ensures Split(s, c)[0] == s[..i] && |Split(s, c)| >= 2
    decreases i
  {
    if i > 0 {
      assert s[1..][..i - 1] == s[..i][1..];
      assert forall x :: x in s[..i][1..] ==> x in s[..i];
      SplitFirst(s[1..], c, i - 1);
      assert s[..i] == [s[0]] + s[1..][..i - 1];
    }
  }

  /** Python's `str.isspace` for one character. */
  predicate IsSpace(ch: char) {
    ch == ' ' || ('\t' <= ch <= '\r') || ('\U{1c}' <= ch <= '\U{1f}')
    || ch == '\U{85}' || ch == '\U{a0}' || ch == '\U{1680}' || ('\U{2000}' <= ch <= '\U{200a}')
    || ch == '\U{2028}' || ch == '\U{2029}' || ch == '\U{202f}' || ch == '\U{205f}' || ch == '\U{3000}'
  }

  function StripLeft(s: string): (r: string)
    ensures |r| <= |s| && r == s[|s| - |r|..]
    ensures r != [] ==> !IsSpace(r[0])
    ensures forall i :: 0 <= i < |s| - |r| ==> IsSpace(s[i])
  {
    if s != [] && IsSpace(s[0]) then StripLeft(s[1..]) else s
  }

  function StripRight(s: string): (r: string)
    ensures |r| <= |s| && r == s[..|r|]
    ensures r != [] ==> !IsSpace(r[|r| - 1])
    ensures forall i :: |r| <= i < |s| ==> IsSpace(s[i])
  {
    if s != [] && IsSpace(s[|s| - 1]) then StripRight(s[..|s| - 1]) else s
  }

  /** `s.strip()`: `s` without leading and trailing whitespace. */
  function Strip(s: string): (r: string)
    ensures r != [] ==> !IsSpace(r[0]) && !IsSpace(r[|r| - 1])
  {
    StripRight(StripLeft(s))
  }

  /** Stripping twice changes nothing more. */
  lemma StripIdempotent(s: string)
    ensures Strip(Strip(s)) == Strip(s)
  {
    var r := Strip(s);
    assert StripLeft(r) == r;
    assert StripRight(r) == r;
  }

  /** `ch.lower()` for ASCII letters; other characters are left as they are. */
  function LowerChar(ch: char): (r: char)
    ensures 'A' <= ch <= 'Z' ==> r as int == ch as int + 32
    ensures !('A' <= ch <= 'Z') ==> r == ch
  {
    if 'A' <= ch <= 'Z' then (ch as int + 32) as char else ch
  }

  /** `s.lower()` */
  function Lower(s: string): (r: string)
    ensures |r| == |s| && forall i :: 0 <= i < |s| ==> r[i] == LowerChar(s[i])
  {
    seq(|s|, i requires 0 <= i < |s| => LowerChar(s[i]))
  }

  /** The index just past the last `c` in `s`, or 0 when there is none. */
  function AfterLast(s: string, c: char): (i: nat)
    ensures i <= |s|
    ensures i > 0 ==> s[i - 1] == c
    ensures c !in s[i..]
  {
    if s == [] then 0
    else if s[|s| - 1] == c then |s|
    else AfterLast(s[..|s| - 1], c)
  }

  /** `os.path.basename(p)`: the text after the last `/`. */
  function Basename(p: string): (r: string)
    ensures '/' !in r
    ensures '/' !in p ==> r == p
    ensures exists i :: 0 <= i <= |p| && r == p[i..]
  {
    p[AfterLast(p, '/')..]
  }

  /** `PurePath(p).name`: the last component, after trailing slashes are dropped. */
  function PathName(p: string): (r: string)
    ensures '/' !in r
  {
    Basename(DropTrailingSlashes(p))
  }

  function DropTrailingSlashes(p: string): (r: string)
    ensures |r| <= |p| && r == p[..|r|]
    ensures r != [] ==> r[|r| - 1] != '/'
  {
    if p != [] && p[|p| - 1] == '/' then DropTrailingSlashes(p[..|p| - 1]) else p
  }

  /** `PurePath(p).suffix`: from the last `.` of the name, unless that dot starts
      or ends the name, in which case there is no suffix. */
  function Suffix(p: string): (r: string)
    ensures r != [] ==> r[0] == '.' && |r| >= 2 && '.' !in r[1..] && '/' !in r
  {
    var name := PathName(p);
    var i := AfterLast(name, '.');
    if 1 < i < |name| then name[i - 1..] else ""
  }

  /** `sub` occurs in `s` starting at index `i`. */
  predicate OccursAt(sub: string, s: string, i: int) {
    0 <= i <= |s| - |sub| && s[i..i + |sub|] == sub
  }

  /** `sub in s` on strings. */
  predicate IsSubstring(sub: string, s: string) {
    exists i | 0 <= i <= |s| - |sub| :: OccursAt(sub, s, i)
  }
}
