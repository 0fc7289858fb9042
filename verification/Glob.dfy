// The glob matcher of the test driver (lsmtest_main.c). Strings are what stands
// before the terminating nul.

module Glob {
  // ---- The language of a pattern

  predicate IsRun(c: char) {
    c == '*' || c == '%'
  }

  // What one character of a pattern may stand for.
  predicate Accepts(c: char, piece: string) {
    if IsRun(c) then true
    else if c == '?' then |piece| == 1
    else piece == [c]
  }

  function Join(pieces: seq<string>): string {
    if pieces == [] then "" else pieces[0] + Join(pieces[1..])
  }

  // `pieces` cuts s so that each piece fits its pattern character.
  ghost predicate Cuts(p: string, s: string, pieces: seq<string>) {
    && |pieces| == |p|
    && Join(pieces) == s
    && forall i | 0 <= i < |p| :: Accepts(p[i], pieces[i])
  }

  ghost predicate InLanguage(p: string, s: string) {
    exists pieces: seq<string> :: Cuts(p, s, pieces)
  }

  lemma EmptyPattern(s: string)
    ensures InLanguage("", s) <==> s == ""
  {
    if s == "" {
      assert Cuts("", s, []);
    }
  }

  // One step along the pattern: cut off the first k characters.
  lemma CutFirst(p: string, s: string, k: nat)
    requires p != "" && k <= |s| && Accepts(p[0], s[..k]) && InLanguage(p[1..], s[k..])
    ensures InLanguage(p, s)
  {
    var pieces: seq<string> :| Cuts(p[1..], s[k..], pieces);
    var all := [s[..k]] + pieces;
    assert all[1..] == pieces && s == s[..k] + s[k..];
    assert Cuts(p, s, all);
  }

  lemma FirstCut(p: string, s: string) returns (k: nat)
    requires p != "" && InLanguage(p, s)
    ensures k <= |s| && Accepts(p[0], s[..k]) && InLanguage(p[1..], s[k..])
  {
    var pieces: seq<string> :| Cuts(p, s, pieces);
    k := |pieces[0]|;
    assert s == pieces[0] + Join(pieces[1..]);
    assert s[..k] == pieces[0] && s[k..] == Join(pieces[1..]);
    assert Cuts(p[1..], s[k..], pieces[1..]);
  }

  // '*' and '%' take some part of the string off its front, ...
  lemma RunStep(p: string, s: string)
    requires p != "" && IsRun(p[0])
    ensures InLanguage(p, s) <==> exists k: nat | k <= |s| :: InLanguage(p[1..], s[k..])
  {
    if InLanguage(p, s) {
      var k := FirstCut(p, s);
    } else {
      forall k: nat | k <= |s| ensures !InLanguage(p[1..], s[k..]) {
        if InLanguage(p[1..], s[k..]) {
          CutFirst(p, s, k);
        }
      }
    }
  }

  // ... anything else takes one character.
  lemma OneStep(p: string, s: string)
    requires p != "" && !IsRun(p[0])
    ensures InLanguage(p, s) <==> s != "" && (p[0] == '?' || p[0] == s[0]) && InLanguage(p[1..], s[1..])
  {
    if InLanguage(p, s) {
      var k := FirstCut(p, s);
    } else if s != "" && (p[0] == '?' || p[0] == s[0]) && InLanguage(p[1..], s[1..]) {
      CutFirst(p, s, 1);
    }
  }

  // What the characters mean, without the cutting: a pattern of one character,
  // and two patterns in a row. With EmptyPattern this fixes the language.
  lemma PatternChar(c: char, s: string)
    ensures InLanguage([c], s) <==>
              || c == '*'
              || c == '%'
              || (c == '?' && |s| == 1)
              || s == [c]
  {
    if InLanguage([c], s) {
      var pieces: seq<string> :| Cuts([c], s, pieces);
      assert Join(pieces) == pieces[0] + Join(pieces[1..]) == pieces[0];
      assert Accepts([c][0], pieces[0]);
    }
    if c == '*' || c == '%' || (c == '?' && |s| == 1) || s == [c] {
      assert Join([s]) == s + Join([s][1..]) == s;
      assert Cuts([c], s, [s]);
    }
  }

  lemma {:induction false} JoinAppend(a: seq<string>, b: seq<string>)
    ensures Join(a + b) == Join(a) + Join(b)
  {
    if a == [] {
      assert a + b == b;
    } else {
      JoinAppend(a[1..], b);
      assert (a + b)[0] == a[0] && (a + b)[1..] == a[1..] + b;
    }
  }

  lemma PatternConcat(p: string, q: string, s: string)
    ensures InLanguage(p + q, s) <==> exists k: nat | k <= |s| :: InLanguage(p, s[..k]) && InLanguage(q, s[k..])
  {
    hide Accepts, Join;
    if InLanguage(p + q, s) {
      var pieces: seq<string> :| Cuts(p + q, s, pieces);
      var a, b := pieces[..|p|], pieces[|p|..];
      JoinAppend(a, b);
      assert a + b == pieces;
      assert forall i | 0 <= i < |p| :: (p + q)[i] == p[i];
      assert forall i | 0 <= i < |q| :: (p + q)[|p| + i] == q[i];
      assert Cuts(p, Join(a), a) && Cuts(q, Join(b), b);
      var k := |Join(a)|;
      assert s[..k] == Join(a) && s[k..] == Join(b);
    }
    forall k: nat | k <= |s| && InLanguage(p, s[..k]) && InLanguage(q, s[k..])
      ensures InLanguage(p + q, s)
    {
      var a: seq<string> :| Cuts(p, s[..k], a);
      var b: seq<string> :| Cuts(q, s[k..], b);
      JoinAppend(a, b);
      assert s[..k] + s[k..] == s;
      assert Cuts(p + q, s, a + b);
    }
  }

  // ---- The matcher

  method GlobMatch(zPattern: string, zStr: string) returns (match_: bool)
    ensures match_ <==> InLanguage(zPattern, zStr)
    decreases |zPattern|
  {
    var i, j := 0, 0;
    while i < |zPattern|
      invariant i <= |zPattern| && j <= |zStr|
      invariant InLanguage(zPattern, zStr) <==> InLanguage(zPattern[i..], zStr[j..])
    {
      var p := zPattern[i];
      ghost var rest, tail := zPattern[i..], zStr[j..];
      assert rest[1..] == zPattern[i+1..];
      if IsRun(p) {
        RunStep(rest, tail);
        ghost var j0 := j;
        var more := true;
        while more
          invariant j0 <= j && if more then j <= |zStr| else j == |zStr| + 1
          invariant forall k | j0 <= k < j :: !InLanguage(zPattern[i+1..], zStr[k..])
          decreases |zStr| + 1 - j
        {
          match_ := GlobMatch(zPattern[i+1..], zStr[j..]);
          if match_ {
            assert zStr[j..] == tail[j-j0..];
            return true;
          }
          more := j < |zStr|;
          j := j + 1;
        }
        forall k: nat | k <= |tail| ensures !InLanguage(rest[1..], tail[k..]) {
          assert tail[k..] == zStr[j0+k..];
        }
        return false;
      }
      OneStep(rest, tail);
      if j == |zStr| || (p != '?' && p != zStr[j]) {
        return false;
      }
      assert tail[1..] == zStr[j+1..];
      j := j + 1;
      i := i + 1;
    }
    EmptyPattern(zStr[j..]);
    assert zPattern[i..] == "";
    return j == |zStr|;
  }
}
