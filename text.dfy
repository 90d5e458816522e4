/** Plain string helpers over `seq<char>` shared by the CSS and HTML builders. */
module Text {

  /** `s` begins with `p` (Swift's `hasPrefix`). */
  predicate StartsWith(s: string, p: string) {
    |p| <= |s| && s[..|p|] == p
  }

  /** `p` occurs somewhere in `s` (Foundation's `contains`), as a recursive scan. */
  predicate Contains(s: string, p: string)
    decreases |s|
  {
    StartsWith(s, p) || (|s| > 0 && Contains(s[1..], p))
  }

  /** `s` ends with `p`. */
  predicate EndsWith(s: string, p: string) {
    |p| <= |s| && s[|s| - |p|..] == p
  }

  /** The pieces `ps` occur in `s` in this order, without overlapping. */
  predicate InOrder(s: string, ps: seq<string>)
    decreases |ps|, 1
  {
    ps == [] || exists i | 0 <= i <= |s| :: FirstPieceAt(s, ps, i)
  }

  /** `ps[0]` occurs in `s` at index `i`, and the rest of `ps` follows it in order. */
  predicate FirstPieceAt(s: string, ps: seq<string>, i: int)
    decreases |ps|, 0
  {
    ps != [] && 0 <= i <= |s| - |ps[0]| &&
    s[i..i + |ps[0]|] == ps[0] && InOrder(s[i + |ps[0]|..], ps[1..])
  }

  lemma {:induction false} ContainsAt(s: string, p: string, i: nat)
    requires i + |p| <= |s| && s[i..i + |p|] == p
    ensures Contains(s, p)
    decreases i
  {
    if i == 0 {
      assert s[..|p|] == p;
    } else {
      assert s[1..][i - 1..i - 1 + |p|] == s[i..i + |p|];
      ContainsAt(s[1..], p, i - 1);
    }
  }

  /** Whatever is glued around `p`, the result contains `p`. */
  lemma ContainsMiddle(a: string, p: string, b: string)
    ensures Contains(a + p + b, p)
  {
    var s := a + p + b;
    assert s[|a|..|a| + |p|] == p;
    ContainsAt(s, p, |a|);
  }

  /** Any occurrence of `p` in `s` lies at some index. */
  lemma {:induction false} ContainsIndex(s: string, p: string) returns (i: nat)
    requires Contains(s, p)
    ensures i + |p| <= |s| && s[i..i + |p|] == p
    decreases |s|
  {
    if StartsWith(s, p) {
      i := 0;
    } else {
      var j := ContainsIndex(s[1..], p);
      i := j + 1;
      assert s[i..i + |p|] == s[1..][j..j + |p|];
    }
  }

  /** A text that lacks the first character of `p` does not contain `p`. */
  lemma MissingFirstCharNotContained(s: string, p: string)
    requires |p| > 0 && p[0] !in s
    ensures !Contains(s, p)
  {
    if Contains(s, p) {
      var i := ContainsIndex(s, p);
      assert false;
    }
  }

  lemma InOrderOne(gap: string, p: string)
    ensures InOrder(gap + p, [p])
  {
    var s := gap + p;
    assert s[|gap|..|gap| + |p|] == p;
    assert FirstPieceAt(s, [p], |gap|);
  }

  /** Prefixing any text keeps an order. */
  lemma InOrderPrefix(x: string, t: string, qs: seq<string>)
    requires InOrder(t, qs)
    ensures InOrder(x + t, qs)
  {
    if qs != [] {
      var i :| 0 <= i <= |t| && FirstPieceAt(t, qs, i);
      var s := x + t;
      assert s[|x| + i..|x| + i + |qs[0]|] == t[i..i + |qs[0]|];
      assert s[|x| + i + |qs[0]|..] == t[i + |qs[0]|..];
      assert FirstPieceAt(s, qs, |x| + i);
    }
  }

  /** Orders found in two texts add up in their concatenation. */
  lemma {:induction false} InOrderConcat(s: string, ps: seq<string>, t: string, qs: seq<string>)
    requires InOrder(s, ps) && InOrder(t, qs)
    ensures InOrder(s + t, ps + qs)
    decreases |ps|
  {
    if ps == [] {
      assert ps + qs == qs;
      InOrderPrefix(s, t, qs);
    } else {
      var i :| 0 <= i <= |s| && FirstPieceAt(s, ps, i);
      var st := s + t;
      var j := i + |ps[0]|;
      assert st[i..j] == s[i..j];
      assert st[j..] == s[j..] + t;
      InOrderConcat(s[j..], ps[1..], t, qs);
      assert (ps + qs)[0] == ps[0];
      assert (ps + qs)[1..] == ps[1..] + qs;
      assert FirstPieceAt(st, ps + qs, i);
    }
  }

  /** Appending a gap and one more piece extends the order by that piece. */
  lemma InOrderSnoc(s: string, ps: seq<string>, gap: string, p: string)
    requires InOrder(s, ps)
    ensures InOrder(s + gap + p, ps + [p])
  {
    InOrderOne(gap, p);
    InOrderConcat(s, ps, gap + p, [p]);
    assert s + gap + p == s + (gap + p);
  }

  /** Trailing text does not disturb an order. */
  lemma InOrderAppend(s: string, ps: seq<string>, t: string)
    requires InOrder(s, ps)
    ensures InOrder(s + t, ps)
  {
    assert InOrder(t, []);
    InOrderConcat(s, ps, t, []);
    assert ps + [] == ps;
  }

  /** Every piece of an order occurs in the text. */
  lemma {:induction false} InOrderContains(s: string, ps: seq<string>, k: nat)
    requires InOrder(s, ps) && k < |ps|
    ensures Contains(s, ps[k])
    decreases k
  {
    var i :| 0 <= i <= |s| && FirstPieceAt(s, ps, i);
    if k == 0 {
      ContainsAt(s, ps[0], i);
    } else {
      var j := i + |ps[0]|;
      InOrderContains(s[j..], ps[1..], k - 1);
      var m := ContainsIndex(s[j..], ps[k]);
      assert s[j + m..j + m + |ps[k]|] == s[j..][m..m + |ps[k]|];
      ContainsAt(s, ps[k], j + m);
    }
  }

  /** Regrouping a chain of concatenations. */
  lemma Reassociate(x: string, a: string, b: string, c: string, d: string, e: string)
    ensures x + a + b + c + d + e == x + (a + b + c + d + e)
  {
  }

  /** A text with a fixed head and a fixed tail determines what lies between them. */
  lemma MiddleDetermined(p: string, a: string, b: string, t: string)
    requires p + a + t == p + b + t
    ensures a == b
  {
    var r := p + a + t;
    assert r[|p|..|r| - |t|] == a;
    assert (p + b + t)[|p|..|r| - |t|] == b;
  }

  /** The three parts of `p + a + t`, read back by position. */
  lemma ThreeParts(p: string, a: string, t: string)
    ensures var r := p + a + t;
            |r| == |p| + |a| + |t| && r[..|p|] == p && r[|p|..|p| + |a|] == a && r[|p| + |a|..] == t
  {
    var r := p + a + t;
    assert r[..|p|] == p;
    assert r[|p|..|p| + |a|] == a;
    assert r[|p| + |a|..] == t;
  }

  /** Text around a container keeps whatever the container contains. */
  lemma ContainsWithin(a: string, m: string, b: string, p: string)
    requires Contains(m, p)
    ensures Contains(a + m + b, p)
  {
    var i := ContainsIndex(m, p);
    var s := a + m + b;
    assert s[|a| + i..|a| + i + |p|] == m[i..i + |p|];
    ContainsAt(s, p, |a| + i);
  }

  /** Five pieces, each after its own gap, occur in order. */
  lemma InOrderFive(g0: string, p0: string, g1: string, p1: string, g2: string, p2: string,
                    g3: string, p3: string, g4: string, p4: string)
    ensures InOrder(g0 + p0 + g1 + p1 + g2 + p2 + g3 + p3 + g4 + p4, [p0, p1, p2, p3, p4])
  {
    InOrderOne(g0, p0);
    InOrderSnoc(g0 + p0, [p0], g1, p1);
    InOrderSnoc(g0 + p0 + g1 + p1, [p0] + [p1], g2, p2);
    InOrderSnoc(g0 + p0 + g1 + p1 + g2 + p2, [p0] + [p1] + [p2], g3, p3);
    InOrderSnoc(g0 + p0 + g1 + p1 + g2 + p2 + g3 + p3, [p0] + [p1] + [p2] + [p3], g4, p4);
    assert [p0] + [p1] + [p2] + [p3] + [p4] == [p0, p1, p2, p3, p4];
  }

  /** Seven pieces, each after its own gap, occur in order. */
  lemma InOrderSeven(g0: string, p0: string, g1: string, p1: string, g2: string, p2: string, g3: string, p3: string,
                     g4: string, p4: string, g5: string, p5: string, g6: string, p6: string)
    ensures InOrder(g0 + p0 + g1 + p1 + g2 + p2 + g3 + p3 + g4 + p4 + g5 + p5 + g6 + p6, [p0, p1, p2, p3, p4, p5, p6])
  {
    var s := g0 + p0 + g1 + p1 + g2 + p2 + g3 + p3 + g4 + p4;
    InOrderFive(g0, p0, g1, p1, g2, p2, g3, p3, g4, p4);
    InOrderSnoc(s, [p0, p1, p2, p3, p4], g5, p5);
    InOrderSnoc(s + g5 + p5, [p0, p1, p2, p3, p4] + [p5], g6, p6);
    assert [p0, p1, p2, p3, p4] + [p5] + [p6] == [p0, p1, p2, p3, p4, p5, p6];
  }
}
