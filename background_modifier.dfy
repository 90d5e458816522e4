/**
 * `richTextBackground(_:)` (Models/RichTextBackgroundModifier.swift): set the page background
 * through CSS. When the custom CSS already mentions `background-color:`, every declaration
 * matched by the regular expression `background-color:.*?;` is rewritten to the new colour;
 * otherwise the configuration's background colour is set and the custom CSS is left alone.
 */
module BackgroundModifier {
  import opened Wrappers
  import opened Text
  import opened Views

  /**
   * A SwiftUI `Color`: `.clear`, or a colour whose red, green and blue components have
   * already been scaled to whole numbers between 0 and 255.
   */
  type Component = x: int | 0 <= x < 256
  datatype Color = Clear | Rgb(red: Component, green: Component, blue: Component)

  const HexDigits: string := "0123456789ABCDEF"

  /** `%02lX` for a component: two upper-case hexadecimal digits. */
  function Hex2(c: Component): (r: string)
    ensures |r| == 2 && r[0] in HexDigits && r[1] in HexDigits
  {
    [HexDigits[c / 16], HexDigits[c % 16]]
  }

  /** `cssString(from:)`: "transparent" for `.clear`, `#RRGGBB` otherwise. */
  function CssString(c: Color): (r: string)
    ensures c.Clear? ==> r == "transparent"
    ensures c.Rgb? ==> |r| == 7 && r[0] == '#' && forall i | 1 <= i < 7 :: r[i] in HexDigits
    ensures PlainValue(r)
  {
    match c
    case Clear =>
      TransparentIsPlain();
      "transparent"
    case Rgb(red, green, blue) =>
      var r := "#" + Hex2(red) + Hex2(green) + Hex2(blue);
      HexDigitsArePlain();
      assert forall i | 1 <= i < 7 :: r[i] in HexDigits;
      r
  }

  /** The characters ICU's `.` does not match: the line terminators. */
  predicate IsLineTerminator(c: char) {
    c == '\n' || c == '\U{0B}' || c == '\U{0C}' || c == '\r' || c == '\U{85}' || c == '\U{2028}' || c == '\U{2029}'
  }

  /** A character that ends the lazy `.*?` of a run: the `;` it is looking for, or a line end it cannot cross. */
  predicate IsStop(c: char) {
    c == ';' || IsLineTerminator(c)
  }

  /** A colour value that cannot end or begin a run inside a replacement: no `;`, no `:`, no line end. */
  predicate PlainValue(v: string) {
    forall i | 0 <= i < |v| :: !IsStop(v[i]) && v[i] != ':'
  }

  lemma TransparentIsPlain()
    ensures PlainValue("transparent")
  {
    var t := "transparent";
    forall i | 0 <= i < |t| ensures !IsStop(t[i]) && t[i] != ':' {
      assert t[i] in "transparent";
    }
  }

  lemma HexDigitsArePlain()
    ensures forall c | c in HexDigits :: !IsStop(c) && c != ':'
    ensures !IsStop('#') && '#' != ':'
  {
  }

  /** The literal text the pattern opens with. */
  const Prefix: string := "background-color:"

  /** The template `"background-color: \(cssColor);"`. */
  function Replacement(cssColor: string): (r: string)
    ensures StartsWith(r, Prefix) && |r| == |Prefix| + |cssColor| + 2
  {
    Prefix + " " + cssColor + ";"
  }

  /** No character of the prefix stops a run, and its only `:` is its last character. */
  lemma PrefixFacts()
    ensures |Prefix| == 17 && Prefix[16] == ':'
    ensures forall i | 0 <= i < 17 :: !IsStop(Prefix[i])
    ensures forall i | 0 <= i < 16 :: Prefix[i] != ':'
  {
  }

  /** Two occurrences of the prefix never overlap. */
  lemma PrefixNoBorder(k: nat)
    requires 0 < k < |Prefix|
    ensures Prefix[k..] != Prefix[..|Prefix| - k]
  {
    PrefixFacts();
    assert Prefix[k..][|Prefix| - k - 1] == ':';
    assert Prefix[..|Prefix| - k][|Prefix| - k - 1] == Prefix[|Prefix| - k - 1];
  }

  /** The first index at or after `k` holding a stop character, or the end of `s`. */
  function StopAt(s: string, k: nat): (t: nat)
    requires k <= |s|
    ensures k <= t <= |s|
    ensures forall i | k <= i < t :: !IsStop(s[i])
    ensures t < |s| ==> IsStop(s[t])
    decreases |s| - k
  {
    if k == |s| || IsStop(s[k]) then k else StopAt(s, k + 1)
  }

  /** The stop is determined by its defining properties. */
  lemma StopAtIs(s: string, k: nat, t: nat)
    requires k <= t <= |s|
    requires forall i | k <= i < t :: !IsStop(s[i])
    requires t < |s| ==> IsStop(s[t])
    ensures StopAt(s, k) == t
  {
  }

  /** Where the lazy `.*?;` that starts at `k` ends: the first `;`, provided no line end comes before it. */
  function RunEnd(s: string, k: nat): (r: Option<nat>)
    requires k <= |s|
    ensures r.Some? ==> k <= r.value < |s| && s[r.value] == ';' && forall i | k <= i < r.value :: !IsStop(s[i])
  {
    var t := StopAt(s, k);
    if t < |s| && s[t] == ';' then Some(t) else Option.None
  }

  /** The pattern matches at the start of `s`. */
  predicate MatchAt(s: string) {
    |s| >= |Prefix| && s[..|Prefix|] == Prefix && RunEnd(s, |Prefix|).Some?
  }

  /** The length of the match at the start of `s`, through its closing `;`, or 0 where there is none. */
  function MatchLength(s: string): (n: nat)
    ensures n <= |s|
    ensures n > 0 <==> MatchAt(s)
    ensures MatchAt(s) ==> n == RunEnd(s, |Prefix|).value + 1
  {
    if MatchAt(s) then RunEnd(s, |Prefix|).value + 1 else 0
  }

  /** A matcher gives the length of the match at the start of a text (0 for none), never more than the text. */
  ghost predicate IsMatcher(m: string -> nat) {
    forall x :: m(x) <= |x|
  }

  /**
   * The left-to-right scan of `replacingOccurrences(of:with:options: .regularExpression)` for
   * a matcher `m`: a match is replaced and the scan resumes after it; elsewhere one character
   * is copied and the scan moves on.
   */
  function Scan(s: string, replacement: string, m: string -> nat): string
    requires IsMatcher(m)
    decreases |s|
  {
    if |s| == 0 then ""
    else if m(s) > 0 then replacement + Scan(s[m(s)..], replacement, m)
    else [s[0]] + Scan(s[1..], replacement, m)
  }

  /** The rewrite of every `background-color:.*?;` match into `replacement`. */
  function ReplaceRuns(s: string, replacement: string): string {
    Scan(s, replacement, MatchLength)
  }

  /** Where the first match starts, or the length of `s` when there is none. */
  function FirstMatch(s: string, m: string -> nat): (n: nat)
    requires IsMatcher(m)
    ensures n <= |s|
    ensures n < |s| ==> m(s[n..]) > 0
    decreases |s|
  {
    if |s| == 0 then 0
    else if m(s) > 0 then assert s[0..] == s; 0
    else
      var k := FirstMatch(s[1..], m);
      assert k < |s| - 1 ==> s[1..][k..] == s[k + 1..];
      k + 1
  }

  /** No match starts before the first one. */
  lemma {:induction false} NoMatchBeforeFirst(s: string, m: string -> nat)
    requires IsMatcher(m)
    ensures forall q | 0 <= q < FirstMatch(s, m) :: m(s[q..]) == 0
    decreases |s|
  {
    if |s| > 0 && m(s) == 0 {
      NoMatchBeforeFirst(s[1..], m);
      forall q | 0 <= q < FirstMatch(s, m) ensures m(s[q..]) == 0 {
        if q == 0 {
          assert s[0..] == s;
        } else {
          assert s[q..] == s[1..][q - 1..];
        }
      }
    }
  }

  /** The text before the first match is copied unchanged, and the scan goes on from there. */
  lemma {:induction false} SplitAtFirstMatch(s: string, replacement: string, m: string -> nat)
    requires IsMatcher(m)
    ensures Scan(s, replacement, m) == s[..FirstMatch(s, m)] + Scan(s[FirstMatch(s, m)..], replacement, m)
    decreases |s|
  {
    if |s| > 0 && m(s) == 0 {
      var k := FirstMatch(s[1..], m);
      SplitAtFirstMatch(s[1..], replacement, m);
      assert s[1..][k..] == s[k + 1..];
      assert [s[0]] + s[1..][..k] == s[..k + 1];
    } else {
      assert s[0..] == s;
    }
  }

  /** Text in which nothing matches anywhere is left as it is. */
  lemma NoMatchUnchanged(s: string, replacement: string, m: string -> nat)
    requires IsMatcher(m)
    requires forall q | 0 <= q <= |s| :: m(s[q..]) == 0
    ensures Scan(s, replacement, m) == s
  {
    SplitAtFirstMatch(s, replacement, m);
    assert s[..|s|] == s;
  }

  /** Either nothing matched, or the result carries the replacement somewhere. */
  lemma {:induction false} UnchangedOrReplaced(s: string, replacement: string, m: string -> nat)
    requires IsMatcher(m)
    ensures Scan(s, replacement, m) == s || Contains(Scan(s, replacement, m), replacement)
    decreases |s|
  {
    if |s| > 0 {
      if m(s) > 0 {
        var r := Scan(s, replacement, m);
        assert r[0..|replacement|] == replacement;
        ContainsAt(r, replacement, 0);
      } else {
        UnchangedOrReplaced(s[1..], replacement, m);
        var t := Scan(s[1..], replacement, m);
        if t == s[1..] {
          assert [s[0]] + s[1..] == s;
        } else {
          ContainsWithin([s[0]], t, "", replacement);
          assert [s[0]] + t + "" == [s[0]] + t;
        }
      }
    }
  }

  /**
   * Scanning all but the first character either changes nothing or keeps the text up to the
   * first later match `q`, where the replacement follows.
   */
  lemma RewrittenAfterFirst(s: string, replacement: string, m: string -> nat) returns (q: nat, tail: string)
    requires IsMatcher(m) && |s| > 0
    ensures var x := [s[0]] + Scan(s[1..], replacement, m);
            x == s || (1 <= q < |s| && m(s[q..]) > 0 && x == s[..q] + (replacement + tail))
  {
    var y := s[1..];
    var n := FirstMatch(y, m);
    SplitAtFirstMatch(y, replacement, m);
    q, tail := n + 1, "";
    if n == |y| {
      assert y[..n] == y;
      assert [s[0]] + y == s;
    } else {
      var z := y[n..];
      tail := Scan(z[m(z)..], replacement, m);
      ShiftAfterHead(s, n, replacement + tail);
    }
  }

  /** Putting the first character back in front of a cut of the rest is a cut of the whole. */
  lemma ShiftAfterHead(s: string, n: nat, u: string)
    requires n < |s| - 1
    ensures s[1..][n..] == s[n + 1..]
    ensures [s[0]] + (s[1..][..n] + u) == s[..n + 1] + u
  {
    assert [s[0]] + s[1..][..n] == s[..n + 1];
  }

  /** A replacement is itself matched, exactly as far as its closing `;`. */
  lemma ReplacementMatches(cssColor: string, t: string)
    requires PlainValue(cssColor)
    ensures ReplaceRuns(Replacement(cssColor) + t, Replacement(cssColor)) == Replacement(cssColor) + ReplaceRuns(t, Replacement(cssColor))
  {
    var rep := Replacement(cssColor);
    var x := rep + t;
    PrefixFacts();
    assert x[..|Prefix|] == Prefix;
    forall i | |Prefix| <= i < |rep| - 1 ensures !IsStop(x[i]) {
      if i > |Prefix| {
        assert x[i] == cssColor[i - |Prefix| - 1];
      }
    }
    StopAtIs(x, |Prefix|, |rep| - 1);
    assert x[|rep|..] == t;
  }

  /** The prefix cannot start again before an earlier occurrence of it has ended. */
  lemma NoOverlap(x: string, q: nat)
    requires 0 < q < |Prefix| && q + |Prefix| <= |x|
    ensures !(x[..|Prefix|] == Prefix && x[q..q + |Prefix|] == Prefix)
  {
    if x[..|Prefix|] == Prefix && x[q..q + |Prefix|] == Prefix {
      assert Prefix[q..] == x[q..|Prefix|] == Prefix[..|Prefix| - q];
      PrefixNoBorder(q);
    }
  }

  /**
   * When `s` opens with the prefix but has no run there, yet a run starts at `q` past the
   * prefix, then the line end that stopped the first attempt lies before `q`.
   */
  lemma StopBeforeLaterRun(s: string, q: nat)
    requires |Prefix| <= q < |s| && MatchAt(s[q..])
    requires RunEnd(s, |Prefix|).None?
    ensures StopAt(s, |Prefix|) < q && s[StopAt(s, |Prefix|)] != ';'
  {
    var z := s[q..];
    var j := RunEnd(z, |Prefix|).value;
    var t := StopAt(s, |Prefix|);
    PrefixFacts();
    forall i | q <= i < q + j ensures !IsStop(s[i]) {
      assert s[i] == z[i - q];
      if i - q < |Prefix| {
        assert z[i - q] == z[..|Prefix|][i - q];
      }
    }
    assert s[q + j] == z[j] == ';';
  }

  /** Text that agrees with `s` up to a stop of `s` has the same stop there. */
  lemma SameStop(s: string, x: string, k: nat, t: nat)
    requires k <= t < |s| && t < |x| && s[..t + 1] == x[..t + 1]
    requires StopAt(s, k) == t
    ensures StopAt(x, k) == t && x[t] == s[t]
  {
    forall i | k <= i <= t ensures x[i] == s[i] {
      assert x[i] == x[..t + 1][i];
    }
    StopAtIs(x, k, t);
  }

  /**
   * A text that agrees with unmatched `s` up to the first later match and carries text opening
   * with the prefix from there on does not match at its start either.
   */
  lemma NoMatchKept(s: string, x: string, q: nat, t: string)
    requires |s| > 0 && !MatchAt(s) && StartsWith(t, Prefix)
    requires x == s || (1 <= q < |s| && MatchAt(s[q..]) && x == s[..q] + t)
    ensures !MatchAt(x)
  {
    if x != s {
      assert x[..q] == s[..q];
      if q < |Prefix| {
        assert x[q..q + |Prefix|] == t[..|Prefix|];
        NoOverlap(x, q);
      } else if x[..|Prefix|] == Prefix {
        assert s[..|Prefix|] == x[..q][..|Prefix|];
        StopBeforeLaterRun(s, q);
        var k := StopAt(s, |Prefix|);
        assert s[..k + 1] == x[..k + 1] by {
          assert s[..k + 1] == s[..q][..k + 1];
          assert x[..k + 1] == x[..q][..k + 1];
        }
        SameStop(s, x, |Prefix|, k);
      }
    }
  }

  /** Where the pattern does not match, it does not match after the rest has been rewritten either. */
  lemma NoMatchStaysNoMatch(s: string, replacement: string)
    requires |s| > 0 && !MatchAt(s)
    requires StartsWith(replacement, Prefix)
    ensures !MatchAt([s[0]] + ReplaceRuns(s[1..], replacement))
  {
    var q, tail := RewrittenAfterFirst(s, replacement, MatchLength);
    assert StartsWith(replacement + tail, Prefix) by {
      assert (replacement + tail)[..|Prefix|] == replacement[..|Prefix|];
    }
    NoMatchKept(s, [s[0]] + ReplaceRuns(s[1..], replacement), q, replacement + tail);
  }

  /** Rewriting twice with a plain colour gives the same text as rewriting once. */
  lemma {:induction false} ReplaceRunsIdempotent(s: string, cssColor: string)
    requires PlainValue(cssColor)
    ensures ReplaceRuns(ReplaceRuns(s, Replacement(cssColor)), Replacement(cssColor)) == ReplaceRuns(s, Replacement(cssColor))
    decreases |s|
  {
    var rep := Replacement(cssColor);
    if |s| > 0 {
      if MatchAt(s) {
        var rest := s[RunEnd(s, |Prefix|).value + 1..];
        ReplacementMatches(cssColor, ReplaceRuns(rest, rep));
        ReplaceRunsIdempotent(rest, cssColor);
      } else {
        var x := [s[0]] + ReplaceRuns(s[1..], rep);
        PrefixFacts();
        assert StartsWith(rep, Prefix) by {
          assert rep[..|Prefix|] == Prefix;
        }
        NoMatchStaysNoMatch(s, rep);
        assert x[1..] == ReplaceRuns(s[1..], rep);
        ReplaceRunsIdempotent(s[1..], cssColor);
      }
    }
  }

  /** The part of `Configuration` the modifier touches; `rest` stands for every other setting. */
  datatype Configuration<R> = Configuration(customCSS: string, backgroundColor: string, rest: R)

  datatype RichText<R> = RichText(html: string, configuration: Configuration<R>, placeholder: Option<AnyView>)

  /**
   * `richTextBackground(_:)`: with `background-color:` already in the custom CSS, its
   * declarations are rewritten and the background colour is kept; otherwise the background
   * colour is set and the custom CSS kept. Nothing else changes.
   */
  function RichTextBackground<R>(v: RichText<R>, color: Color): (r: RichText<R>)
    ensures r.html == v.html && r.placeholder == v.placeholder && r.configuration.rest == v.configuration.rest
    ensures Contains(v.configuration.customCSS, Prefix) ==>
      r.configuration.backgroundColor == v.configuration.backgroundColor &&
      r.configuration.customCSS == ReplaceRuns(v.configuration.customCSS, Replacement(CssString(color)))
    ensures !Contains(v.configuration.customCSS, Prefix) ==>
      r.configuration.customCSS == v.configuration.customCSS &&
      r.configuration.backgroundColor == CssString(color)
  {
    var cssColor := CssString(color);
    if Contains(v.configuration.customCSS, Prefix) then
      v.(configuration := v.configuration.(customCSS := ReplaceRuns(v.configuration.customCSS, Replacement(cssColor))))
    else
      v.(configuration := v.configuration.(backgroundColor := cssColor))
  }

  /** After a rewrite the custom CSS still mentions `background-color:`. */
  lemma RewriteKeepsPrefix(s: string, cssColor: string)
    requires Contains(s, Prefix)
    ensures Contains(ReplaceRuns(s, Replacement(cssColor)), Prefix)
  {
    var rep := Replacement(cssColor);
    var r := ReplaceRuns(s, rep);
    UnchangedOrReplaced(s, rep, MatchLength);
    if r != s {
      var i := ContainsIndex(r, rep);
      assert r[i..i + |Prefix|] == rep[..|Prefix|];
      ContainsAt(r, Prefix, i);
    }
  }

  /** Applying the modifier twice with the same colour is the same as applying it once. */
  lemma RichTextBackgroundIdempotent<R>(v: RichText<R>, color: Color)
    ensures RichTextBackground(RichTextBackground(v, color), color) == RichTextBackground(v, color)
  {
    var s := v.configuration.customCSS;
    if Contains(s, Prefix) {
      RewriteKeepsPrefix(s, CssString(color));
      ReplaceRunsIdempotent(s, CssString(color));
    }
  }

  /**
   * When the custom CSS mentions `background-color:` but every such mention lacks a `;` on its
   * line, the modifier changes nothing at all: the declarations are not rewritten and the
   * background colour is not set.
   */
  lemma MentionWithoutRunIgnored<R>(v: RichText<R>, color: Color)
    requires Contains(v.configuration.customCSS, Prefix)
    requires forall q | 0 <= q <= |v.configuration.customCSS| :: !MatchAt(v.configuration.customCSS[q..])
    ensures RichTextBackground(v, color) == v
  {
    var s := v.configuration.customCSS;
    forall q | 0 <= q <= |s| ensures MatchLength(s[q..]) == 0 {
    }
    NoMatchUnchanged(s, Replacement(CssString(color)), MatchLength);
  }
}
