/**
 * The string operations `Product.clean` applies to names and descriptions:
 * Python's `" ".join(s.split())` (collapse whitespace), `s.strip()` and
 * `s.casefold()`.
 *
 * Whitespace is the set Python's argument-less `str.split()` and `str.strip()`
 * use (the characters for which `str.isspace()` holds). Case folding is
 * modelled as ASCII lower-casing.
 */
module Text {

  /** Python's whitespace characters. */
  predicate IsSpace(c: char)
  {
    || ('\t' <= c <= '\r')              // \t \n \v \f \r
    || ('\U{1C}' <= c <= '\U{1F}')      // file, group, record and unit separators
    || c == ' '
    || c == '\U{85}' || c == '\U{A0}' || c == '\U{1680}'
    || ('\U{2000}' <= c <= '\U{200A}')
    || c == '\U{2028}' || c == '\U{2029}' || c == '\U{202F}' || c == '\U{205F}'
    || c == '\U{3000}'
  }

  predicate AllSpace(s: string)
  {
    forall i :: 0 <= i < |s| ==> IsSpace(s[i])
  }

  /** A word as `str.split()` yields it: non-empty, no whitespace inside. */
  predicate IsWord(w: string)
  {
    |w| > 0 && forall i :: 0 <= i < |w| ==> !IsSpace(w[i])
  }

  /** The characters of `s` that are not whitespace, in order. */
  function Visible(s: string): string
  {
    if s == [] then []
    else (if IsSpace(s[0]) then [] else [s[0]]) + Visible(s[1..])
  }

  // ---------------------------------------------------------------------------
  // str.split()
  // ---------------------------------------------------------------------------

  /** The longest prefix of `s` that holds no whitespace. */
  function LeadingWord(s: string): (w: string)
    ensures w <= s
    ensures forall i :: 0 <= i < |w| ==> !IsSpace(w[i])
    ensures |w| == |s| || IsSpace(s[|w|])
  {
    if s == [] || IsSpace(s[0]) then [] else [s[0]] + LeadingWord(s[1..])
  }

  /** `s.split()`: the maximal runs of non-whitespace characters, in order. */
  function Split(s: string): seq<string>
    decreases |s|
  {
    if s == [] then []
    else if IsSpace(s[0]) then Split(s[1..])
    else
      var w := LeadingWord(s);
      [w] + Split(s[|w|..])
  }

  /** `" ".join(ws)`. */
  function JoinWithSpace(ws: seq<string>): string
  {
    if ws == [] then ""
    else if |ws| == 1 then ws[0]
    else ws[0] + " " + JoinWithSpace(ws[1..])
  }

  /** `" ".join(s.split())`. */
  function Collapse(s: string): string
  {
    JoinWithSpace(Split(s))
  }

  /**
   * The shape of a collapsed string: no whitespace at either end, none but
   * plain spaces, and never two whitespace characters in a row.
   */
  predicate IsCollapsed(t: string)
  {
    && (t == [] || (!IsSpace(t[0]) && !IsSpace(t[|t| - 1])))
    && (forall i :: 0 <= i < |t| && IsSpace(t[i]) ==> t[i] == ' ')
    && (forall i, j :: 0 <= i < |t| && j == i + 1 && j < |t| ==> !IsSpace(t[i]) || !IsSpace(t[j]))
  }

  // ---------------------------------------------------------------------------
  // str.strip()
  // ---------------------------------------------------------------------------

  /** `s.lstrip()`: drops the leading whitespace, nothing else. */
  function TrimStart(s: string): (r: string)
    ensures |r| <= |s| && r == s[|s| - |r|..]
    ensures forall i :: 0 <= i < |s| - |r| ==> IsSpace(s[i])
    ensures r == [] || !IsSpace(r[0])
  {
    if s != [] && IsSpace(s[0]) then TrimStart(s[1..]) else s
  }

  /** `s.rstrip()`: drops the trailing whitespace, nothing else. */
  function TrimEnd(s: string): (r: string)
    ensures r <= s
    ensures forall i :: |r| <= i < |s| ==> IsSpace(s[i])
    ensures r == [] || !IsSpace(r[|r| - 1])
  {
    if s != [] && IsSpace(s[|s| - 1]) then TrimEnd(s[..|s| - 1]) else s
  }

  /** `s.strip()`. */
  function Strip(s: string): string
  {
    TrimEnd(TrimStart(s))
  }

  // ---------------------------------------------------------------------------
  // str.casefold()
  // ---------------------------------------------------------------------------

  function FoldChar(c: char): char
  {
    if 'A' <= c <= 'Z' then (c as int + ('a' as int - 'A' as int)) as char else c
  }

  /** `s.casefold()`, restricted to ASCII letters. */
  function CaseFold(s: string): (r: string)
    ensures |r| == |s|
  {
    if s == [] then [] else [FoldChar(s[0])] + CaseFold(s[1..])
  }

  /** Case folding works character by character. */
  lemma {:induction false} CaseFoldAt(s: string)
    ensures forall i :: 0 <= i < |s| ==> CaseFold(s)[i] == FoldChar(s[i])
  {
    if s != [] {
      CaseFoldAt(s[1..]);
      forall i | 0 < i < |s| ensures CaseFold(s)[i] == FoldChar(s[i]) {
        assert CaseFold(s)[i] == CaseFold(s[1..])[i - 1];
      }
    }
  }

  /**
   * Folding turns each letter A–Z into its lower-case form and leaves every
   * other character as it is, so no upper-case ASCII letter is left.
   */
  lemma CaseFoldLetters(s: string)
    ensures forall i :: 0 <= i < |s| && 'A' <= s[i] <= 'Z' ==>
      CaseFold(s)[i] as int == s[i] as int + 32
    ensures forall i :: 0 <= i < |s| && !('A' <= s[i] <= 'Z') ==> CaseFold(s)[i] == s[i]
    ensures forall i :: 0 <= i < |s| ==> !('A' <= CaseFold(s)[i] <= 'Z')
  {
    CaseFoldAt(s);
  }

  /** Two strings fold to the same string exactly when they agree up to ASCII case, position by position. */
  lemma CaseFoldEqualIff(s: string, t: string)
    ensures CaseFold(s) == CaseFold(t) <==>
      |s| == |t| && forall i :: 0 <= i < |s| ==> FoldChar(s[i]) == FoldChar(t[i])
  {
    var fs, ft := CaseFold(s), CaseFold(t);
    CaseFoldAt(s);
    CaseFoldAt(t);
    if fs == ft {
      forall i | 0 <= i < |s| ensures FoldChar(s[i]) == FoldChar(t[i]) {
        assert fs[i] == ft[i];
      }
    }
    if |s| == |t| && forall i :: 0 <= i < |s| ==> FoldChar(s[i]) == FoldChar(t[i]) {
      forall i | 0 <= i < |fs| ensures fs[i] == ft[i] {
        assert fs[i] == FoldChar(s[i]) && ft[i] == FoldChar(t[i]);
      }
    }
  }

  // ---------------------------------------------------------------------------
  // Properties of split and join
  // ---------------------------------------------------------------------------

  /** Every piece `Split` yields is a word. */
  lemma {:induction false} SplitYieldsWords(s: string)
    ensures forall k :: 0 <= k < |Split(s)| ==> IsWord(Split(s)[k])
    decreases |s|
  {
    if s != [] {
      if IsSpace(s[0]) {
        SplitYieldsWords(s[1..]);
      } else {
        SplitYieldsWords(s[|LeadingWord(s)|..]);
      }
    }
  }

  /** Appending text that starts with whitespace does not change the leading word. */
  lemma {:induction false} LeadingWordAppend(t: string, u: string)
    requires u == [] || IsSpace(u[0])
    ensures LeadingWord(t + u) == LeadingWord(t)
  {
    if t == [] {
    } else {
      assert (t + u)[0] == t[0];
      if !IsSpace(t[0]) {
        assert (t + u)[1..] == t[1..] + u;
        LeadingWordAppend(t[1..], u);
      }
    }
  }

  lemma {:induction false} LeadingWordOfWord(w: string)
    requires forall i :: 0 <= i < |w| ==> !IsSpace(w[i])
    ensures LeadingWord(w) == w
  {
    if w != [] {
      LeadingWordOfWord(w[1..]);
    }
  }

  /** A word followed by whitespace (or nothing) splits off as one piece. */
  lemma SplitWordThen(w: string, u: string)
    requires IsWord(w)
    requires u == [] || IsSpace(u[0])
    ensures Split(w + u) == [w] + Split(u)
  {
    LeadingWordAppend(w, u);
    LeadingWordOfWord(w);
    assert (w + u)[0] == w[0];
    assert (w + u)[|w|..] == u;
  }

  lemma SplitLeadingSpace(u: string)
    requires u != [] && IsSpace(u[0])
    ensures Split(u) == Split(u[1..])
  {
  }

  /** Splitting the joined words gives the words back. */
  lemma {:induction false} SplitJoin(ws: seq<string>)
    requires forall k :: 0 <= k < |ws| ==> IsWord(ws[k])
    ensures Split(JoinWithSpace(ws)) == ws
  {
    if ws == [] {
    } else if |ws| == 1 {
      SplitWordThen(ws[0], []);
      assert ws[0] + [] == ws[0];
    } else {
      var rest := JoinWithSpace(ws[1..]);
      var u := " " + rest;
      assert JoinWithSpace(ws) == ws[0] + u;
      SplitWordThen(ws[0], u);
      assert u[1..] == rest;
      SplitLeadingSpace(u);
      SplitJoin(ws[1..]);
      assert ws == [ws[0]] + ws[1..];
    }
  }

  /** Joining well-formed words yields a collapsed string, empty only for no words. */
  lemma {:induction false} JoinShape(ws: seq<string>)
    requires forall k :: 0 <= k < |ws| ==> IsWord(ws[k])
    ensures IsCollapsed(JoinWithSpace(ws))
    ensures JoinWithSpace(ws) == "" <==> ws == []
  {
    if |ws| >= 2 {
      var w, rest := ws[0], JoinWithSpace(ws[1..]);
      JoinShape(ws[1..]);
      var t := w + " " + rest;
      assert rest != "";
      assert t[0] == w[0];
      assert t[|t| - 1] == rest[|rest| - 1];
      forall i | 0 <= i < |t| && IsSpace(t[i]) ensures t[i] == ' ' {
        if i > |w| {
          assert t[i] == rest[i - |w| - 1];
        }
      }
      forall i, j | 0 <= i < |t| && j == i + 1 && j < |t| ensures !IsSpace(t[i]) || !IsSpace(t[j]) {
        if i < |w| {
          assert t[i] == w[i];
        } else if i == |w| {
          assert t[j] == rest[0];
        } else {
          assert t[i] == rest[i - |w| - 1] && t[j] == rest[j - |w| - 1];
        }
      }
    }
  }

  /** `Split` yields no words exactly for a string of whitespace only. */
  lemma {:induction false} SplitEmptyIff(s: string)
    ensures Split(s) == [] <==> AllSpace(s)
    decreases |s|
  {
    if s != [] && IsSpace(s[0]) {
      SplitEmptyIff(s[1..]);
      assert AllSpace(s) <==> AllSpace(s[1..]) by {
        if AllSpace(s[1..]) {
          forall i | 0 <= i < |s| ensures IsSpace(s[i]) {
            if i > 0 { assert s[i] == s[1..][i - 1]; }
          }
        }
      }
    }
  }

  lemma {:induction false} VisibleAppend(a: string, b: string)
    ensures Visible(a + b) == Visible(a) + Visible(b)
  {
    if a == [] {
      assert a + b == b;
    } else {
      assert (a + b)[0] == a[0];
      assert (a + b)[1..] == a[1..] + b;
      VisibleAppend(a[1..], b);
    }
  }

  lemma VisibleWord(w: string)
    requires forall i :: 0 <= i < |w| ==> !IsSpace(w[i])
    ensures Visible(w) == w
  {
  }

  function Concat(ws: seq<string>): string
  {
    if ws == [] then "" else ws[0] + Concat(ws[1..])
  }

  /** The words of `s`, concatenated, are its non-whitespace characters. */
  lemma {:induction false} SplitVisible(s: string)
    ensures Concat(Split(s)) == Visible(s)
    decreases |s|
  {
    if s == [] {
    } else if IsSpace(s[0]) {
      SplitVisible(s[1..]);
    } else {
      var w := LeadingWord(s);
      assert s == w + s[|w|..];
      SplitVisible(s[|w|..]);
      VisibleAppend(w, s[|w|..]);
      VisibleWord(w);
    }
  }

  lemma {:induction false} JoinVisible(ws: seq<string>)
    requires forall k :: 0 <= k < |ws| ==> IsWord(ws[k])
    ensures Visible(JoinWithSpace(ws)) == Concat(ws)
  {
    if ws == [] {
    } else if |ws| == 1 {
      VisibleWord(ws[0]);
      assert Concat(ws) == ws[0] + Concat([]);
    } else {
      JoinVisible(ws[1..]);
      VisibleAppend(ws[0] + " ", JoinWithSpace(ws[1..]));
      VisibleAppend(ws[0], " ");
      VisibleWord(ws[0]);
    }
  }

  // ---------------------------------------------------------------------------
  // Properties of Collapse, the normalisation Product.clean applies
  // ---------------------------------------------------------------------------

  /** The collapsed string has no leading, trailing or repeated whitespace. */
  lemma CollapseShape(s: string)
    ensures IsCollapsed(Collapse(s))
  {
    SplitYieldsWords(s);
    JoinShape(Split(s));
  }

  /** Collapsing keeps every non-whitespace character, in order. */
  lemma CollapseKeepsVisible(s: string)
    ensures Visible(Collapse(s)) == Visible(s)
  {
    SplitYieldsWords(s);
    JoinVisible(Split(s));
    SplitVisible(s);
  }

  /** Collapsing gives the empty string exactly for whitespace-only input. */
  lemma CollapseEmptyIff(s: string)
    ensures Collapse(s) == "" <==> AllSpace(s)
  {
    SplitYieldsWords(s);
    JoinShape(Split(s));
    SplitEmptyIff(s);
  }

  /** Collapsing twice is collapsing once. */
  lemma CollapseIdempotent(s: string)
    ensures Collapse(Collapse(s)) == Collapse(s)
  {
    SplitYieldsWords(s);
    SplitJoin(Split(s));
  }

  /** Leading whitespace does not change the words. */
  lemma {:induction false} SplitTrimStart(s: string)
    ensures Split(TrimStart(s)) == Split(s)
    decreases |s|
  {
    if s != [] && IsSpace(s[0]) {
      SplitTrimStart(s[1..]);
    }
  }

  /** Trailing whitespace does not change the words. */
  lemma {:induction false} SplitTrailingSpace(t: string, u: string)
    requires AllSpace(u)
    ensures Split(t + u) == Split(t)
    decreases |t| + |u|
  {
    if t == [] {
      assert t + u == u;
      SplitEmptyIff(u);
    } else if IsSpace(t[0]) {
      assert (t + u)[1..] == t[1..] + u;
      SplitTrailingSpace(t[1..], u);
    } else {
      LeadingWordAppend(t, u);
      var w := LeadingWord(t);
      assert (t + u)[0] == t[0];
      assert (t + u)[|w|..] == t[|w|..] + u;
      SplitTrailingSpace(t[|w|..], u);
    }
  }

  lemma SplitTrimEnd(t: string)
    ensures Split(TrimEnd(t)) == Split(t)
  {
    var r := TrimEnd(t);
    var u := t[|r|..];
    assert t == r + u;
    assert AllSpace(u) by {
      forall i | 0 <= i < |u| ensures IsSpace(u[i]) {
        assert u[i] == t[|r| + i];
      }
    }
    SplitTrailingSpace(r, u);
  }

  /** Stripping first makes no difference to the collapsed form. */
  lemma CollapseStrip(s: string)
    ensures Collapse(Strip(s)) == Collapse(s)
  {
    SplitTrimStart(s);
    SplitTrimEnd(TrimStart(s));
  }

  /** `strip` leaves no whitespace at either end. */
  lemma StripEdges(s: string)
    ensures var r := Strip(s); r == [] || (!IsSpace(r[0]) && !IsSpace(r[|r| - 1]))
  {
    var t := TrimStart(s);
    var r := TrimEnd(t);
    if r != [] {
      assert r[0] == t[0];
    }
  }

  /** Stripping twice is stripping once. */
  lemma StripIdempotent(s: string)
    ensures Strip(Strip(s)) == Strip(s)
  {
    StripEdges(s);
  }
}
